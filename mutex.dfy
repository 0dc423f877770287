/** The cache's mutual-exclusion lock, reduced to a single-threaded token.
    A `MutexGuard` is a reference to the lock while `held` is true; dropping
    the guard clears `held`. Blocking, other threads and poisoning are not
    modelled: taking a lock that is already held is a precondition failure. */
module Mutex {

  class Lock {
    var held: bool

    constructor ()
      ensures !held
    {
      held := false;
    }

    /** `Mutex::lock`: the caller gets the guard. */
    method Acquire()
      requires !held
      modifies this
      ensures held
    {
      held := true;
    }

    /** Dropping the `MutexGuard`. */
    method Unlock()
      requires held
      modifies this
      ensures !held
    {
      held := false;
    }
  }
}
