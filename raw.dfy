/** The run-once guard of `src/raw.rs` around the engine's configuration
    initialisation. The process-wide `static mut INIT_CONFIG_CALLED` is the
    field of a single `ConfigSystem` object; the engine's side effects are
    recorded, in order, in a ghost log. */
module Raw {

  datatype Event = FlagSet | NativeInit

  /** How many times the native initialisation has run. */
  function InitCount(log: seq<Event>): (n: nat)
    ensures n <= |log|
  {
    if log == [] then 0 else InitCount(log[..|log| - 1]) + (if log[|log| - 1] == NativeInit then 1 else 0)
  }

  class ConfigSystem {
    var initConfigCalled: bool
    ghost var log: seq<Event>

    /** The flag is exactly "the guarded prologue has happened", the flag was
        set before the native call, and the native call ran at most once. */
    ghost predicate Valid()
      reads this
    {
      log == if initConfigCalled then [FlagSet, NativeInit] else []
    }

    /** Process start: the flag is false and nothing has run. */
    constructor ()
      ensures Valid() && !initConfigCalled && log == []
    {
      initConfigCalled := false;
      log := [];
    }

    /** `init_config_system_once` */
    method InitConfigSystemOnce()
      requires Valid()
      modifies this
      ensures Valid() && initConfigCalled
      ensures log == old(log) + (if old(initConfigCalled) then [] else [FlagSet, NativeInit])
      ensures InitCount(log) == 1
    {
      if initConfigCalled {
        return;
      }
      initConfigCalled := true;
      log := log + [FlagSet];
      // init_config_system()
      log := log + [NativeInit];
    }
  }
}
