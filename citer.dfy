/** The cursor-to-iterator adapter of `src/citer.rs`.

    A native cursor sits on its first element as soon as it is created; the
    adapter's `first` flag turns that into an ordinary "next item or nothing"
    protocol. The native cursor is modelled as a class over the sequence it
    walks (the engine's data, which never changes while the cursor lives). */
module CIter {
  import opened Wrappers
  import opened Mutex

  function Min(a: nat, b: nat): nat { if a <= b then a else b }

  /** The adapter's observable state: its `first` flag and the cursor position. */
  datatype Phase = Phase(first: bool, pos: nat)

  /** One call of `CIterator::next` on a cursor over `items`, as a pure
      transition: the value it returns and the phase it leaves behind. */
  function Step<T>(items: seq<T>, p: Phase): (res: (Option<T>, Phase))
    requires p.pos <= |items|
    ensures res.1.pos <= |items|
    ensures res.0.Some? ==> res.1.pos < |items| && res.0.value == items[res.1.pos]
    ensures res.0.None? ==> res.1.pos == |items|
  {
    if p.pos == |items| then (None, p)
    else
      var pos := if p.first then p.pos else p.pos + 1;
      (if pos == |items| then None else Some(items[pos]), Phase(false, pos))
  }

  /** The phase after `k` calls of `next` on an adapter created with `first: true`
      over an unadvanced cursor. */
  function After<T>(items: seq<T>, k: nat): (p: Phase)
    ensures p.pos <= |items|
  {
    if k == 0 then Phase(true, 0) else Step(items, After(items, k - 1)).1
  }

  /** After `k` calls the flag is still set only if nothing was ever yielded, and
      the cursor has moved `k - 1` times, but never past the end marker. */
  lemma {:induction false} AfterClosedForm<T>(items: seq<T>, k: nat)
    ensures After(items, k) == Phase(k == 0 || items == [], if k == 0 then 0 else Min(k - 1, |items|))
  {
    if k > 0 {
      AfterClosedForm(items, k - 1);
    }
  }

  /** The (k+1)-th call of `next` yields `items[k]` while there is one, and
      `None` for ever after. */
  lemma {:induction false} NextYields<T>(items: seq<T>, k: nat)
    ensures Step(items, After(items, k)).0 == if k < |items| then Some(items[k]) else None
  {
    AfterClosedForm(items, k);
  }

  /** A native cursor (one of the four kinds of `src/sane.rs`): a position in
      `items`, where `pos == |items|` is the end marker. `guard` is the cache
      lock a root package cursor owns; child cursors have none. */
  class Cursor<T> {
    const items: seq<T>
    const guard: Lock?
    var pos: nat
    var released: bool

    ghost predicate Valid()
      reads this
    {
      pos <= |items|
    }

    /** The engine hands out a cursor already sitting on its first element. */
    constructor Open(items: seq<T>, guard: Lock?)
      ensures this.items == items && this.guard == guard
      ensures pos == 0 && !released && Valid()
    {
      this.items := items;
      this.guard := guard;
      pos := 0;
      released := false;
    }

    /** `RawIterator::is_end`: no element is under the cursor. */
    predicate IsEnd(): (b: bool)
      reads this
      ensures Valid() ==> (b <==> !(pos < |items|))
    {
      pos == |items|
    }

    /** `RawIterator::next`: advancing at the end marker is undefined, so it is
        excluded here. */
    method Next()
      requires Valid() && !released && !IsEnd()
      modifies this`pos
      ensures Valid() && pos == old(pos) + 1
    {
      pos := pos + 1;
    }

    /** `RawIterator::as_view`: the element under the cursor, which exists only
        when the cursor is not at its end. */
    function AsView(): (v: T)
      reads this
      requires Valid() && !released && !IsEnd()
      ensures v in items
    {
      items[pos]
    }

    /** `RawIterator::release`: hand the native resource back, once. */
    method Release()
      requires !released
      modifies this`released
      ensures released
    {
      released := true;
    }
  }

  /** `CIterator`: the adapter over a native cursor. `calls` counts the calls
      of `Next` made so far. */
  class CIterator<T> {
    var first: bool
    const raw: Cursor<T>
    ghost var calls: nat

    ghost predicate Valid()
      reads this, raw, raw.guard
    {
      && !raw.released
      && raw.Valid()
      && (raw.guard != null ==> raw.guard.held)
      && Phase(first, raw.pos) == After(raw.items, calls)
    }

    /** The views handed out so far. */
    ghost function Yielded(): seq<T>
      reads this, raw
    {
      raw.items[..Min(calls, |raw.items|)]
    }

    /** The views still to come. */
    ghost function Remaining(): seq<T>
      reads this, raw
    {
      raw.items[Min(calls, |raw.items|)..]
    }

    /** The struct literal `CIterator { first: true, raw }`. */
    constructor (raw: Cursor<T>)
      requires !raw.released && raw.pos == 0
      requires raw.guard != null ==> raw.guard.held
      ensures Valid() && this.raw == raw && first && calls == 0
      ensures Remaining() == raw.items
    {
      first := true;
      this.raw := raw;
      calls := 0;
    }

    /** `CIterator::next`. */
    method Next() returns (r: Option<T>)
      requires Valid()
      modifies this, raw
      ensures Valid() && calls == old(calls) + 1
      ensures (r, Phase(first, raw.pos)) == Step(raw.items, old(Phase(first, raw.pos)))
      ensures r == if old(calls) < |raw.items| then Some(raw.items[old(calls)]) else None
      ensures Yielded() == old(Yielded()) + (if r.Some? then [r.value] else [])
      ensures old(Remaining()) == [] ==> r == None
      ensures r == None ==> Remaining() == []
      ensures r.Some? <==> !raw.IsEnd()
      ensures r.Some? ==> r.value == raw.AsView()
      ensures old(raw.IsEnd()) ==> raw.pos == old(raw.pos) && first == old(first)
      ensures !old(raw.IsEnd()) ==> !first && raw.pos == old(raw.pos) + (if old(first) then 0 else 1)
    {
      NextYields(raw.items, calls);
      calls := calls + 1;
      if raw.IsEnd() {
        return None;
      }
      if !first {
        raw.Next();
      }
      first := false;
      // the end marker itself is never handed out
      r := if raw.IsEnd() then None else Some(raw.AsView());
    }

    /** `Drop for CIterator`: release the native cursor; a root cursor's guard
        goes with it, which frees the cache lock. */
    method Drop()
      requires Valid()
      modifies raw, raw.guard
      ensures raw.released && raw.pos == old(raw.pos)
      ensures raw.guard != null ==> !raw.guard.held
    {
      raw.Release();
      if raw.guard != null {
        raw.guard.Unlock();
      }
    }

    /** `CIterator::map`: consume the adapter into a lazy mapped one. */
    method Map<B>(f: T -> B) returns (m: CMap<T, B>)
      requires Valid()
      ensures fresh(m) && m.it == this && m.f == f && m.Valid()
      ensures m.it.Remaining() == Remaining()
    {
      m := new CMap(this, f);
    }
  }

  /** `CMap`: applies `f` to each view as soon as it is produced. */
  class CMap<T, B> {
    const it: CIterator<T>
    const f: T -> B

    ghost predicate Valid()
      reads this, it, it.raw, it.raw.guard
    {
      it.Valid()
    }

    constructor (it: CIterator<T>, f: T -> B)
      requires it.Valid()
      ensures this.it == it && this.f == f && Valid()
    {
      this.it := it;
      this.f := f;
    }

    /** `Iterator::next for CMap`. */
    method Next() returns (r: Option<B>)
      requires Valid()
      modifies it, it.raw
      ensures Valid() && it.calls == old(it.calls) + 1
      ensures r == if old(it.calls) < |it.raw.items| then Some(f(it.raw.items[old(it.calls)])) else None
      ensures r.None? <==> old(it.Remaining()) == []
      ensures it.Remaining() == if r.None? then [] else old(it.Remaining())[1..]
    {
      var x := it.Next();
      match x {
        case Some(v) => r := Some(f(v));
        case None => r := None;
      }
    }

    /** `Iterator::collect` on a `CMap`, which drains it and then drops it. */
    method Collect() returns (xs: seq<B>)
      requires Valid()
      modifies it, it.raw, it.raw.guard
      ensures |xs| == |old(it.Remaining())|
      ensures forall i :: 0 <= i < |xs| ==> xs[i] == f(old(it.Remaining())[i])
      ensures it.raw.released
      ensures it.raw.guard != null ==> !it.raw.guard.held
    {
      ghost var all := it.Remaining();
      xs := [];
      var done := false;
      while !done
        invariant it.Valid()
        invariant |xs| <= |all| && it.Remaining() == all[|xs|..]
        invariant done ==> |xs| == |all|
        invariant forall i :: 0 <= i < |xs| ==> xs[i] == f(all[i])
        decreases if done then 0 else 1 + |it.Remaining()|
      {
        var y := Next();
        match y {
          case Some(v) => xs := xs + [v];
          case None => done := true;
        }
      }
      it.Drop();
    }
  }
}
