/** The synchronized callback slots of include/rtc/utils.hpp.

    A `synchronized_callback<Args...>` holds at most one handler; invoking it
    runs the handler, if any. A `synchronized_stored_callback<Args...>` also
    remembers the arguments of the most recent invocation that found no
    handler, and replays them once into the next non-null handler assigned.

    The locks only make each operation one atomic step, so every operation is
    modelled as a single sequential step. Handlers are opaque identities; a
    handler run is recorded as an `Invocation` (the slot's ghost `trace`). */
module Callbacks {
  import opened Common

  /** A non-null `std::function`, known only by its identity. */
  datatype Handler = Handler(id: nat)

  /** One run of a handler: which handler ran, and with which arguments. */
  datatype Invocation<A> = Invocation(handler: Handler, args: A)

  /** The observable state of a slot. `storing` is fixed for the life of a slot:
      it tells a `synchronized_stored_callback` from a plain `synchronized_callback`
      (the subclass overrides the virtual `set` and `call`). */
  datatype Slot<A> = Slot(storing: bool, callback: Option<Handler>, stored: Option<A>)

  /** What one step does: the slot afterwards and the handler runs it caused, in order. */
  datatype Effect<A> = Effect(slot: Slot<A>, fired: seq<Invocation<A>>)

  /** The slot invariant: a plain slot never holds pending arguments, and
      arguments are pending only while no handler is held. */
  predicate SlotInv<A>(s: Slot<A>)
  {
    && (!s.storing ==> s.stored.None?)
    && (s.callback.Some? ==> s.stored.None?)
  }

  /** `operator()(args...)`, i.e. `call`: the base call runs the handler if there
      is one; the stored variant saves the arguments when the base call found none. */
  function Invoke<A>(s: Slot<A>, args: A): (e: Effect<A>)
    // the handler is never changed by an invocation
    ensures e.slot.storing == s.storing && e.slot.callback == s.callback
    // with a handler: it runs exactly once, with these arguments, and nothing else changes
    ensures s.callback.Some? ==> e.fired == [Invocation(s.callback.value, args)] && e.slot == s
    // without a handler: nothing runs
    ensures s.callback.None? ==> e.fired == []
    // ... a stored slot keeps these arguments, overwriting any earlier pending ones
    ensures s.callback.None? && s.storing ==> e.slot.stored == Some(args)
    // ... and a plain slot changes nothing
    ensures s.callback.None? && !s.storing ==> e.slot == s
    ensures SlotInv(s) ==> SlotInv(e.slot)
  {
    match s.callback
    case Some(h) => Effect(s, [Invocation(h, args)])
    case None => if s.storing then Effect(s.(stored := Some(args)), []) else Effect(s, [])
  }

  /** The boolean that `operator()` returns. */
  function Reports<A>(s: Slot<A>): (ok: bool)
    // a stored slot always reports true, whether or not a handler ran
    ensures s.storing ==> ok
    // a plain slot reports whether its handler ran
    ensures !s.storing ==> (ok <==> s.callback.Some?)
  {
    s.storing || s.callback.Some?
  }

  /** `set(func)`: the base set replaces the handler; the stored variant then
      replays pending arguments into a non-null new handler and clears them. */
  function Assign<A>(s: Slot<A>, f: Option<Handler>): (e: Effect<A>)
    ensures e.slot.storing == s.storing && e.slot.callback == f
    // a replay happens exactly when a stored slot with pending arguments gets a non-null handler
    ensures e.fired != [] <==> s.storing && f.Some? && s.stored.Some?
    // the replay runs the new handler once, with the pending arguments, and clears them
    ensures e.fired != [] ==> e.fired == [Invocation(f.value, s.stored.value)] && e.slot.stored == None
    // otherwise pending arguments are kept (in particular by a null assignment)
    ensures e.fired == [] ==> e.slot.stored == s.stored
    ensures SlotInv(s) ==> SlotInv(e.slot)
  {
    var s' := s.(callback := f);
    if s.storing && f.Some? && s.stored.Some? then
      Effect(s'.(stored := None), [Invocation(f.value, s.stored.value)])
    else
      Effect(s', [])
  }

  /** `slot = func` written on a slot of its declared type. A plain slot uses the
      base `operator=(std::function)`, i.e. `Assign`. The stored variant declares
      a destructor and no assignment operator, so its implicitly declared copy
      assignment hides the base's: `func` is first converted to a temporary stored
      slot (built through the base, so nothing is pending in it), the base copy
      assignment passes the temporary's handler to this slot's `set`, and then
      `stored` is copied from the temporary, which empties it. */
  function Replace<A>(s: Slot<A>, f: Option<Handler>): (e: Effect<A>)
    ensures e.slot.storing == s.storing && e.slot.callback == f
    // the `set` inside still replays exactly when `Assign` would
    ensures e.fired != [] <==> s.storing && f.Some? && s.stored.Some?
    ensures e.fired != [] ==> e.fired == [Invocation(f.value, s.stored.value)]
    // a stored slot is left with nothing pending, whatever was assigned
    ensures s.storing ==> e.slot.stored.None?
    ensures !s.storing ==> e == Assign(s, f)
    ensures SlotInv(s) ==> SlotInv(e.slot)
  {
    var e := Assign(s, f);
    if s.storing then Effect(e.slot.(stored := None), e.fired) else e
  }

  /** On a stored slot with a missed call, `set(nullptr)` keeps the call for the
      next handler, while assigning null to the slot itself discards it. */
  lemma NullAssignmentDiscards<A>(s: Slot<A>, h: Handler)
    requires s.storing && s.stored.Some?
    ensures Assign(Assign(s, None).slot, Some(h)).fired == [Invocation(h, s.stored.value)]
    ensures Assign(Replace(s, None).slot, Some(h)).fired == []
  {
  }

  /** A step on one slot: a `set` (the base class's assignment from a function,
      as reached through a `synchronized_callback` reference) or a call. A stored
      slot assigned through its own type takes `Replace` instead. */
  datatype Op<A> = Assigning(f: Option<Handler>) | Invoking(args: A)

  function Step<A>(s: Slot<A>, op: Op<A>): Effect<A>
  {
    match op
    case Assigning(f) => Assign(s, f)
    case Invoking(args) => Invoke(s, args)
  }

  /** The effect of a sequence of steps: the final slot and every handler run, in order. */
  function Run<A>(s: Slot<A>, ops: seq<Op<A>>): (e: Effect<A>)
    decreases |ops|
    ensures e.slot.storing == s.storing
    // every step runs a handler at most once
    ensures |e.fired| <= |ops|
    // the slot invariant holds after any sequence of steps
    ensures SlotInv(s) ==> SlotInv(e.slot)
  {
    if ops == [] then Effect(s, [])
    else
      var first := Step(s, ops[0]);
      var rest := Run(first.slot, ops[1..]);
      Effect(rest.slot, first.fired + rest.fired)
  }

  function Invocations<A>(args: seq<A>): (ops: seq<Op<A>>)
    ensures |ops| == |args| && forall i :: 0 <= i < |args| ==> ops[i] == Invoking(args[i])
  {
    seq(|args|, i requires 0 <= i < |args| => Invoking(args[i]))
  }

  function Assignments<A>(fs: seq<Option<Handler>>): (ops: seq<Op<A>>)
    ensures |ops| == |fs| && forall i :: 0 <= i < |fs| ==> ops[i] == Assigning(fs[i])
  {
    seq(|fs|, i requires 0 <= i < |fs| => Assigning(fs[i]))
  }

  /** Running two sequences one after the other is running their concatenation. */
  lemma {:induction false} RunAppend<A>(s: Slot<A>, a: seq<Op<A>>, b: seq<Op<A>>)
    ensures Run(s, a + b) == Effect(Run(Run(s, a).slot, b).slot, Run(s, a).fired + Run(Run(s, a).slot, b).fired)
    decreases |a|
  {
    if a == [] {
      assert a + b == b;
    } else {
      var first := Step(s, a[0]);
      assert (a + b)[0] == a[0];
      assert (a + b)[1..] == a[1..] + b;
      RunAppend(first.slot, a[1..], b);
    }
  }

  /** Invoking a stored slot N times while it has no handler runs nothing and
      leaves only the N-th call's arguments pending. */
  lemma {:induction false} LastCallWins<A>(s: Slot<A>, args: seq<A>)
    requires s.storing && s.callback.None? && args != []
    ensures Run(s, Invocations(args)) == Effect(s.(stored := Some(args[|args| - 1])), [])
    decreases |args|
  {
    var ops := Invocations(args);
    var first := Step(s, ops[0]);
    if |args| > 1 {
      assert ops[1..] == Invocations(args[1..]);
      LastCallWins(first.slot, args[1..]);
    } else {
      assert ops[1..] == [];
    }
  }

  /** Attaching a handler after N missed calls runs it exactly once, with the
      N-th call's arguments, and leaves nothing pending. */
  lemma {:induction false} ReplayOnce<A>(s: Slot<A>, args: seq<A>, h: Handler)
    requires s.storing && s.callback.None? && args != []
    ensures Run(s, Invocations(args) + [Assigning(Some(h))])
         == Effect(Slot(true, Some(h), None), [Invocation(h, args[|args| - 1])])
  {
    RunAppend(s, Invocations(args), [Assigning(Some(h))]);
    LastCallWins(s, args);
  }

  /** With nothing pending, no sequence of assignments runs any handler, and
      nothing becomes pending. */
  lemma {:induction false} AssignmentsReplayNothing<A>(s: Slot<A>, fs: seq<Option<Handler>>)
    requires s.stored.None?
    ensures Run(s, Assignments(fs)).fired == [] && Run(s, Assignments(fs)).slot.stored.None?
    decreases |fs|
  {
    if fs != [] {
      var ops: seq<Op<A>> := Assignments(fs);
      assert ops[1..] == Assignments(fs[1..]);
      AssignmentsReplayNothing(Assign(s, fs[0]).slot, fs[1..]);
    }
  }

  /** The replay-once property end to end: after N missed calls, attaching a
      handler and then assigning any handlers at all runs exactly one handler,
      once, with the N-th call's arguments. */
  lemma ReplayExactlyOnce<A>(s: Slot<A>, args: seq<A>, h: Handler, later: seq<Option<Handler>>)
    requires s.storing && s.callback.None? && args != []
    ensures Run(s, Invocations(args) + [Assigning(Some(h))] + Assignments(later)).fired
         == [Invocation(h, args[|args| - 1])]
  {
    var before := Invocations(args) + [Assigning(Some(h))];
    RunAppend(s, before, Assignments(later));
    ReplayOnce(s, args, h);
    AssignmentsReplayNothing<A>(Slot(true, Some(h), None), later);
  }

  /** A plain slot without a handler drops every call: nothing runs, nothing is kept. */
  lemma {:induction false} PlainSlotDropsCalls<A>(s: Slot<A>, args: seq<A>)
    requires !s.storing && s.callback.None?
    ensures Run(s, Invocations(args)) == Effect(s, [])
    decreases |args|
  {
    if args != [] {
      var ops := Invocations(args);
      assert ops[1..] == Invocations(args[1..]);
      PlainSlotDropsCalls(s, args[1..]);
    }
  }

  /** While a handler is held, each call runs it once, in call order, and the
      slot (pending arguments included) is left as it was. */
  lemma {:induction false} HandledCallsRunInOrder<A>(s: Slot<A>, h: Handler, args: seq<A>)
    requires s.callback == Some(h)
    ensures Run(s, Invocations(args)).slot == s
    ensures |Run(s, Invocations(args)).fired| == |args|
    ensures forall i :: 0 <= i < |args| ==> Run(s, Invocations(args)).fired[i] == Invocation(h, args[i])
    decreases |args|
  {
    if args != [] {
      var ops := Invocations(args);
      assert ops[1..] == Invocations(args[1..]);
      HandledCallsRunInOrder(s, h, args[1..]);
    }
  }

  /** A `synchronized_callback` (storing == false) or a
      `synchronized_stored_callback` (storing == true). */
  class SyncCallback<A> {
    const storing: bool
    var callback: Option<Handler>
    var stored: Option<A>
    /** Every handler run caused by this slot, in order. */
    ghost var trace: seq<Invocation<A>>

    ghost predicate Valid()
      reads this
    {
      SlotInv(Model())
    }

    function Model(): Slot<A>
      reads this
    {
      Slot(storing, callback, stored)
    }

    /** The default constructor: no handler, nothing pending. */
    constructor (storing: bool)
      ensures Valid() && Model() == Slot(storing, None, None) && trace == []
    {
      this.storing := storing;
      callback := None;
      stored := None;
      trace := [];
    }

    /** Construction from a `std::function`. During base construction the
        virtual `set` is the base one, so nothing is replayed. */
    constructor FromFunction(storing: bool, f: Option<Handler>)
      ensures Valid() && Model() == Slot(storing, f, None) && trace == []
    {
      this.storing := storing;
      callback := f;
      stored := None;
      trace := [];
    }

    /** Copy construction: the new slot holds the source's handler; the source is unchanged. */
    constructor CopyOf(storing: bool, src: SyncCallback<A>)
      ensures Valid() && Model() == Slot(storing, src.callback, None) && trace == []
    {
      this.storing := storing;
      callback := src.callback;
      stored := None;
      trace := [];
    }

    /** Move construction: the new slot takes the source's handler; the source is left empty. */
    constructor MovedFrom(storing: bool, src: SyncCallback<A>)
      requires src.Valid()
      modifies src
      ensures Valid() && Model() == Slot(storing, old(src.callback), None) && trace == []
      ensures src.Valid() && src.Model() == old(src.Model()).(callback := None)
      ensures src.trace == old(src.trace)
    {
      this.storing := storing;
      callback := src.callback;
      stored := None;
      trace := [];
      new;
      src.callback := None;
    }

    /** `operator bool`: whether a handler is held. */
    function IsSet(): (held: bool)
      reads this
      ensures held <==> Model().callback.Some?
    {
      callback.Some?
    }

    /** `set(func)`, reached from `operator=(std::function)` (and from the
        destructor, with null). */
    method Set(f: Option<Handler>) returns (ghost fired: seq<Invocation<A>>)
      requires Valid()
      modifies this
      ensures Valid()
      ensures Model() == Assign(old(Model()), f).slot
      ensures fired == Assign(old(Model()), f).fired && trace == old(trace) + fired
    {
      callback := f;
      fired := [];
      if storing && f.Some? && stored.Some? {
        fired := [Invocation(f.value, stored.value)];
        trace := trace + fired;
        stored := None;
      }
    }

    /** `slot = func` on a slot of its declared type (see `Replace`): `set(func)`,
        then, for a stored slot, the copy of the temporary's empty `stored`. */
    method Rebind(f: Option<Handler>) returns (ghost fired: seq<Invocation<A>>)
      requires Valid()
      modifies this
      ensures Valid()
      ensures Model() == Replace(old(Model()), f).slot
      ensures fired == Replace(old(Model()), f).fired && trace == old(trace) + fired
    {
      fired := Set(f);
      if storing {
        stored := None;
      }
    }

    /** `operator()(args...)`, i.e. `call(args...)`. */
    method Call(args: A) returns (ok: bool, ghost fired: seq<Invocation<A>>)
      requires Valid()
      modifies this
      ensures Valid()
      ensures ok == Reports(old(Model()))
      ensures Model() == Invoke(old(Model()), args).slot
      ensures fired == Invoke(old(Model()), args).fired && trace == old(trace) + fired
    {
      var called := false;
      fired := [];
      if callback.Some? {
        fired := [Invocation(callback.value, args)];
        trace := trace + fired;
        called := true;
      }
      if storing {
        if !called {
          stored := Some(args);
        }
        ok := true;
      } else {
        ok := called;
      }
    }

    /** Move assignment: take the source's handler through this slot's `set`,
        leaving the source without one. Moving a slot into itself keeps its handler. */
    method MoveFrom(src: SyncCallback<A>) returns (ghost fired: seq<Invocation<A>>)
      requires Valid() && src.Valid()
      modifies this, src
      ensures Valid() && src.Valid()
      ensures callback == old(src.callback)
      ensures fired == Assign(old(Model()), old(src.callback)).fired
      ensures Model() == Assign(old(Model()), old(src.callback)).slot
      ensures trace == old(trace) + fired
      ensures src != this ==> src.Model() == old(src.Model()).(callback := None) && src.trace == old(src.trace)
    {
      var h := src.callback;
      src.callback := None;
      fired := Set(h);
    }

    /** Copy assignment: take the source's handler through this slot's `set`;
        the source is unchanged. */
    method CopyFrom(src: SyncCallback<A>) returns (ghost fired: seq<Invocation<A>>)
      requires Valid() && src.Valid()
      modifies this
      ensures Valid()
      ensures callback == old(src.callback)
      ensures fired == Assign(old(Model()), old(src.callback)).fired
      ensures Model() == Assign(old(Model()), old(src.callback)).slot
      ensures trace == old(trace) + fired
      ensures src != this ==> src.Model() == old(src.Model()) && src.trace == old(src.trace)
    {
      fired := Set(src.callback);
    }
  }
}
