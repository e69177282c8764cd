/**
 Session.Do (internal/cache/store.go): a hand-written singleflight.

 Callers are threads; each of Do's atomic pieces (the map under `mu`, the
 writes to the flight, wg.Done, the wake-up, the delete after a panic) is one
 step, and any interleaving of them is a run.
 */
module Singleflight {
  import opened Wrappers

  type Key = string
  type Thread = nat
  type FlightId = nat
  datatype Outcome = Value(v: int) | Error(e: int) | PanicError

  /** `done` is the wait group's counter having reached zero. */
  datatype Flight = Flight(key: Key, owner: Thread, result: Option<Outcome>, done: bool)

  datatype Caller =
    | Idle
    | Waiting(key: Key, f: FlightId)                 // found a flight, in wg.Wait
    | Executing(key: Key, f: FlightId)               // registered the flight, fn is running
    | Stored(key: Key, f: FlightId, panicking: bool) // the result is in the flight, wg.Done is next
    | Deleting(key: Key, f: FlightId)                // after a panic: wg.Done is done, delete is next
    | Returned(key: Key, r: Outcome, shared: bool)
    | Panicked(key: Key)

  /** `started` counts fn executions per key; `removed` counts the flights a panic removed. */
  datatype State = State(
    callers: map<Thread, Caller>,
    flights: map<Key, FlightId>,
    table: seq<Flight>,
    started: map<Key, nat>,
    removed: map<Key, nat>)

  const INIT := State(map[], map[], [], map[], map[])

  datatype Step =
    | Enter(t: Thread, key: Key)
    | Finish(t: Thread, r: Outcome)  // fn returns
    | Panic(t: Thread)               // fn panics, the deferred recover stores an error
    | Done(t: Thread)
    | Delete(t: Thread)
    | Wake(t: Thread)

  function CallerOf(s: State, t: Thread): Caller { if t in s.callers then s.callers[t] else Idle }
  function Count(m: map<Key, nat>, k: Key): nat { if k in m then m[k] else 0 }

  function Goto(s: State, t: Thread, c: Caller): State { s.(callers := s.callers[t := c]) }
  function SetFlight(s: State, f: FlightId, fl: Flight): State
    requires f < |s.table|
  {
    s.(table := s.table[f := fl])
  }

  predicate CanCall(c: Caller) { c.Idle? || c.Returned? || c.Panicked? }

  function DoEnter(s: State, t: Thread, key: Key): State {
    if !CanCall(CallerOf(s, t)) then s
    else if key in s.flights then Goto(s, t, Waiting(key, s.flights[key]))
    else Register(s, t, key)
  }

  /** A caller that finds no flight registers one and becomes its owner. */
  function Register(s: State, t: Thread, key: Key): State {
    Goto(s, t, Executing(key, |s.table|))
      .(table := s.table + [Flight(key, t, None, false)],
      flights := s.flights[key := |s.table|],
      started := s.started[key := Count(s.started, key) + 1])
  }

  function DoStore(s: State, t: Thread, r: Outcome, panicking: bool): State {
    var c := CallerOf(s, t);
    if c.Executing? && c.f < |s.table| then
      SetFlight(Goto(s, t, Stored(c.key, c.f, panicking)), c.f, s.table[c.f].(result := Some(r)))
    else s
  }

  function DoDone(s: State, t: Thread): State {
    var c := CallerOf(s, t);
    if c.Stored? && c.f < |s.table| && s.table[c.f].result.Some? then
      SetFlight(Goto(s, t, if c.panicking then Deleting(c.key, c.f)
                           else Returned(c.key, s.table[c.f].result.value, false)),
                c.f, s.table[c.f].(done := true))
    else s
  }

  /** delete(s.flights, key): by key, whatever flight is there. */
  function DoDelete(s: State, t: Thread): State {
    var c := CallerOf(s, t);
    if c.Deleting? then
      Goto(s, t, Panicked(c.key))
      .(flights := s.flights - {c.key}, removed := s.removed[c.key := Count(s.removed, c.key) + 1])
    else s
  }

  function DoWake(s: State, t: Thread): State {
    var c := CallerOf(s, t);
    if c.Waiting? && c.f < |s.table| && s.table[c.f].done && s.table[c.f].result.Some? then
      Goto(s, t, Returned(c.key, s.table[c.f].result.value, true))
    else s
  }

  function Next(s: State, step: Step): State {
    match step
    case Enter(t, key) => DoEnter(s, t, key)
    case Finish(t, r) => DoStore(s, t, r, false)
    case Panic(t) => DoStore(s, t, PanicError, true)
    case Done(t) => DoDone(s, t)
    case Delete(t) => DoDelete(s, t)
    case Wake(t) => DoWake(s, t)
  }

  function Run(s: State, steps: seq<Step>): State
    decreases |steps|
  {
    if steps == [] then s else Run(Next(s, steps[0]), steps[1..])
  }

  // ------------------------------------------------------------------
  // The invariant
  // ------------------------------------------------------------------

  predicate Owns(c: Caller, f: FlightId) { (c.Executing? || c.Stored? || c.Deleting?) && c.f == f }

  /** A caller inside Do is tied to a flight for its own key. */
  predicate CallerOk(s: State, t: Thread, c: Caller) {
    match c
    case Waiting(k, f) => f < |s.table| && s.table[f].key == k
    case Executing(k, f) =>
      && f < |s.table| && s.table[f] == Flight(k, t, None, false)
      && k in s.flights && s.flights[k] == f
    case Stored(k, f, panicking) =>
      && f < |s.table| && s.table[f].key == k && s.table[f].owner == t
      && s.table[f].result.Some? && !s.table[f].done
      && (panicking ==> s.table[f].result == Some(PanicError))
      && k in s.flights && s.flights[k] == f
    case Deleting(k, f) =>
      && f < |s.table| && s.table[f] == Flight(k, t, Some(PanicError), true)
      && k in s.flights && s.flights[k] == f
    case _ => true
  }

  /** A flight that is not done is in its owner's hands. */
  predicate FlightOk(s: State, f: FlightId)
    requires f < |s.table|
  {
    var fl := s.table[f];
    && (!fl.done ==>
          && fl.owner in s.callers
          && (s.callers[fl.owner] == Executing(fl.key, f) ||
              (s.callers[fl.owner].Stored? && s.callers[fl.owner].key == fl.key && s.callers[fl.owner].f == f)))
    && (fl.done ==> fl.result.Some?)
  }

  ghost predicate Inv(s: State) {
    && (forall t :: t in s.callers ==> CallerOk(s, t, s.callers[t]))
    && (forall f :: 0 <= f < |s.table| ==> FlightOk(s, f))
    && (forall k :: k in s.flights ==> s.flights[k] < |s.table| && s.table[s.flights[k]].key == k)
    && (forall k :: Count(s.started, k) == Count(s.removed, k) + if k in s.flights then 1 else 0)
  }

  lemma EnterInv(s: State, t: Thread, key: Key)
    requires Inv(s)
    ensures Inv(DoEnter(s, t, key))
  {
    if CanCall(CallerOf(s, t)) {
      if key in s.flights {
        JoinInv(s, t, key);
      } else {
        RegisterInv(s, t, key);
      }
    }
  }

  lemma JoinInv(s: State, t: Thread, key: Key)
    requires Inv(s) && CanCall(CallerOf(s, t)) && key in s.flights
    ensures Inv(Goto(s, t, Waiting(key, s.flights[key])))
  {
    var s' := Goto(s, t, Waiting(key, s.flights[key]));
    forall o | o in s'.callers
      ensures CallerOk(s', o, s'.callers[o])
    {
      assert o != t ==> CallerOk(s, o, s.callers[o]);
    }
    forall f | 0 <= f < |s'.table|
      ensures FlightOk(s', f)
    {
      assert FlightOk(s, f);
    }
  }

  lemma RegisterInv(s: State, t: Thread, key: Key)
    requires Inv(s) && CanCall(CallerOf(s, t)) && key !in s.flights
    ensures Inv(Register(s, t, key))
  {
    var s' := Register(s, t, key);
    forall o | o in s'.callers
      ensures CallerOk(s', o, s'.callers[o])
    {
      assert o != t ==> CallerOk(s, o, s.callers[o]);
    }
    forall f | 0 <= f < |s'.table|
      ensures FlightOk(s', f)
    {
      assert f < |s.table| ==> FlightOk(s, f);
    }
  }

  /** Changing one owner's flight leaves every other caller's flight alone. */
  lemma OwnFlightInv(s: State, t: Thread, c: Caller, f: FlightId, fl: Flight, s': State)
    requires Inv(s) && t in s.callers && Owns(s.callers[t], f) && f < |s.table|
    requires s' == s.(callers := s.callers[t := c], table := s.table[f := fl])
    requires fl.key == s.table[f].key && fl.owner == t && (fl.done ==> fl.result.Some?)
    requires CallerOk(s', t, c)
    requires !fl.done ==> c == Executing(fl.key, f) || (c.Stored? && c.key == fl.key && c.f == f)
    ensures Inv(s')
  {
    assert CallerOk(s, t, s.callers[t]);
    forall o | o in s'.callers
      ensures CallerOk(s', o, s'.callers[o])
    {
      assert CallerOk(s, o, s.callers[o]);
    }
    forall g | 0 <= g < |s'.table|
      ensures FlightOk(s', g)
    {
      assert FlightOk(s, g);
      assert g != f && s.table[g].owner == t ==> s.table[g].done;
    }
  }

  lemma StoreInv(s: State, t: Thread, r: Outcome, panicking: bool)
    requires Inv(s) && (panicking ==> r == PanicError)
    ensures Inv(DoStore(s, t, r, panicking))
  {
    var c, s' := CallerOf(s, t), DoStore(s, t, r, panicking);
    if s' != s {
      assert CallerOk(s, t, c);
      OwnFlightInv(s, t, Stored(c.key, c.f, panicking), c.f, s.table[c.f].(result := Some(r)), s');
    }
  }

  lemma DoneInv(s: State, t: Thread)
    requires Inv(s)
    ensures Inv(DoDone(s, t))
  {
    var c, s' := CallerOf(s, t), DoDone(s, t);
    if s' != s {
      assert CallerOk(s, t, c);
      OwnFlightInv(s, t, s'.callers[t], c.f, s.table[c.f].(done := true), s');
    }
  }

  lemma DeleteInv(s: State, t: Thread)
    requires Inv(s)
    ensures Inv(DoDelete(s, t))
  {
    var c, s' := CallerOf(s, t), DoDelete(s, t);
    if s' != s {
      assert CallerOk(s, t, c);
      forall o | o in s'.callers
        ensures CallerOk(s', o, s'.callers[o])
      {
        assert CallerOk(s, o, s.callers[o]);
      }
      forall f | 0 <= f < |s'.table|
        ensures FlightOk(s', f)
      {
        assert FlightOk(s, f);
      }
    }
  }

  lemma WakeInv(s: State, t: Thread)
    requires Inv(s)
    ensures Inv(DoWake(s, t))
  {
    var s' := DoWake(s, t);
    if s' != s {
      forall o | o in s'.callers
        ensures CallerOk(s', o, s'.callers[o])
      {
        assert CallerOk(s, o, s.callers[o]);
      }
      forall f | 0 <= f < |s'.table|
        ensures FlightOk(s', f)
      {
        assert FlightOk(s, f);
      }
    }
  }

  lemma InvStep(s: State, step: Step)
    requires Inv(s)
    ensures Inv(Next(s, step))
  {
    match step
    case Enter(t, key) => EnterInv(s, t, key);
    case Finish(t, r) => StoreInv(s, t, r, false);
    case Panic(t) => StoreInv(s, t, PanicError, true);
    case Done(t) => DoneInv(s, t);
    case Delete(t) => DeleteInv(s, t);
    case Wake(t) => WakeInv(s, t);
  }

  lemma {:induction false} InvRun(s: State, steps: seq<Step>)
    requires Inv(s)
    ensures Inv(Run(s, steps))
    decreases |steps|
  {
    if steps != [] {
      InvStep(s, steps[0]);
      InvRun(Next(s, steps[0]), steps[1..]);
    }
  }

  // ------------------------------------------------------------------
  // What callers get
  // ------------------------------------------------------------------

  /** At most one execution per key is in flight, over every interleaving. */
  lemma AtMostOneInFlight(steps: seq<Step>, t: Thread, u: Thread)
    ensures var s := Run(INIT, steps);
            CallerOf(s, t).Executing? && CallerOf(s, u).Executing? && CallerOf(s, t).key == CallerOf(s, u).key ==>
              t == u
  {
    InvRun(INIT, steps);
    var s := Run(INIT, steps);
    assert t in s.callers ==> CallerOk(s, t, s.callers[t]);
    assert u in s.callers ==> CallerOk(s, u, s.callers[u]);
  }

  predicate NoPanic(steps: seq<Step>) { forall i :: 0 <= i < |steps| ==> !steps[i].Panic? }

  predicate Calm(s: State) {
    && s.removed == map[]
    && forall t :: t in s.callers ==> !s.callers[t].Deleting? && (s.callers[t].Stored? ==> !s.callers[t].panicking)
  }

  lemma CalmStep(s: State, step: Step)
    requires Calm(s) && !step.Panic?
    ensures Calm(Next(s, step))
  {
  }

  lemma {:induction false} CalmRun(s: State, steps: seq<Step>)
    requires Calm(s) && NoPanic(steps)
    ensures Calm(Run(s, steps))
    decreases |steps|
  {
    if steps != [] {
      assert !steps[0].Panic?;
      CalmStep(s, steps[0]);
      CalmRun(Next(s, steps[0]), steps[1..]);
    }
  }

  /** Somewhere in the run a caller that was outside Do called it for `key`. */
  predicate Asked(s: State, steps: seq<Step>, key: Key)
    decreases |steps|
  {
    steps != [] &&
    ((steps[0].Enter? && steps[0].key == key && CanCall(CallerOf(s, steps[0].t)))
     || Asked(Next(s, steps[0]), steps[1..], key))
  }

  lemma CalmFlights(s: State, step: Step, key: Key)
    requires Calm(s) && !step.Panic?
    ensures key in Next(s, step).flights <==>
            key in s.flights || (step.Enter? && step.key == key && CanCall(CallerOf(s, step.t)))
  {
  }

  /** Without a panic a key has a flight exactly from the first call for it on. */
  lemma {:induction false} FlightIffAsked(s: State, steps: seq<Step>, key: Key)
    requires Calm(s) && NoPanic(steps)
    ensures key in Run(s, steps).flights <==> key in s.flights || Asked(s, steps, key)
    decreases |steps|
  {
    if steps != [] {
      assert !steps[0].Panic?;
      CalmStep(s, steps[0]);
      CalmFlights(s, steps[0], key);
      FlightIffAsked(Next(s, steps[0]), steps[1..], key);
    }
  }

  /** While fn never panics it runs once for every key that Do was ever called for, and never again. */
  lemma OncePerKey(steps: seq<Step>, key: Key)
    requires NoPanic(steps)
    ensures Count(Run(INIT, steps).started, key) == if Asked(INIT, steps, key) then 1 else 0
  {
    InvRun(INIT, steps);
    CalmRun(INIT, steps);
    FlightIffAsked(INIT, steps, key);
  }

  /** In general, a key runs again only after a panic removed its flight. */
  lemma RunsAgainOnlyAfterPanic(steps: seq<Step>, key: Key)
    ensures var s := Run(INIT, steps);
            Count(s.removed, key) <= Count(s.started, key) <= Count(s.removed, key) + 1
  {
    InvRun(INIT, steps);
  }

  /** Without a panic, whoever has returned for a key has the memoised flight's result. */
  ghost predicate Agreed(s: State) {
    && Inv(s) && Calm(s)
    && (forall t :: t in s.callers && s.callers[t].Returned? ==>
          var c := s.callers[t];
          && c.key in s.flights
          && s.table[s.flights[c.key]].result == Some(c.r)
          && s.table[s.flights[c.key]].done)
    && (forall t :: t in s.callers && s.callers[t].Waiting? ==>
          var c := s.callers[t];
          c.key in s.flights && s.flights[c.key] == c.f)
  }

  /** A caller that moves on to wait for, or to return with, its key's own flight. */
  lemma AgreedMove(s: State, s': State, t: Thread, c: Caller)
    requires Agreed(s) && Inv(s') && Calm(s') && s'.callers == s.callers[t := c]
    requires forall k :: k in s.flights ==> k in s'.flights && s'.flights[k] == s.flights[k]
    requires |s.table| <= |s'.table|
    requires forall f :: 0 <= f < |s.table| && s.table[f].done ==> s'.table[f] == s.table[f]
    requires c.Returned? ==>
               && c.key in s'.flights
               && s'.table[s'.flights[c.key]].result == Some(c.r)
               && s'.table[s'.flights[c.key]].done
    requires c.Waiting? ==> c.key in s'.flights && s'.flights[c.key] == c.f
    ensures Agreed(s')
  {
    forall o | o in s'.callers && s'.callers[o].Returned?
      ensures var d := s'.callers[o];
              && d.key in s'.flights
              && s'.table[s'.flights[d.key]].result == Some(d.r)
              && s'.table[s'.flights[d.key]].done
    {
      assert o != t ==> s.table[s.flights[s.callers[o].key]].done;
    }
  }

  lemma AgreedStep(s: State, step: Step)
    requires Agreed(s) && !step.Panic?
    ensures Agreed(Next(s, step))
  {
    InvStep(s, step);
    var s' := Next(s, step);
    CalmStep(s, step);
    if s' != s {
      assert step.t in s.callers ==> CallerOk(s, step.t, s.callers[step.t]);
      AgreedMove(s, s', step.t, s'.callers[step.t]);
    }
  }

  lemma {:induction false} AgreedRun(s: State, steps: seq<Step>)
    requires Agreed(s) && NoPanic(steps)
    ensures Agreed(Run(s, steps))
    decreases |steps|
  {
    if steps != [] {
      assert !steps[0].Panic?;
      AgreedStep(s, steps[0]);
      AgreedRun(Next(s, steps[0]), steps[1..]);
    }
  }

  /** Without a panic, all callers of one key get one and the same result. */
  lemma OneResult(steps: seq<Step>, t: Thread, u: Thread)
    requires NoPanic(steps)
    ensures var s := Run(INIT, steps);
            CallerOf(s, t).Returned? && CallerOf(s, u).Returned? && CallerOf(s, t).key == CallerOf(s, u).key ==>
              CallerOf(s, t).r == CallerOf(s, u).r
  {
    AgreedRun(INIT, steps);
  }

  // ------------------------------------------------------------------
  // Exactly one unshared result
  // ------------------------------------------------------------------

  /** The calls of Do for `key` that came back (or will come back) unshared. */
  function Unshared(s: State, steps: seq<Step>, key: Key): nat
    decreases |steps|
  {
    if steps == [] then 0 else UnsharedAt(s, steps[0], key) + Unshared(Next(s, steps[0]), steps[1..], key)
  }

  /** 1 if the step returns from a call of Do for `key` with shared=false. */
  function UnsharedAt(s: State, step: Step, key: Key): nat {
    var c := CallerOf(Next(s, step), step.t);
    if c.Returned? && !c.shared && c.key == key && c != CallerOf(s, step.t) then 1 else 0
  }

  /** What a key still owes: 1 while its flight is in its owner's hands. */
  function Owed(s: State, key: Key): nat
    requires key in s.flights ==> s.flights[key] < |s.table|
  {
    if key in s.flights && !s.table[s.flights[key]].done then 1 else 0
  }

  lemma {:induction false} UnsharedCount(s: State, steps: seq<Step>, key: Key)
    requires Inv(s) && Calm(s) && NoPanic(steps)
    ensures Inv(Run(s, steps))
    ensures Unshared(s, steps, key) + Owed(Run(s, steps), key) + Count(s.started, key) ==
            Owed(s, key) + Count(Run(s, steps).started, key)
    decreases |steps|
  {
    if steps != [] {
      assert !steps[0].Panic?;
      InvStep(s, steps[0]);
      OwedStep(s, steps[0], key);
      CalmStep(s, steps[0]);
      UnsharedCount(Next(s, steps[0]), steps[1..], key);
    }
  }

  lemma OwedStep(s: State, step: Step, key: Key)
    requires Inv(s) && Calm(s) && !step.Panic? && Inv(Next(s, step))
    ensures UnsharedAt(s, step, key) + Owed(Next(s, step), key) + Count(s.started, key) ==
            Owed(s, key) + Count(Next(s, step).started, key)
  {
    if step.Done? {
      OwedDone(s, step.t, key);
    } else if step.Enter? {
      OwedEnter(s, step.t, step.key, key);
    } else {
      assert step.t in s.callers ==> CallerOk(s, step.t, s.callers[step.t]);
    }
  }

  lemma OwedDone(s: State, t: Thread, key: Key)
    requires Inv(s) && Calm(s) && Inv(DoDone(s, t))
    ensures UnsharedAt(s, Done(t), key) + Owed(DoDone(s, t), key) == Owed(s, key)
    ensures DoDone(s, t).started == s.started
  {
    assert t in s.callers ==> CallerOk(s, t, s.callers[t]);
  }

  lemma OwedEnter(s: State, t: Thread, k: Key, key: Key)
    requires Inv(s) && Inv(DoEnter(s, t, k))
    ensures UnsharedAt(s, Enter(t, k), key) == 0
    ensures Owed(DoEnter(s, t, k), key) + Count(s.started, key) == Owed(s, key) + Count(DoEnter(s, t, k).started, key)
  {
  }

  /**
   Exactly one caller gets shared=false: in a run without panics, the number of
   unshared returns for a key is the number of its executions (0 or 1), less the
   one still running.
   */
  lemma OneUnshared(steps: seq<Step>, key: Key)
    requires NoPanic(steps)
    ensures var s := Run(INIT, steps);
            && Inv(s)
            && Unshared(INIT, steps, key) + Owed(s, key) == if Asked(INIT, steps, key) then 1 else 0
  {
    UnsharedCount(INIT, steps, key);
    OncePerKey(steps, key);
    InvRun(INIT, steps);
  }

  // ------------------------------------------------------------------
  // Waiters are released
  // ------------------------------------------------------------------

  /**
   No waiter is stuck: either its flight is done and it can wake, or its flight's
   owner can move (fn is still running, or wg.Done is the owner's next step).
   In particular a panic, whose owner goes on to wg.Done, releases every waiter.
   */
  lemma WaiterReleased(steps: seq<Step>, t: Thread)
    ensures var s := Run(INIT, steps);
            var c := CallerOf(s, t);
            c.Waiting? ==>
              && c.f < |s.table|
              && var owner := CallerOf(s, s.table[c.f].owner);
              || CallerOf(Next(s, Wake(t)), t).Returned?
              || (owner.Executing? && owner.f == c.f)
              || (owner.Stored? && owner.f == c.f &&
                  CallerOf(Next(Next(s, Done(s.table[c.f].owner)), Wake(t)), t).Returned?)
  {
    InvRun(INIT, steps);
    var s := Run(INIT, steps);
    if CallerOf(s, t).Waiting? {
      assert CallerOk(s, t, s.callers[t]);
      assert FlightOk(s, s.callers[t].f);
      var o := s.table[s.callers[t].f].owner;
      assert o in s.callers ==> CallerOk(s, o, s.callers[o]);
    }
  }

  /** After a panic the owner removes its own flight, and until then the key cannot run again. */
  lemma RemovesOwnFlight(steps: seq<Step>, t: Thread, u: Thread)
    ensures var s := Run(INIT, steps);
            var c := CallerOf(s, t);
            c.Deleting? ==>
              && c.key in s.flights && s.flights[c.key] == c.f
              && c.f < |s.table| && s.table[c.f].owner == t
              && Next(s, Enter(u, c.key)).started == s.started
  {
    InvRun(INIT, steps);
    var s := Run(INIT, steps);
    assert t in s.callers ==> CallerOk(s, t, s.callers[t]);
  }

  // ------------------------------------------------------------------
  // The result is fn's
  // ------------------------------------------------------------------

  /** In this step fn, called by `u` for the key, ends with the outcome; a panic counts as its own error. */
  predicate Ends(s: State, step: Step, u: Thread, key: Key, r: Outcome) {
    && CallerOf(s, u).Executing? && CallerOf(s, u).key == key
    && (step == Finish(u, r) || (step == Panic(u) && r == PanicError))
  }

  ghost predicate EndedAt(steps: seq<Step>, i: int, u: Thread, key: Key, r: Outcome) {
    0 <= i < |steps| && Ends(Run(INIT, steps[..i]), steps[i], u, key, r)
  }

  ghost predicate Ended(steps: seq<Step>, u: Thread, key: Key, r: Outcome) { exists i :: EndedAt(steps, i, u, key, r) }

  lemma EndedStays(steps: seq<Step>, step: Step, u: Thread, key: Key, r: Outcome)
    requires Ended(steps, u, key, r) || Ends(Run(INIT, steps), step, u, key, r)
    ensures Ended(steps + [step], u, key, r)
  {
    if Ended(steps, u, key, r) {
      var i :| EndedAt(steps, i, u, key, r);
      assert (steps + [step])[..i] == steps[..i];
      assert EndedAt(steps + [step], i, u, key, r);
    } else {
      assert (steps + [step])[..|steps|] == steps;
      assert EndedAt(steps + [step], |steps|, u, key, r);
    }
  }

  /** What a flight holds came from its owner's fn. */
  ghost predicate FlightFrom(steps: seq<Step>, fl: Flight) {
    fl.result.Some? ==> Ended(steps, fl.owner, fl.key, fl.result.value)
  }

  /** What a caller got came from some fn for its key, and what it did not share from its own. */
  ghost predicate CallerFrom(steps: seq<Step>, t: Thread, c: Caller) {
    c.Returned? ==>
      && (exists u :: Ended(steps, u, c.key, c.r))
      && (!c.shared ==> Ended(steps, t, c.key, c.r))
  }

  ghost predicate AllFrom(steps: seq<Step>, s: State) {
    && (forall f :: 0 <= f < |s.table| ==> FlightFrom(steps, s.table[f]))
    && (forall t :: t in s.callers ==> CallerFrom(steps, t, s.callers[t]))
  }

  lemma {:induction false} RunSnoc(s: State, steps: seq<Step>, step: Step)
    ensures Run(s, steps + [step]) == Next(Run(s, steps), step)
    decreases |steps|
  {
    if steps == [] {
      assert [] + [step] == [step] && [step][1..] == [];
    } else {
      assert (steps + [step])[1..] == steps[1..] + [step];
      RunSnoc(Next(s, steps[0]), steps[1..], step);
    }
  }

  lemma FromStays(steps: seq<Step>, step: Step, t: Thread, c: Caller)
    requires CallerFrom(steps, t, c)
    ensures CallerFrom(steps + [step], t, c)
  {
    if c.Returned? {
      var u :| Ended(steps, u, c.key, c.r);
      EndedStays(steps, step, u, c.key, c.r);
      if !c.shared {
        EndedStays(steps, step, t, c.key, c.r);
      }
    }
  }

  lemma FlightStep(steps: seq<Step>, step: Step, f: FlightId)
    requires var s := Run(INIT, steps); Inv(s) && AllFrom(steps, s) && f < |Next(s, step).table|
    ensures FlightFrom(steps + [step], Next(Run(INIT, steps), step).table[f])
  {
    var s := Run(INIT, steps);
    var fl := Next(s, step).table[f];
    if f < |s.table| {
      assert FlightFrom(steps, s.table[f]);
      if fl.result == s.table[f].result && fl.result.Some? {
        EndedStays(steps, step, fl.owner, fl.key, fl.result.value);
      } else if fl.result.Some? {
        assert CallerOk(s, step.t, s.callers[step.t]);
        EndedStays(steps, step, fl.owner, fl.key, fl.result.value);
      }
    }
  }

  lemma CallerStep(steps: seq<Step>, step: Step, t: Thread)
    requires var s := Run(INIT, steps); Inv(s) && AllFrom(steps, s) && t in Next(s, step).callers
    ensures CallerFrom(steps + [step], t, Next(Run(INIT, steps), step).callers[t])
  {
    var s := Run(INIT, steps);
    var c := Next(s, step).callers[t];
    if t in s.callers && c == s.callers[t] {
      FromStays(steps, step, t, c);
    } else if c.Returned? {
      assert CallerOk(s, t, s.callers[t]);
      var fl := s.table[s.callers[t].f];
      assert FlightFrom(steps, fl);
      EndedStays(steps, step, fl.owner, fl.key, fl.result.value);
    }
  }

  lemma {:induction false} FromRun(steps: seq<Step>)
    ensures AllFrom(steps, Run(INIT, steps))
    decreases |steps|
  {
    if steps != [] {
      var before, step := steps[..|steps| - 1], steps[|steps| - 1];
      assert steps == before + [step];
      FromRun(before);
      InvRun(INIT, before);
      RunSnoc(INIT, before, step);
      forall f: nat | f < |Run(INIT, steps).table|
        ensures FlightFrom(steps, Run(INIT, steps).table[f])
      {
        FlightStep(before, step, f);
      }
      forall t | t in Run(INIT, steps).callers
        ensures CallerFrom(steps, t, Run(INIT, steps).callers[t])
      {
        CallerStep(before, step, t);
      }
    }
  }

  /**
   In every run, what Do returned to a caller is what fn ended with for its key: some
   caller's fn, and with shared=false the caller's own.
   */
  lemma ResultIsFn(steps: seq<Step>, t: Thread)
    ensures var c := CallerOf(Run(INIT, steps), t);
            c.Returned? ==>
              && (exists u :: Ended(steps, u, c.key, c.r))
              && (!c.shared ==> Ended(steps, t, c.key, c.r))
  {
    FromRun(steps);
    var s := Run(INIT, steps);
    assert t in s.callers ==> CallerFrom(steps, t, s.callers[t]);
  }

  /** And it gets there: fn's outcome, once stored, is what the owner returns and what every waiter wakes up with. */
  lemma ResultArrives(steps: seq<Step>, t: Thread, w: Thread, r: Outcome)
    requires CallerOf(Run(INIT, steps), t).Executing?
    ensures var s := Run(INIT, steps);
            var c := CallerOf(s, t);
            var d := Next(Next(s, Finish(t, r)), Done(t));
            && CallerOf(d, t) == Returned(c.key, r, false)
            && (CallerOf(s, w) == Waiting(c.key, c.f) ==> CallerOf(Next(d, Wake(w)), w) == Returned(c.key, r, true))
  {
    InvRun(INIT, steps);
    assert CallerOk(Run(INIT, steps), t, CallerOf(Run(INIT, steps), t));
    OwnerReturns(Run(INIT, steps), t, w, r);
  }

  lemma OwnerReturns(s: State, t: Thread, w: Thread, r: Outcome)
    requires var c := CallerOf(s, t); c.Executing? && c.f < |s.table|
    ensures var c := CallerOf(s, t);
            var d := Next(Next(s, Finish(t, r)), Done(t));
            && CallerOf(d, t) == Returned(c.key, r, false)
            && (CallerOf(s, w) == Waiting(c.key, c.f) ==> CallerOf(Next(d, Wake(w)), w) == Returned(c.key, r, true))
  {
    StoreDone(s, t, r, false);
    var c := CallerOf(s, t);
    var d := Next(Next(s, Finish(t, r)), Done(t));
    if CallerOf(s, w) == Waiting(c.key, c.f) {
      WakesWith(d, w, c.key, c.f, r);
    }
  }

  /** Storing the outcome and wg.Done. */
  lemma StoreDone(s: State, t: Thread, r: Outcome, panicking: bool)
    requires var c := CallerOf(s, t); c.Executing? && c.f < |s.table|
    ensures var c := CallerOf(s, t);
            DoDone(DoStore(s, t, r, panicking), t) ==
            s.(callers := s.callers[t := if panicking then Deleting(c.key, c.f) else Returned(c.key, r, false)],
            table := s.table[c.f := s.table[c.f].(result := Some(r), done := true)])
  {
    var c := CallerOf(s, t);
    var fl := s.table[c.f].(result := Some(r));
    assert s.table[c.f := fl][c.f := fl.(done := true)] == s.table[c.f := fl.(done := true)];
  }

  lemma WakesWith(s: State, w: Thread, key: Key, f: FlightId, r: Outcome)
    requires CallerOf(s, w) == Waiting(key, f) && f < |s.table| && s.table[f].done && s.table[f].result == Some(r)
    ensures CallerOf(Next(s, Wake(w)), w) == Returned(key, r, true)
  {
  }

  /** A panic reaches the waiters as an error, the owner does not return, and the key is free for the next call. */
  lemma PanicArrives(steps: seq<Step>, t: Thread, w: Thread)
    requires CallerOf(Run(INIT, steps), t).Executing?
    ensures var s := Run(INIT, steps);
            var c := CallerOf(s, t);
            var d := Next(Next(Next(s, Panic(t)), Done(t)), Delete(t));
            && CallerOf(d, t) == Panicked(c.key) && c.key !in d.flights
            && (CallerOf(s, w) == Waiting(c.key, c.f) ==>
                  CallerOf(Next(d, Wake(w)), w) == Returned(c.key, PanicError, true))
  {
    InvRun(INIT, steps);
    var s := Run(INIT, steps);
    var c := CallerOf(s, t);
    assert CallerOk(s, t, c);
    StoreDone(s, t, PanicError, true);
    var d := Next(Next(Next(s, Panic(t)), Done(t)), Delete(t));
    if CallerOf(s, w) == Waiting(c.key, c.f) {
      WakesWith(d, w, c.key, c.f, PanicError);
    }
  }
}
