/**
 acquireLock and release (internal/cache/store.go): a one-token channel per
 process in front of an advisory file lock, for one lock path.

 Any number of goroutines in any number of processes run the two, step by step;
 each wait may time out, each system call may fail, and a process may die at any
 point.  The channel is a bag that holds at most one anonymous token: `full` says
 which processes' channels hold one.  Taking a token from an empty channel would
 block forever, so that it never happens is part of what is proved.
 */
module ScopeLock {
  import opened Wrappers

  datatype Thread = Thread(process: nat, id: nat)

  datatype Phase =
    | Outside                // no attempt, or the attempt ended without the lock
    | Queued                 // select on the channel or the deadline
    | Opening                // the token is in the channel, the file not open yet
    | Polling                // the file is open, lockFile is retried every 2 ms
    | Holding                // acquireLock returned a fileLock
    | Released               // release has run once; l.f is nil

  /** `flock` is the thread whose open file has the lock; `supported` is false where flock does not exist. */
  datatype State = State(
    supported: bool,
    phases: map<Thread, Phase>,
    full: set<nat>,
    flock: Option<Thread>)

  datatype Step =
    | Start(t: Thread)
    | Enqueue(t: Thread)
    | OpenFile(t: Thread, ok: bool)
    | TryLock(t: Thread, failed: bool)
    | Deadline(t: Thread)
    | Release(t: Thread)
    | Die(process: nat)

  function Init(supported: bool): State { State(supported, map[], {}, None) }

  function PhaseOf(s: State, t: Thread): Phase { if t in s.phases then s.phases[t] else Outside }

  /** Between putting the token in and taking it out. */
  predicate InSection(s: State, t: Thread) {
    var ph := PhaseOf(s, t);
    ph.Opening? || ph.Polling? || ph.Holding?
  }

  function Goto(s: State, t: Thread, ph: Phase): State { s.(phases := s.phases[t := ph]) }

  /** Receive from the channel. */
  function TakeToken(s: State, t: Thread): State { s.(full := s.full - {t.process}) }

  /** Unlock and close the file. */
  function CloseFile(s: State, t: Thread): State { if s.flock == Some(t) then s.(flock := None) else s }

  function Next(s: State, step: Step): State {
    match step
    case Start(t) =>
      if PhaseOf(s, t).Outside? || PhaseOf(s, t).Released? then Goto(s, t, Queued) else s
    case Enqueue(t) =>
      if PhaseOf(s, t).Queued? && t.process !in s.full then
        Goto(s, t, Opening).(full := s.full + {t.process})
      else s
    case OpenFile(t, ok) =>
      if !PhaseOf(s, t).Opening? then s
      else if ok then Goto(s, t, Polling)
      else TakeToken(Goto(s, t, Outside), t)
    case TryLock(t, failed) =>
      if !PhaseOf(s, t).Polling? then s
      else if failed then TakeToken(CloseFile(Goto(s, t, Outside), t), t)
      else if !s.supported then Goto(s, t, Holding)
      else if s.flock.None? then Goto(s, t, Holding).(flock := Some(t))
      else s
    case Deadline(t) =>
      if PhaseOf(s, t).Queued? then Goto(s, t, Outside)
      else if PhaseOf(s, t).Polling? then TakeToken(CloseFile(Goto(s, t, Outside), t), t)
      else s
    case Release(t) =>
      // The second call finds l.f nil and does nothing.
      if PhaseOf(s, t).Holding? then TakeToken(CloseFile(Goto(s, t, Released), t), t) else s
    case Die(process) =>
      s.(phases := map t | t in s.phases && t.process != process :: s.phases[t],
      full := s.full - {process},
      flock := if s.flock.Some? && s.flock.value.process == process then None else s.flock)
  }

  function Run(s: State, steps: seq<Step>): State
    decreases |steps|
  {
    if steps == [] then s else Run(Next(s, steps[0]), steps[1..])
  }

  /** One token per process, put in by the one thread of it that is in the section. */
  ghost predicate OneToken(s: State) {
    && (forall t :: InSection(s, t) ==> t.process in s.full)
    && (forall t, u :: InSection(s, t) && InSection(s, u) && t.process == u.process ==> t == u)
    && (forall p :: p in s.full ==> exists t: Thread :: t.process == p && InSection(s, t))
  }

  /** Where flock exists, holding means having it. */
  ghost predicate FlockHeld(s: State) {
    && (s.flock.Some? ==> PhaseOf(s, s.flock.value).Holding?)
    && (s.supported ==> forall t :: PhaseOf(s, t).Holding? ==> s.flock == Some(t))
  }

  /** A step that keeps who is in the section keeps the tokens. */
  lemma SameSection(s: State, s': State)
    requires OneToken(s) && s'.full == s.full
    requires forall t :: InSection(s', t) <==> InSection(s, t)
    ensures OneToken(s')
  {
    forall p | p in s'.full
      ensures exists t: Thread :: t.process == p && InSection(s', t)
    {
      var t: Thread :| t.process == p && InSection(s, t);
      assert InSection(s', t);
    }
  }

  lemma Leave(s: State, s': State, t: Thread)
    requires OneToken(s) && InSection(s, t) && s'.full == s.full - {t.process}
    requires forall u :: InSection(s', u) <==> InSection(s, u) && u != t
    ensures OneToken(s')
  {
    forall p | p in s'.full
      ensures exists u: Thread :: u.process == p && InSection(s', u)
    {
      var u: Thread :| u.process == p && InSection(s, u);
      assert InSection(s', u);
    }
  }

  lemma Enter(s: State, s': State, t: Thread)
    requires OneToken(s) && t.process !in s.full && s'.full == s.full + {t.process}
    requires forall u :: InSection(s', u) <==> InSection(s, u) || u == t
    ensures OneToken(s')
  {
    forall p | p in s'.full
      ensures exists u: Thread :: u.process == p && InSection(s', u)
    {
      if p == t.process {
        assert InSection(s', t);
      } else {
        var u: Thread :| u.process == p && InSection(s, u);
        assert InSection(s', u);
      }
    }
  }

  lemma Gone(s: State, s': State, process: nat)
    requires OneToken(s) && s'.full == s.full - {process}
    requires forall u :: InSection(s', u) <==> InSection(s, u) && u.process != process
    ensures OneToken(s')
  {
    forall p | p in s'.full
      ensures exists u: Thread :: u.process == p && InSection(s', u)
    {
      var u: Thread :| u.process == p && InSection(s, u);
      assert InSection(s', u);
    }
  }

  lemma OneTokenStep(s: State, step: Step)
    requires OneToken(s)
    ensures OneToken(Next(s, step))
  {
    var s' := Next(s, step);
    if step.Die? {
      Gone(s, s', step.process);
    } else {
      assert forall u :: u != step.t ==> PhaseOf(s', u) == PhaseOf(s, u);
      if InSection(s, step.t) == InSection(s', step.t) {
        SameSection(s, s');
      } else if InSection(s, step.t) {
        Leave(s, s', step.t);
      } else {
        Enter(s, s', step.t);
      }
    }
  }

  lemma FlockStep(s: State, step: Step)
    requires FlockHeld(s)
    ensures FlockHeld(Next(s, step))
  {
    var s' := Next(s, step);
    assert !step.Die? ==> forall u :: u != step.t ==> PhaseOf(s', u) == PhaseOf(s, u);
  }

  lemma {:induction false} LockInvariant(s: State, steps: seq<Step>)
    requires OneToken(s) && FlockHeld(s)
    ensures OneToken(Run(s, steps)) && FlockHeld(Run(s, steps)) && Run(s, steps).supported == s.supported
    decreases |steps|
  {
    if steps != [] {
      OneTokenStep(s, steps[0]);
      FlockStep(s, steps[0]);
      LockInvariant(Next(s, steps[0]), steps[1..]);
    }
  }

  /**
   Mutual exclusion.  Two threads never hold the lock together where flock works;
   without flock, two threads of one process still never do.
   */
  lemma Exclusive(supported: bool, steps: seq<Step>, t: Thread, u: Thread)
    ensures var s := Run(Init(supported), steps);
            PhaseOf(s, t).Holding? && PhaseOf(s, u).Holding? && (supported || t.process == u.process) ==> t == u
  {
    LockInvariant(Init(supported), steps);
    var s := Run(Init(supported), steps);
    assert PhaseOf(s, t).Holding? ==> InSection(s, t);
    assert PhaseOf(s, u).Holding? ==> InSection(s, u);
  }

  /**
   The token goes back exactly once on every exit: a process's channel holds a
   token if and only if one of its threads is between putting it in and taking it
   out, and there is never more than one such thread.  So a receive never blocks,
   and when every thread is done the channel is free again.
   */
  lemma TokenReturned(supported: bool, steps: seq<Step>, process: nat)
    ensures var s := Run(Init(supported), steps);
            && (process in s.full <==> exists t: Thread :: t.process == process && InSection(s, t))
            && (forall t, u :: InSection(s, t) && InSection(s, u) && t.process == u.process ==> t == u)
  {
    LockInvariant(Init(supported), steps);
  }

  /** Calling release again never takes another thread's token or lock. */
  lemma ReleaseTwice(s: State, t: Thread)
    requires PhaseOf(s, t).Holding?
    ensures Next(Next(s, Release(t)), Release(t)) == Next(s, Release(t))
    ensures forall between: seq<Step> ::
              (forall i :: 0 <= i < |between| ==> NotBy(between[i], t)) ==>
                var s' := Run(Next(s, Release(t)), between);
                Next(s', Release(t)) == s'
  {
    forall between: seq<Step> | forall i :: 0 <= i < |between| ==> NotBy(between[i], t)
      ensures var s' := Run(Next(s, Release(t)), between);
              Next(s', Release(t)) == s'
    {
      OthersOnly(Next(s, Release(t)), between, t);
    }
  }

  predicate NotBy(step: Step, t: Thread) { if step.Die? then step.process != t.process else step.t != t }

  lemma {:induction false} OthersOnly(s: State, steps: seq<Step>, t: Thread)
    requires forall i :: 0 <= i < |steps| ==> NotBy(steps[i], t)
    ensures PhaseOf(Run(s, steps), t) == PhaseOf(s, t)
    decreases |steps|
  {
    if steps != [] {
      assert NotBy(steps[0], t);
      OthersOnly(Next(s, steps[0]), steps[1..], t);
    }
  }

  // ------------------------------------------------------------------
  // The lock is granted
  // ------------------------------------------------------------------

  /** lockFile answers true exactly where there is no flock or nobody has it; until then the loop goes on. */
  lemma GrantedIff(s: State, t: Thread)
    requires PhaseOf(s, t).Polling?
    ensures var s' := Next(s, TryLock(t, false));
            if s.supported && s.flock.Some? then s' == s
            else PhaseOf(s', t).Holding? && (s.supported ==> s'.flock == Some(t))
  {
  }

  /** Nobody stands in the way of `t`: its process's channel is empty and the file, where it can be locked, is not. */
  predicate FreeFor(s: State, t: Thread) { t.process !in s.full && (s.supported ==> s.flock.None?) }

  /** acquireLock without a failure. */
  function Acquire(t: Thread): seq<Step> { [Start(t), Enqueue(t), OpenFile(t, true), TryLock(t, false)] }

  lemma RunAcquire(s: State, t: Thread)
    ensures Run(s, Acquire(t)) == Next(Next(Next(Next(s, Start(t)), Enqueue(t)), OpenFile(t, true)), TryLock(t, false))
  {
    var steps := Acquire(t);
    assert steps[1..] == [Enqueue(t), OpenFile(t, true), TryLock(t, false)];
    assert steps[1..][1..] == [OpenFile(t, true), TryLock(t, false)];
    assert steps[1..][1..][1..] == [TryLock(t, false)];
    assert steps[1..][1..][1..][1..] == [];
    var s1 := Next(s, Start(t));
    var s2 := Next(s1, Enqueue(t));
    var s3 := Next(s2, OpenFile(t, true));
    var s4 := Next(s3, TryLock(t, false));
    assert Run(s3, [TryLock(t, false)]) == Run(s4, []);
    assert Run(s2, [OpenFile(t, true), TryLock(t, false)]) == Run(s3, [TryLock(t, false)]);
    assert Run(s1, [Enqueue(t), OpenFile(t, true), TryLock(t, false)]) ==
           Run(s2, [OpenFile(t, true), TryLock(t, false)]);
  }

  /**
   After any run, a thread that is not in acquireLock and finds nobody in its way gets
   the lock, and after its release nobody is in anyone's way who was not before.
   */
  lemma Acquires(supported: bool, steps: seq<Step>, t: Thread)
    requires var s := Run(Init(supported), steps);
             (PhaseOf(s, t).Outside? || PhaseOf(s, t).Released?) && FreeFor(s, t)
    ensures var s := Run(Init(supported), steps);
            var held := Run(s, Acquire(t));
            && PhaseOf(held, t).Holding?
            && PhaseOf(Next(held, Release(t)), t).Released?
            && (forall u :: FreeFor(s, u) ==> FreeFor(Next(held, Release(t)), u))
  {
    RunAcquire(Run(Init(supported), steps), t);
  }

  /** Whoever waits for the file of a holder in another process has the lock after its release. */
  lemma HandsOver(supported: bool, steps: seq<Step>, t: Thread, u: Thread)
    requires var s := Run(Init(supported), steps); PhaseOf(s, t).Holding? && PhaseOf(s, u).Polling?
    ensures var s := Run(Init(supported), steps);
            PhaseOf(Next(Next(s, Release(t)), TryLock(u, false)), u).Holding?
  {
    LockInvariant(Init(supported), steps);
  }

  /** Every way out of the section frees what the thread had: a failure, the deadline, a release, and a death. */
  lemma LeavingFrees(supported: bool, steps: seq<Step>, t: Thread, step: Step)
    requires InSection(Run(Init(supported), steps), t)
    requires !InSection(Next(Run(Init(supported), steps), step), t)
    ensures var s' := Next(Run(Init(supported), steps), step);
            t.process !in s'.full && s'.flock != Some(t)
  {
    LockInvariant(Init(supported), steps);
    StepLeaves(Run(Init(supported), steps), t, step);
  }

  lemma StepLeaves(s: State, t: Thread, step: Step)
    requires s.flock == Some(t) ==> PhaseOf(s, t).Holding?
    requires InSection(s, t) && !InSection(Next(s, step), t)
    ensures t.process !in Next(s, step).full && Next(s, step).flock != Some(t)
  {
    assert step.Die? || step.t == t;
  }
}
