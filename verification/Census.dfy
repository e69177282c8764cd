/**
 The block census file: the locked read-modify-write of UpdateCensus
 (internal/cache/census.go) and what ensureCensus, mergeBuiltCensus and
 flushCensusFolds do inside it (internal/cli/blocks_census.go).

 Processes load the file without a lock, read documents for a long time, and only
 then lock, re-read, merge and rewrite.  The claim is that nobody's work is lost:
 no entity ever disappears from disk and no entity's built_at ever goes back.
 The lock is the exclusive one of module ScopeLock.
 */
module Census {
  import opened Wrappers

  datatype Kind = Collection | Global
  datatype Key = Key(kind: Kind, slug: string)

  /** `failed` is a non-empty error; `body` stands for everything that was observed. */
  datatype Entity = Entity(key: Key, builtAt: int, failed: bool, body: string)

  type Census = map<Key, Entity>

  /** Each entity is filed under its own kind and slug. */
  predicate Filed(c: Census) { forall k :: k in c ==> c[k].key == k }

  /** census.json as a merge receives it; `Foreign` is a census_version this build cannot decode. */
  datatype Raw = NoFile | Foreign | Encoded(c: Census)

  // ------------------------------------------------------------------
  // Merging
  // ------------------------------------------------------------------

  /** One fresh entity: the newer read wins, and a tie goes to the fresh one. */
  function Put(c: Census, e: Entity): Census {
    if e.key in c && c[e.key].builtAt > e.builtAt then c else c[e.key := e]
  }

  function PutAll(c: Census, own: seq<Entity>): Census {
    if own == [] then c else Put(PutAll(c, own[..|own| - 1]), own[|own| - 1])
  }

  function Merged(raw: Raw, census: Census, own: seq<Entity>, replace: bool): Census {
    if replace || !raw.Encoded? then census else PutAll(raw.c, own)
  }

  /** mergeBuiltCensus. */
  method MergeBuiltCensus(raw: Raw, census: Census, own: seq<Entity>, replace: bool) returns (out: Census)
    ensures out == Merged(raw, census, own, replace)
    ensures replace || !raw.Encoded? ==> out == census
  {
    if replace || raw.NoFile? {
      return census;
    }
    if raw.Foreign? {
      return census;
    }
    var disk := raw.c;
    for i := 0 to |own|
      invariant disk == PutAll(raw.c, own[..i])
    {
      var e := own[i];
      assert own[..i + 1][..i] == own[..i];
      if e.key in disk && disk[e.key].builtAt > e.builtAt {
        continue;
      }
      disk := disk[e.key := e];
    }
    assert own[..|own|] == own;
    return disk;
  }

  /** Nothing is lost between two censuses. */
  ghost predicate Grows(c: Census, c': Census) {
    forall k :: k in c ==> k in c' && c[k].builtAt <= c'[k].builtAt
  }

  ghost predicate RawGrows(r: Raw, r': Raw) { r.Encoded? ==> r'.Encoded? && Grows(r.c, r'.c) }

  /** What merging does, entity by entity: the newest of the disk's and the fresh reads is on disk. */
  lemma {:induction false} MergeNewestWins(c: Census, own: seq<Entity>)
    requires Filed(c)
    ensures Filed(PutAll(c, own)) && Grows(c, PutAll(c, own))
    ensures forall i :: 0 <= i < |own| ==>
              own[i].key in PutAll(c, own) && own[i].builtAt <= PutAll(c, own)[own[i].key].builtAt
    ensures forall k :: k in PutAll(c, own) ==>
              (k in c && PutAll(c, own)[k] == c[k]) || PutAll(c, own)[k] in own
  {
    if own != [] {
      var rest := PutAll(c, own[..|own| - 1]);
      MergeNewestWins(c, own[..|own| - 1]);
      assert PutAll(c, own) == Put(rest, own[|own| - 1]);
      assert own == own[..|own| - 1] + [own[|own| - 1]];
    }
  }

  /** No entity was read twice with different results. */
  predicate OneReadEach(own: seq<Entity>) {
    forall i, j :: 0 <= i < j < |own| && own[i].key == own[j].key ==> own[i] == own[j]
  }

  /** An entity nobody read afresh is untouched; one that was read is replaced unless the disk's is newer. */
  lemma {:induction false} MergeExact(c: Census, own: seq<Entity>, k: Key)
    requires OneReadEach(own)
    ensures (forall i :: 0 <= i < |own| ==> own[i].key != k) ==>
              (k in PutAll(c, own) <==> k in c) && (k in c ==> PutAll(c, own)[k] == c[k])
    ensures forall i :: 0 <= i < |own| && own[i].key == k ==>
              k in PutAll(c, own) &&
              PutAll(c, own)[k] == if k in c && c[k].builtAt > own[i].builtAt then c[k] else own[i]
  {
    if own != [] {
      MergeExact(c, own[..|own| - 1], k);
    }
  }

  // ------------------------------------------------------------------
  // Building (ensureCensus)
  // ------------------------------------------------------------------

  /** A failed read does not replace a good entity of the copy that was loaded. */
  predicate KeepsOld(census: Census, e: Entity) { e.failed && e.key in census && !census[e.key].failed }

  function Built(census: Census, built: seq<Entity>): Census {
    if built == [] then census else
      var c := Built(census, built[..|built| - 1]);
      var e := built[|built| - 1];
      if KeepsOld(c, e) then c else c[e.key := e]
  }

  /** The entities of this run that the census now holds. */
  function Fresh(census: Census, built: seq<Entity>): seq<Entity> {
    if built == [] then [] else
      Fresh(census, built[..|built| - 1]) +
      (if built[|built| - 1].key in census && census[built[|built| - 1].key] == built[|built| - 1]
       then [built[|built| - 1]] else [])
  }

  /** One read more: it is filed, unless it failed and a good one is there; nothing else changes. */
  lemma BuiltOneMore(census: Census, built: seq<Entity>, e: Entity)
    ensures var c, c' := Built(census, built), Built(census, built + [e]);
            && c' == (if e.failed && e.key in c && !c[e.key].failed then c else c[e.key := e])
            && Built(census, []) == census
  {
    assert (built + [e])[..|built|] == built;
  }

  /** This run's fresh reads are exactly those of its reads that the census it built holds. */
  lemma {:induction false} FreshExact(census: Census, built: seq<Entity>, e: Entity)
    ensures e in Fresh(census, built) <==> e in built && e.key in census && census[e.key] == e
  {
    if built != [] {
      FreshExact(census, built[..|built| - 1], e);
      assert built == built[..|built| - 1] + [built[|built| - 1]];
    }
  }

  // ------------------------------------------------------------------
  // Folding echoes (flushCensusFolds)
  // ------------------------------------------------------------------

  datatype Fold = Fold(key: Key, overlay: string)

  /** HardMax of the census class, in seconds. */
  const CENSUS_HARD_MAX: int := 7 * 24 * 3600

  predicate Expired(e: Entity, now: int) { now - e.builtAt >= CENSUS_HARD_MAX }

  /** OverlayDocs keeps the entity's header and changes only what was observed. */
  function FoldOne(c: Census, f: Fold, now: int): Census {
    if f.key !in c || c[f.key].failed || Expired(c[f.key], now) then c
    else c[f.key := c[f.key].(body := f.overlay)]
  }

  function FoldAll(c: Census, folds: seq<Fold>, now: int): Census {
    if folds == [] then c else FoldOne(FoldAll(c, folds[..|folds| - 1], now), folds[|folds| - 1], now)
  }

  lemma {:induction false} FoldKeepsHeaders(c: Census, folds: seq<Fold>, now: int)
    requires Filed(c)
    ensures Filed(FoldAll(c, folds, now)) && FoldAll(c, folds, now).Keys == c.Keys
    ensures forall k :: k in c ==>
              && FoldAll(c, folds, now)[k].builtAt == c[k].builtAt
              && FoldAll(c, folds, now)[k].failed == c[k].failed
              && (c[k].failed || Expired(c[k], now) ==> FoldAll(c, folds, now)[k] == c[k])
  {
    if folds != [] {
      FoldKeepsHeaders(c, folds[..|folds| - 1], now);
    }
  }

  /** Entity by entity: the last document written into a good entity of the last seven days is its overlay. */
  lemma {:induction false} FoldExact(c: Census, folds: seq<Fold>, now: int, k: Key, j: int)
    requires Filed(c) && k in c && -1 <= j < |folds|
    requires j >= 0 ==> folds[j].key == k
    requires forall i :: j < i < |folds| ==> folds[i].key != k
    ensures FoldAll(c, folds, now).Keys == c.Keys
    ensures FoldAll(c, folds, now)[k] ==
            if j >= 0 && !c[k].failed && now - c[k].builtAt < 604800 then c[k].(body := folds[j].overlay) else c[k]
    decreases |folds|
  {
    if folds != [] {
      var before := folds[..|folds| - 1];
      FoldKeepsHeaders(c, before, now);
      if j == |folds| - 1 {
        FoldUntouched(c, before, now, k);
      } else {
        FoldExact(c, before, now, k, j);
      }
    }
  }

  /** An entity that folding passes over is as it was, and one that it does not keeps all but its body. */
  lemma {:induction false} FoldUntouched(c: Census, folds: seq<Fold>, now: int, k: Key)
    requires k in c
    ensures k in FoldAll(c, folds, now)
    ensures FoldAll(c, folds, now)[k].(body := "") == c[k].(body := "")
    ensures c[k].failed || Expired(c[k], now) ==> FoldAll(c, folds, now)[k] == c[k]
  {
    if folds != [] {
      FoldUntouched(c, folds[..|folds| - 1], now, k);
    }
  }

  // ------------------------------------------------------------------
  // Interleaved processes
  // ------------------------------------------------------------------

  type Pid = nat

  datatype Job =
    | MergeJob(census: Census, own: seq<Entity>, replace: bool)
    | FoldJob(folds: seq<Fold>, now: int)

  datatype Proc =
    | Idle
    | Loaded(census: Census)          // the unlocked copy, documents being read
    | Waiting(job: Job)               // queued for the scope lock
    | Locked(job: Job)
    | Merging(job: Job, current: Raw) // has read the file under the lock, or failed to
    | Done                            // lock still held

  datatype State = State(disk: Raw, lock: Option<Pid>, procs: map<Pid, Proc>)

  datatype Step =
    | Load(p: Pid, blank: bool)   // blank: --refresh, or the file cannot be read
    | Build(p: Pid, built: seq<Entity>, refresh: bool)
    | StartFold(p: Pid, folds: seq<Fold>, now: int)
    | Lock(p: Pid)
    | Reread(p: Pid)
    | RereadFails(p: Pid) // the error is dropped, and the merge is handed nothing
    | Write(p: Pid)
    | Leave(p: Pid)   // release, a crash, or any failure

  function ProcOf(s: State, p: Pid): Proc { if p in s.procs then s.procs[p] else Idle }
  function Goto(s: State, p: Pid, q: Proc): State { s.(procs := s.procs[p := q]) }

  /** The body the job writes; None writes nothing. */
  function Body(job: Job, current: Raw): Option<Census> {
    match job
    case MergeJob(census, own, replace) => Some(Merged(current, census, own, replace))
    case FoldJob(folds, now) => if current.Encoded? then Some(FoldAll(current.c, folds, now)) else None
  }

  function Next(s: State, step: Step): State {
    var q := ProcOf(s, step.p);
    match step
    case Load(p, blank) =>
      if !q.Idle? then s
      else Goto(s, p, Loaded(if blank || !s.disk.Encoded? then map[] else s.disk.c))
    case Build(p, built, refresh) =>
      if !q.Loaded? then s
      else
        var census := Built(q.census, built);
        Goto(s, p, Waiting(MergeJob(census, Fresh(census, built), refresh)))
    case StartFold(p, folds, now) => if q.Idle? then Goto(s, p, Waiting(FoldJob(folds, now))) else s
    case Lock(p) => if q.Waiting? && s.lock.None? then Goto(s, p, Locked(q.job)).(lock := Some(p)) else s
    case Reread(p) => if q.Locked? then Goto(s, p, Merging(q.job, s.disk)) else s
    case RereadFails(p) => if q.Locked? then Goto(s, p, Merging(q.job, NoFile)) else s
    case Write(p) =>
      if !q.Merging? then s
      else if Body(q.job, q.current).None? then Goto(s, p, Done)
      else Goto(s, p, Done).(disk := Encoded(Body(q.job, q.current).value))
    case Leave(p) => Goto(s, p, Idle).(lock := if s.lock == Some(p) then None else s.lock)
  }

  function Run(s: State, steps: seq<Step>): State
    decreases |steps|
  {
    if steps == [] then s else Run(Next(s, steps[0]), steps[1..])
  }

  /** Before any process runs, with any file: none, one of another census version, or a census. */
  function Start(disk: Raw): State { State(disk, None, map[]) }

  const INIT := Start(NoFile)

  predicate FiledRaw(raw: Raw) { raw.Encoded? ==> Filed(raw.c) }

  /** No build under --refresh. */
  predicate Merges(step: Step) { step.Build? ==> !step.refresh }

  ghost predicate AllMerge(steps: seq<Step>) { forall i :: 0 <= i < |steps| ==> Merges(steps[i]) }

  /** The read under the lock never fails. */
  ghost predicate NoFailedReread(steps: seq<Step>) { forall i :: 0 <= i < |steps| ==> !steps[i].RereadFails? }

  predicate Inside(q: Proc) { q.Locked? || q.Merging? || q.Done? }

  /** Everything a process read itself is in the copy it would write. */
  predicate OwnIn(census: Census, own: seq<Entity>) {
    forall i :: 0 <= i < |own| ==> own[i].key in census && census[own[i].key] == own[i]
  }

  predicate JobOk(job: Job) { job.MergeJob? ==> Filed(job.census) && !job.replace && OwnIn(job.census, job.own) }

  predicate ProcOk(q: Proc) {
    && (q.Loaded? ==> Filed(q.census))
    && (q.Waiting? || q.Locked? || q.Merging? ==> JobOk(q.job))
  }

  /** The lock names whoever is inside, and what was read under it is still on disk, unless reading it failed. */
  ghost predicate Inv(s: State) {
    && FiledRaw(s.disk)
    && (forall p :: p in s.procs ==> (Inside(s.procs[p]) ==> s.lock == Some(p)) && ProcOk(s.procs[p]))
    && (forall p :: p in s.procs && s.procs[p].Merging? ==> s.procs[p].current in [s.disk, NoFile])
  }

  /** Every read under the lock so far succeeded. */
  ghost predicate AllRead(s: State) {
    forall p :: p in s.procs && s.procs[p].Merging? ==> s.procs[p].current == s.disk
  }

  lemma {:induction false} BuiltFiled(c: Census, built: seq<Entity>)
    requires Filed(c)
    ensures Filed(Built(c, built))
  {
    if built != [] {
      BuiltFiled(c, built[..|built| - 1]);
    }
  }

  lemma {:induction false} FreshOwn(census: Census, built: seq<Entity>)
    ensures OwnIn(census, Fresh(census, built))
  {
    if built != [] {
      FreshOwn(census, built[..|built| - 1]);
    }
  }

  /** One write over what was read under the lock loses nothing. */
  lemma BodyGrows(job: Job, current: Raw)
    requires FiledRaw(current) && JobOk(job)
    ensures Body(job, current).Some? ==>
            Filed(Body(job, current).value) && RawGrows(current, Encoded(Body(job, current).value))
  {
    if current.Encoded? {
      if job.MergeJob? {
        MergeNewestWins(current.c, job.own);
      } else {
        FoldKeepsHeaders(current.c, job.folds, job.now);
      }
    }
  }

  lemma StepKeeps(s: State, step: Step)
    requires Inv(s) && Merges(step)
    ensures Inv(Next(s, step))
    ensures AllRead(s) && !step.RereadFails? ==> AllRead(Next(s, step))
  {
    var q := ProcOf(s, step.p);
    if step.Write? && q.Merging? {
      BodyGrows(q.job, q.current);
    } else if step.Build? && q.Loaded? {
      BuiltFiled(q.census, step.built);
      FreshOwn(Built(q.census, step.built), step.built);
    }
  }

  /** A write that goes over a file nobody read: the merge body is the process's own copy. */
  predicate Blind(s: State, step: Step) {
    step.Write? && ProcOf(s, step.p).Merging? && ProcOf(s, step.p).job.MergeJob?
    && ProcOf(s, step.p).current.NoFile? && s.disk.Encoded?
  }

  /** The copy a blind writer holds has everything that is on disk, no older. */
  ghost predicate CopyCovers(s: State, step: Step)
    requires Blind(s, step)
  {
    Grows(s.disk.c, ProcOf(s, step.p).job.census)
  }

  /** The exact condition on one step: it loses something if and only if it is a blind write of a copy that lacks it. */
  lemma StepGrowsIff(s: State, step: Step)
    requires Inv(s) && Merges(step)
    ensures RawGrows(s.disk, Next(s, step).disk) <==> (Blind(s, step) ==> CopyCovers(s, step))
  {
    var q := ProcOf(s, step.p);
    if step.Write? && q.Merging? && !Blind(s, step) {
      BodyGrows(q.job, q.current);
    }
  }

  lemma GrowsTransitive(a: Raw, b: Raw, c: Raw)
    requires RawGrows(a, b) && RawGrows(b, c)
    ensures RawGrows(a, c)
  {
    if a.Encoded? {
      forall k | k in a.c
        ensures k in c.c && a.c[k].builtAt <= c.c[k].builtAt
      {
        assert k in b.c;
      }
    }
  }

  /** Every blind write of a run from `s` carries what was on disk. */
  ghost predicate BlindWritesCover(s: State, steps: seq<Step>)
    decreases |steps|
  {
    steps == [] ||
    ((Blind(s, steps[0]) ==> CopyCovers(s, steps[0])) && BlindWritesCover(Next(s, steps[0]), steps[1..]))
  }

  /** Between any two moments of the run nothing is lost. */
  ghost predicate NothingLost(s: State, steps: seq<Step>) {
    forall i, j :: 0 <= i <= j <= |steps| ==> RawGrows(Run(s, steps[..i]).disk, Run(s, steps[..j]).disk)
  }

  lemma {:induction false} CoveredGrows(s: State, steps: seq<Step>)
    requires Inv(s) && AllMerge(steps) && BlindWritesCover(s, steps)
    ensures Inv(Run(s, steps)) && RawGrows(s.disk, Run(s, steps).disk)
    decreases |steps|
  {
    if steps != [] {
      StepKeeps(s, steps[0]);
      StepGrowsIff(s, steps[0]);
      CoveredGrows(Next(s, steps[0]), steps[1..]);
      GrowsTransitive(s.disk, Next(s, steps[0]).disk, Run(s, steps).disk);
    }
  }

  lemma {:induction false} RunConcat(s: State, a: seq<Step>, b: seq<Step>)
    ensures Run(s, a + b) == Run(Run(s, a), b)
    decreases |a|
  {
    if a == [] {
      assert a + b == b;
    } else {
      assert (a + b)[0] == a[0] && (a + b)[1..] == a[1..] + b;
      RunConcat(Next(s, a[0]), a[1..], b);
    }
  }

  lemma {:induction false} RunInv(s: State, steps: seq<Step>)
    requires Inv(s) && AllMerge(steps)
    ensures Inv(Run(s, steps))
    decreases |steps|
  {
    if steps != [] {
      StepKeeps(s, steps[0]);
      RunInv(Next(s, steps[0]), steps[1..]);
    }
  }

  lemma {:induction false} CoverFrom(s: State, steps: seq<Step>, i: nat, j: nat)
    requires BlindWritesCover(s, steps) && i <= j <= |steps|
    ensures BlindWritesCover(Run(s, steps[..i]), steps[i..j])
    decreases |steps|
  {
    if i > 0 {
      CoverFrom(Next(s, steps[0]), steps[1..], i - 1, j - 1);
      assert steps[..i][1..] == steps[1..][..i - 1] && steps[1..][i - 1..j - 1] == steps[i..j];
    } else if j > 0 {
      CoverFrom(Next(s, steps[0]), steps[1..], 0, j - 1);
      assert steps[..j][1..] == steps[1..][..j - 1] && steps[0..j] == steps[..j];
    }
  }

  lemma {:induction false} LossFound(s: State, steps: seq<Step>) returns (i: nat)
    requires Inv(s) && AllMerge(steps) && !BlindWritesCover(s, steps)
    ensures i < |steps| && !RawGrows(Run(s, steps[..i]).disk, Run(s, steps[..i + 1]).disk)
    decreases |steps|
  {
    StepGrowsIff(s, steps[0]);
    if Blind(s, steps[0]) && !CopyCovers(s, steps[0]) {
      assert steps[..1] == [steps[0]] && steps[..1][1..] == [];
      return 0;
    }
    StepKeeps(s, steps[0]);
    i := LossFound(Next(s, steps[0]), steps[1..]);
    assert steps[..i + 1][1..] == steps[1..][..i] && steps[..i + 2][1..] == steps[1..][..i + 1];
    i := i + 1;
  }

  /**
   What UpdateCensus guarantees, exactly.  From any file and over any interleaving of builds, folds,
   crashes and failures, failed reads under the lock included, nothing is ever lost
   if and only if every merge written after such a failed read carries everything
   the file held.
   */
  lemma NothingLostIff(disk: Raw, steps: seq<Step>)
    requires FiledRaw(disk) && AllMerge(steps)
    ensures NothingLost(Start(disk), steps) <==> BlindWritesCover(Start(disk), steps)
  {
    if BlindWritesCover(Start(disk), steps) {
      forall i, j | 0 <= i <= j <= |steps|
        ensures RawGrows(Run(Start(disk), steps[..i]).disk, Run(Start(disk), steps[..j]).disk)
      {
        CoverFrom(Start(disk), steps, i, j);
        RunInv(Start(disk), steps[..i]);
        CoveredGrows(Run(Start(disk), steps[..i]), steps[i..j]);
        assert steps[..j] == steps[..i] + steps[i..j];
        RunConcat(Start(disk), steps[..i], steps[i..j]);
      }
    } else {
      var i := LossFound(Start(disk), steps);
      assert !NothingLost(Start(disk), steps);
    }
  }

  lemma {:induction false} ReadRunsCover(s: State, steps: seq<Step>)
    requires Inv(s) && AllRead(s) && AllMerge(steps) && NoFailedReread(steps)
    ensures BlindWritesCover(s, steps)
    decreases |steps|
  {
    if steps != [] {
      StepKeeps(s, steps[0]);
      ReadRunsCover(Next(s, steps[0]), steps[1..]);
    }
  }

  /**
   No lost updates.  Between any two moments of any interleaving of builds, folds
   and crashes in which the read under the lock succeeds, every entity on disk stays
   on disk and its built_at never decreases.
   */
  lemma NoLostUpdates(disk: Raw, steps: seq<Step>)
    requires FiledRaw(disk) && AllMerge(steps) && NoFailedReread(steps)
    ensures NothingLost(Start(disk), steps)
  {
    ReadRunsCover(Start(disk), steps);
    NothingLostIff(disk, steps);
  }

  /**
   A process's own reads are on disk when its write is done, or newer reads of the
   same entities are; this holds even when the read under the lock failed.
   */
  lemma OwnReadsPersist(disk: Raw, steps: seq<Step>, p: Pid, i: nat)
    requires FiledRaw(disk) && AllMerge(steps)
    ensures var s := Run(Start(disk), steps);
            var q := ProcOf(s, p);
            q.Merging? && q.job.MergeJob? && i < |q.job.own| ==>
              var d := Next(s, Write(p)).disk;
              var e := q.job.own[i];
              d.Encoded? && e.key in d.c && e.builtAt <= d.c[e.key].builtAt
  {
    RunInv(Start(disk), steps);
    var s := Run(Start(disk), steps);
    var q := ProcOf(s, p);
    if q.Merging? && q.job.MergeJob? && i < |q.job.own| {
      assert JobOk(q.job);
      if q.current.Encoded? {
        MergeNewestWins(q.current.c, q.job.own);
      }
    }
  }

  // ------------------------------------------------------------------
  // What the merge does not protect
  // ------------------------------------------------------------------

  /** Of a merge that could read the file: a good entity is replaced by a failed read that is not older. */
  lemma FailureWinsIff(c: Census, own: seq<Entity>, k: Key)
    requires Filed(c) && OneReadEach(own) && k in c && !c[k].failed
    ensures k in PutAll(c, own)
    ensures PutAll(c, own)[k].failed <==> FailedReadOf(own, k, c[k].builtAt)
  {
    MergeNewestWins(c, own);
    MergeExact(c, own, k);
  }

  ghost predicate FailedReadOf(own: seq<Entity>, k: Key, since: int) {
    exists i :: 0 <= i < |own| && own[i].key == k && own[i].failed && since <= own[i].builtAt
  }

  /** What a merge about to be written does to the entity `k`, which is good and from `since` on disk. */
  ghost predicate WritesFailure(q: Proc, k: Key, since: int) {
    && q.Merging? && q.job.MergeJob?
    && if q.current.Encoded? then FailedReadOf(q.job.own, k, since)
       else k in q.job.census && q.job.census[k].failed
  }

  /**
   "Keep the last good census rather than replace it with a failure" is checked
   against the copy that was loaded, not against the file the merge re-read.  In any
   state a run can reach, a step replaces a good entity on disk by a failure exactly
   when it writes a merge that read the file and holds a failed read of its own that
   is not older, or one that could not read the file and has the failure in its copy.
   */
  lemma FailureReplacesGoodIff(s: State, step: Step, k: Key)
    requires Inv(s) && Merges(step) && s.disk.Encoded? && k in s.disk.c && !s.disk.c[k].failed
    ensures var d := Next(s, step).disk;
            (d.Encoded? && k in d.c && d.c[k].failed) <==>
            step.Write? && WritesFailure(ProcOf(s, step.p), k, s.disk.c[k].builtAt)
  {
    var q := ProcOf(s, step.p);
    if step.Write? && q.Merging? {
      assert JobOk(q.job);
      if q.current.Encoded? && q.job.MergeJob? {
        FailureWinsIff(s.disk.c, q.job.own, k);
      } else if q.current.Encoded? {
        FoldKeepsHeaders(s.disk.c, q.job.folds, q.job.now);
      }
    }
  }

  lemma RunFour(s: State, a: Step, b: Step, c: Step, d: Step)
    ensures Run(s, [a, b, c, d]) == Next(Next(Next(Next(s, a), b), c), d)
  {
    assert [a, b, c, d][1..] == [b, c, d] && [b, c, d][1..] == [c, d] && [c, d][1..] == [d] && [d][1..] == [];
    var s1 := Next(s, a);
    var s2 := Next(s1, b);
    var s3 := Next(s2, c);
    assert Run(s3, [d]) == Run(Next(s3, d), []);
    assert Run(s2, [c, d]) == Run(s3, [d]);
    assert Run(s1, [b, c, d]) == Run(s2, [c, d]);
  }

  function Session(p: Pid, built: seq<Entity>): seq<Step> {
    [Build(p, built, false), Lock(p), Reread(p), Write(p)]
  }

  /** Left alone with the lock, a process builds, merges and writes. */
  lemma SessionRuns(s: State, p: Pid, census: Census, built: seq<Entity>)
    requires ProcOf(s, p) == Loaded(census) && s.lock.None?
    ensures var c := Built(census, built);
            Run(s, Session(p, built)) ==
            State(Encoded(Merged(s.disk, c, Fresh(c, built), false)), Some(p), s.procs[p := Done])
  {
    RunFour(s, Build(p, built, false), Lock(p), Reread(p), Write(p));
    var s1 := Next(s, Build(p, built, false));
    var s2 := Next(s1, Lock(p));
    var s3 := Next(s2, Reread(p));
    assert s3.procs[p := Done] == s.procs[p := Done];
  }

  /** From load to release: an undisturbed build leaves the merge of its fresh reads into the file, and a free lock. */
  lemma SoloSession(s: State, p: Pid, built: seq<Entity>)
    requires ProcOf(s, p).Idle? && s.lock.None? && s.disk.Encoded?
    ensures var c := Built(s.disk.c, built);
            var s' := Next(Run(Next(s, Load(p, false)), Session(p, built)), Leave(p));
            s'.disk == Encoded(PutAll(s.disk.c, Fresh(c, built))) && s'.lock.None?
  {
    SessionRuns(Next(s, Load(p, false)), p, s.disk.c, built);
  }

  /** An undisturbed fold writes the folded census, and no file where there was none it could decode. */
  lemma SoloFold(s: State, p: Pid, folds: seq<Fold>, now: int)
    requires ProcOf(s, p).Idle? && s.lock.None?
    ensures var s' := Next(Run(s, [StartFold(p, folds, now), Lock(p), Reread(p), Write(p)]), Leave(p));
            && s'.disk == (if s.disk.Encoded? then Encoded(FoldAll(s.disk.c, folds, now)) else s.disk)
            && s'.lock.None?
  {
    RunFour(s, StartFold(p, folds, now), Lock(p), Reread(p), Write(p));
  }

  /**
   And it happens: process 0 loads before process 1 stores a good read of `k`;
   process 0's own read of `k` fails later, and its merge puts the failure on disk.
   */
  lemma GoodReadLostToFailure(good: Entity, bad: Entity)
    requires good.key == bad.key && !good.failed && bad.failed && good.builtAt <= bad.builtAt
    ensures var start := Next(Next(INIT, Load(0, false)), Load(1, false));
            var s := Run(start, Session(1, [good]));
            && s.disk == Encoded(map[good.key := good])
            && Run(Next(s, Leave(1)), Session(0, [bad])).disk == Encoded(map[bad.key := bad])
  {
    SoloBuild(good);
    var start := Next(Next(INIT, Load(0, false)), Load(1, false));
    assert start == State(NoFile, None, map[0 := Loaded(map[]), 1 := Loaded(map[])]);
    SessionRuns(start, 1, map[], [good]);
    var s := Run(start, Session(1, [good]));
    assert s == State(Encoded(map[good.key := good]), Some(1), map[0 := Loaded(map[]), 1 := Done]);
    LateFailure(Next(s, Leave(1)), good, bad);
  }

  lemma LateFailure(s: State, good: Entity, bad: Entity)
    requires s.disk == Encoded(map[good.key := good]) && s.lock.None? && ProcOf(s, 0) == Loaded(map[])
    requires good.key == bad.key && good.builtAt <= bad.builtAt
    ensures Run(s, Session(0, [bad])).disk == Encoded(map[bad.key := bad])
  {
    SoloBuild(bad);
    SessionRuns(s, 0, map[], [bad]);
    assert [bad][..0] == [];
    assert PutAll(s.disk.c, [bad]) == Put(s.disk.c, bad);
  }

  /** A first build of one entity: the census and the fresh list are just that entity. */
  lemma SoloBuild(e: Entity)
    ensures Built(map[], [e]) == map[e.key := e] && Fresh(map[e.key := e], [e]) == [e]
  {
    assert [e][..0] == [];
    assert Built(map[], []) == map[];
  }

  /**
   A failed read under the lock loses an update: process 0 loads before process 1
   stores `a`, then builds `b`, takes the lock, fails to read the file and writes
   its stale copy over it.
   */
  lemma FailedRereadLoses(a: Entity, b: Entity)
    requires a.key != b.key
    ensures var start := Next(Next(INIT, Load(0, false)), Load(1, false));
            var s := Next(Run(start, Session(1, [a])), Leave(1));
            && s.disk == Encoded(map[a.key := a])
            && Run(s, [Build(0, [b], false), Lock(0), RereadFails(0), Write(0)]).disk == Encoded(map[b.key := b])
            && !RawGrows(s.disk, Encoded(map[b.key := b]))
  {
    var start := Next(Next(INIT, Load(0, false)), Load(1, false));
    assert start == State(NoFile, None, map[0 := Loaded(map[]), 1 := Loaded(map[])]);
    SoloBuild(a);
    SessionRuns(start, 1, map[], [a]);
    var s := Next(Run(start, Session(1, [a])), Leave(1));
    assert s == State(Encoded(map[a.key := a]), None, map[0 := Loaded(map[]), 1 := Idle]);
    StaleWrite(s, b);
    assert a.key in s.disk.c && a.key !in map[b.key := b];
  }

  lemma StaleWrite(s: State, b: Entity)
    requires s.lock.None? && ProcOf(s, 0) == Loaded(map[])
    ensures Run(s, [Build(0, [b], false), Lock(0), RereadFails(0), Write(0)]).disk == Encoded(map[b.key := b])
  {
    SoloBuild(b);
    RunFour(s, Build(0, [b], false), Lock(0), RereadFails(0), Write(0));
  }
}
