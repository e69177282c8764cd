/**
 The publication protocol (internal/cache/store.go, gc.go, internal/cli/opmemo.go):
 any number of processes run WriteSet, Touch, Clear/GC and lock-free reads over one
 scope directory, interleaved step by step, and any of them may die between two
 steps.  WriteSet has two callers: discovery, with a run of its own, and the memo of
 failed operators, which writes an index it has read back with other memos in it.

 Two results, with different needs:

   - safety: a manifest and a shard that a reader accepts together come from one
     discovery run.  This holds even when the advisory lock excludes nobody and
     the directory (lock file included) is renamed away under a writer;
   - completeness: after a publication every entity of the index is a hit.  This
     needs the lock, no rename, and a Touch and a memo that read the index under the
     lock.
 */
module Publication {
  import opened Wrappers
  import opened CacheLayout
  import Generation

  type Pid = nat

  /** The two ways to write an index back: Touch confirms it, the memo records a failed operator in it. */
  datatype Job = Touch | Memo

  /**
   `exclusive` is false on a file system without flock, where every attempt to
   lock succeeds.  `touchRereads` and `memoRereads` are false as shipped: each writes
   back the index it read before it queued for the lock.
   */
  datatype Config = Config(scope: string, exclusive: bool, touchRereads: bool, memoRereads: bool)

  predicate Rereads(c: Config, job: Job) { if job.Touch? then c.touchRereads else c.memoRereads }

  /** Where a process is in its command. */
  datatype Proc =
    | Idle
    | Loaded(m: Manifest)                                  // a reader holding its manifest
    | WantsWrite(run: DiscoverySet)                        // WriteSet, waiting for the lock
    | Writing(run: DiscoverySet, todo: set<string>, inode: nat) // WriteSet, shards still to write
    | WantsRewrite(m: Manifest, job: Job)                  // Touch or memo, has read the index, waiting for the lock
    | Rereading(job: Job, inode: nat)                      // it holds the lock, has yet to read
    | Rewriting(m: Manifest, job: Job, inode: nat)         // it holds the lock and the document to write
    | Releasing(inode: nat)                                // the file is written, the lock still held

  /**
   `inode` identifies the lock file of the directory that is now at the scope's
   path; renaming the directory away takes that lock file with it.  `runs`,
   `published` and `ahead` are history: every run that began, those whose index
   was written, and those that wrote a shard since the last index was.
   */
  datatype State = State(
    dir: Dir,
    inode: nat,
    locks: map<nat, Pid>,
    procs: map<Pid, Proc>,
    runs: map<string, DiscoverySet>,
    published: set<string>,
    ahead: set<string>)

  const INIT := State(EMPTY_DIR, 0, map[], map[], map[], {}, {})

  function ProcOf(s: State, p: Pid): Proc { if p in s.procs then s.procs[p] else Idle }

  datatype Step =
    | ReadIndex(p: Pid)
    | BeginWrite(p: Pid, run: DiscoverySet)
    | LockForWrite(p: Pid)
    | WriteShard(p: Pid, name: string)
    | WriteIndex(p: Pid)
    | BeginRewrite(p: Pid, job: Job)
    | LockForRewrite(p: Pid)
    | Reread(p: Pid)
    | WriteBack(p: Pid, now: int, rest: string)
    | Release(p: Pid)
    | Abort(p: Pid)       // a crash, a failed write or a lock timeout
    | RenameAway          // Clear, or a sweep that collects the scope

  // ------------------------------------------------------------------
  // Steps
  // ------------------------------------------------------------------

  function Goto(s: State, p: Pid, q: Proc): State { s.(procs := s.procs[p := q]) }

  predicate CanLock(c: Config, s: State) { c.exclusive ==> s.inode !in s.locks }

  function Lock(s: State, p: Pid): State { s.(locks := s.locks[s.inode := p]) }

  /** Closing the file drops the lock, if this process is the one that has it. */
  function Unlock(s: State, p: Pid, inode: nat): State {
    if inode in s.locks && s.locks[inode] == p then s.(locks := s.locks - {inode}) else s
  }

  function Stop(s: State, p: Pid): State {
    var q := ProcOf(s, p);
    var s' := Goto(s, p, Idle);
    if q.Writing? || q.Rereading? || q.Rewriting? || q.Releasing? then Unlock(s', p, q.inode) else s'
  }

  // Each step is a function of its own; where it is not enabled it changes nothing.

  function DoReadIndex(c: Config, s: State, p: Pid): State {
    if ProcOf(s, p).Idle? && ReadManifest(c.scope, s.dir).Some? then Goto(s, p, Loaded(s.dir.index.value)) else s
  }

  /** Discovery's WriteSet up to the lock.  Discovery mints a generation afresh for every run. */
  function DoBeginWrite(c: Config, s: State, p: Pid, run: DiscoverySet): State {
    if ProcOf(s, p).Idle? && Publishable(c.scope, run) && run.generation !in s.runs then
      Goto(s, p, WantsWrite(run)).(runs := s.runs[run.generation := run])
    else s
  }

  function DoLockForWrite(c: Config, s: State, p: Pid): State {
    var q := ProcOf(s, p);
    if q.WantsWrite? && CanLock(c, s) then
      Goto(Lock(s, p), p, Writing(q.run, q.run.shards.Keys, s.inode))
    else s
  }

  /** One atomic file replacement; a name that could leave the directory ends WriteSet half way. */
  function DoWriteShard(s: State, p: Pid, name: string): State {
    var q := ProcOf(s, p);
    if !q.Writing? || name !in q.todo || name !in q.run.shards then s
    else if !ValidShardRef(name) then Stop(s, p)
    else
      Goto(s, p, q.(todo := q.todo - {name}))
      .(dir := s.dir.(shards := s.dir.shards[name := q.run.shards[name]]), ahead := s.ahead + {q.run.generation})
  }

  function DoWriteIndex(s: State, p: Pid): State {
    var q := ProcOf(s, p);
    if q.Writing? && q.todo == {} then
      Goto(s, p, Releasing(q.inode))
      .(dir := s.dir.(index := Some(q.run.manifest)), published := s.published + {q.run.generation}, ahead := {})
    else s
  }

  /** Touch reads whatever index is there; the memo needs one that passes ReadManifest. */
  predicate Sees(c: Config, s: State, job: Job) {
    if job.Touch? then s.dir.index.Some? else ReadManifest(c.scope, s.dir).Some?
  }

  function DoBeginRewrite(c: Config, s: State, p: Pid, job: Job): State {
    if ProcOf(s, p).Idle? && Sees(c, s, job) then Goto(s, p, WantsRewrite(s.dir.index.value, job)) else s
  }

  function DoLockForRewrite(c: Config, s: State, p: Pid): State {
    var q := ProcOf(s, p);
    if q.WantsRewrite? && CanLock(c, s) then
      Goto(Lock(s, p), p, if Rereads(c, q.job) then Rereading(q.job, s.inode) else Rewriting(q.m, q.job, s.inode))
    else s
  }

  function DoReread(c: Config, s: State, p: Pid): State {
    var q := ProcOf(s, p);
    if !q.Rereading? then s
    else if !Sees(c, s, q.job) then Stop(s, p)
    else Goto(s, p, Rewriting(s.dir.index.value, q.job, q.inode))
  }

  /** The index as it is written back: Touch changes confirmed_at alone, the memo what lies outside the entities. */
  function Edited(m: Manifest, job: Job, now: int, rest: string): Manifest {
    if job.Touch? then m.(confirmedAt := now) else m.(rest := rest)
  }

  /** The memo is a WriteSet without shards: its index is all there is to write. */
  function DoWriteBack(s: State, p: Pid, now: int, rest: string): State {
    var q := ProcOf(s, p);
    if q.Rewriting? then
      Goto(s, p, Releasing(q.inode)).(dir := s.dir.(index := Some(Edited(q.m, q.job, now, rest))))
    else s
  }

  function DoRenameAway(s: State): State { s.(dir := EMPTY_DIR, inode := s.inode + 1) }

  function Next(c: Config, s: State, step: Step): State {
    match step
    case ReadIndex(p) => DoReadIndex(c, s, p)
    case BeginWrite(p, run) => DoBeginWrite(c, s, p, run)
    case LockForWrite(p) => DoLockForWrite(c, s, p)
    case WriteShard(p, name) => DoWriteShard(s, p, name)
    case WriteIndex(p) => DoWriteIndex(s, p)
    case BeginRewrite(p, job) => DoBeginRewrite(c, s, p, job)
    case LockForRewrite(p) => DoLockForRewrite(c, s, p)
    case Reread(p) => DoReread(c, s, p)
    case WriteBack(p, now, rest) => DoWriteBack(s, p, now, rest)
    case Release(p) => if ProcOf(s, p).Releasing? then Stop(s, p) else s
    case Abort(p) => Stop(s, p)
    case RenameAway => DoRenameAway(s)
  }

  function Run(c: Config, s: State, steps: seq<Step>): State
    decreases |steps|
  {
    if steps == [] then s else Run(c, Next(c, s, steps[0]), steps[1..])
  }

  lemma {:induction false} RunConcat(c: Config, s: State, a: seq<Step>, b: seq<Step>)
    ensures Run(c, s, a + b) == Run(c, Run(c, s, a), b)
    decreases |a|
  {
    if a == [] {
      assert a + b == b;
    } else {
      assert (a + b)[0] == a[0] && (a + b)[1..] == a[1..] + b;
      RunConcat(c, Next(c, s, a[0]), a[1..], b);
    }
  }

  // ------------------------------------------------------------------
  // Safety: no torn read
  // ------------------------------------------------------------------

  /** A set that WriteSet accepts has no shard stamped with another run's generation. */
  predicate Honest(c: Config, step: Step) {
    step.BeginWrite? && Publishable(c.scope, step.run) ==> WellStamped(step.run)
  }

  ghost predicate AllHonest(c: Config, steps: seq<Step>) { forall i :: 0 <= i < |steps| ==> Honest(c, steps[i]) }

  /** `m` is some run's index, up to confirmed_at and memos. */
  predicate FromRun(s: State, m: Manifest) {
    m.generation in s.runs && SameIndex(m, s.runs[m.generation].manifest)
  }

  predicate KnownRun(s: State, run: DiscoverySet) {
    run.generation in s.runs && s.runs[run.generation] == run
  }

  predicate KnownProc(s: State, q: Proc) {
    match q
    case Loaded(m) => FromRun(s, m)
    case WantsRewrite(m, _) => FromRun(s, m)
    case Rewriting(m, _, _) => FromRun(s, m)
    case WantsWrite(run) => KnownRun(s, run)
    case Writing(run, _, _) => KnownRun(s, run)
    case _ => true
  }

  predicate RunsKnown(c: Config, s: State) {
    forall g :: g in s.runs ==>
      && s.runs[g].generation == g && s.runs[g].manifest.generation == g
      && Generation.IsGeneration(g) && WellStamped(s.runs[g])
  }

  /** A shard that any index could accept is one that its own run handed over under this name. */
  predicate ShardKnown(s: State, n: string, sh: Shard) {
    Generation.IsGeneration(sh.generation) ==>
      && sh.generation in s.runs
      && n in s.runs[sh.generation].shards
      && s.runs[sh.generation].shards[n] == sh
  }

  predicate DiskKnown(s: State) {
    && (s.dir.index.Some? ==> FromRun(s, s.dir.index.value))
    && forall n :: n in s.dir.shards ==> ShardKnown(s, n, s.dir.shards[n])
  }

  predicate ProcsKnown(s: State) {
    forall p :: p in s.procs ==> KnownProc(s, s.procs[p])
  }

  /** Everything on disk and in any process's hands is some run's own artefact. */
  predicate Provenance(c: Config, s: State) {
    RunsKnown(c, s) && DiskKnown(s) && ProcsKnown(s)
  }

  /** A step that only moves one process on, to where it holds known artefacts. */
  lemma MoveKnown(c: Config, s: State, s': State, p: Pid, q: Proc)
    requires Provenance(c, s) && KnownProc(s, q)
    requires s'.procs == s.procs[p := q] && s'.runs == s.runs && s'.dir == s.dir
    ensures Provenance(c, s')
  {
    forall n | n in s'.dir.shards
      ensures ShardKnown(s', n, s'.dir.shards[n])
    {
      assert ShardKnown(s, n, s.dir.shards[n]);
    }
    forall o | o in s'.procs
      ensures KnownProc(s', s'.procs[o])
    {
      assert o == p || KnownProc(s, s.procs[o]);
    }
  }

  lemma StopKnown(c: Config, s: State, p: Pid)
    requires Provenance(c, s)
    ensures Provenance(c, Stop(s, p))
  {
    MoveKnown(c, s, Stop(s, p), p, Idle);
  }

  lemma BeginWriteKnown(c: Config, s: State, p: Pid, run: DiscoverySet)
    requires Provenance(c, s) && Honest(c, BeginWrite(p, run))
    ensures Provenance(c, DoBeginWrite(c, s, p, run))
  {
    var s' := DoBeginWrite(c, s, p, run);
    if s' != s {
      forall n | n in s'.dir.shards
        ensures ShardKnown(s', n, s'.dir.shards[n])
      {
        assert ShardKnown(s, n, s.dir.shards[n]);
      }
      forall o | o in s'.procs
        ensures KnownProc(s', s'.procs[o])
      {
        assert o == p || KnownProc(s, s.procs[o]);
      }
    }
  }

  lemma WriteShardKnown(c: Config, s: State, p: Pid, name: string)
    requires Provenance(c, s)
    ensures Provenance(c, DoWriteShard(s, p, name))
  {
    var q := ProcOf(s, p);
    if q.Writing? && name in q.todo && name in q.run.shards {
      if !ValidShardRef(name) {
        StopKnown(c, s, p);
      } else {
        assert KnownProc(s, q);
        var s1 := Goto(s, p, q.(todo := q.todo - {name}));
        MoveKnown(c, s, s1, p, q.(todo := q.todo - {name}));
        SetShardKnown(c, s1, name, q.run.shards[name], DoWriteShard(s, p, name));
      }
    }
  }

  lemma SetShardKnown(c: Config, s: State, name: string, sh: Shard, s': State)
    requires Provenance(c, s) && ShardKnown(s, name, sh)
    requires s'.procs == s.procs && s'.runs == s.runs
    requires s'.dir == s.dir.(shards := s.dir.shards[name := sh])
    ensures Provenance(c, s')
  {
    forall n | n in s'.dir.shards
      ensures ShardKnown(s', n, s'.dir.shards[n])
    {
      assert n == name || ShardKnown(s, n, s.dir.shards[n]);
    }
    forall o | o in s'.procs
      ensures KnownProc(s', s'.procs[o])
    {
      assert KnownProc(s, s.procs[o]);
    }
  }

  lemma SetIndexKnown(c: Config, s: State, p: Pid, q: Proc, m: Manifest, s': State)
    requires Provenance(c, s) && FromRun(s, m) && KnownProc(s, q)
    requires s'.procs == s.procs[p := q] && s'.runs == s.runs
    requires s'.dir == s.dir.(index := Some(m))
    ensures Provenance(c, s')
  {
    MoveKnown(c, s, s.(procs := s.procs[p := q]), p, q);
    var s1 := s.(procs := s.procs[p := q]);
    forall n | n in s'.dir.shards
      ensures ShardKnown(s', n, s'.dir.shards[n])
    {
      assert ShardKnown(s1, n, s1.dir.shards[n]);
    }
    forall o | o in s'.procs
      ensures KnownProc(s', s'.procs[o])
    {
      assert KnownProc(s1, s1.procs[o]);
    }
  }

  lemma RenameKnown(c: Config, s: State)
    requires Provenance(c, s)
    ensures Provenance(c, DoRenameAway(s))
  {
    var s' := DoRenameAway(s);
    forall o | o in s'.procs
      ensures KnownProc(s', s'.procs[o])
    {
      assert KnownProc(s, s.procs[o]);
    }
  }

  lemma LockKnown(c: Config, s: State, p: Pid, s': State)
    requires Provenance(c, s)
    requires s' == DoLockForWrite(c, s, p) || s' == DoLockForRewrite(c, s, p)
    ensures Provenance(c, s')
  {
    if s' != s {
      assert KnownProc(s, s.procs[p]);
      MoveKnown(c, s, s', p, s'.procs[p]);
    }
  }

  lemma RereadKnown(c: Config, s: State, p: Pid)
    requires Provenance(c, s)
    ensures Provenance(c, DoReread(c, s, p))
  {
    var q := ProcOf(s, p);
    if q.Rereading? {
      if !Sees(c, s, q.job) {
        StopKnown(c, s, p);
      } else {
        MoveKnown(c, s, DoReread(c, s, p), p, Rewriting(s.dir.index.value, q.job, q.inode));
      }
    }
  }

  lemma BeginRewriteKnown(c: Config, s: State, p: Pid, job: Job)
    requires Provenance(c, s)
    ensures Provenance(c, DoBeginRewrite(c, s, p, job))
  {
    if ProcOf(s, p).Idle? && Sees(c, s, job) {
      MoveKnown(c, s, DoBeginRewrite(c, s, p, job), p, WantsRewrite(s.dir.index.value, job));
    }
  }

  lemma WriteBackKnown(c: Config, s: State, p: Pid, now: int, rest: string)
    requires Provenance(c, s)
    ensures Provenance(c, DoWriteBack(s, p, now, rest))
  {
    var q := ProcOf(s, p);
    if q.Rewriting? {
      assert KnownProc(s, q);
      SetIndexKnown(c, s, p, Releasing(q.inode), Edited(q.m, q.job, now, rest), DoWriteBack(s, p, now, rest));
    }
  }

  lemma ProvenanceStep(c: Config, s: State, step: Step)
    requires Provenance(c, s) && Honest(c, step)
    ensures Provenance(c, Next(c, s, step))
  {
    var s' := Next(c, s, step);
    if s' != s {
      match step
      case BeginWrite(p, run) => BeginWriteKnown(c, s, p, run);
      case WriteShard(p, name) => WriteShardKnown(c, s, p, name);
      case WriteIndex(p) =>
        assert KnownProc(s, s.procs[p]);
        SetIndexKnown(c, s, p, Releasing(s.procs[p].inode), s.procs[p].run.manifest, s');
      case WriteBack(p, now, rest) => WriteBackKnown(c, s, p, now, rest);
      case Release(p) => StopKnown(c, s, p);
      case Abort(p) => StopKnown(c, s, p);
      case RenameAway => RenameKnown(c, s);
      case ReadIndex(p) => MoveKnown(c, s, s', p, Loaded(s.dir.index.value));
      case BeginRewrite(p, job) => BeginRewriteKnown(c, s, p, job);
      case LockForWrite(p) => LockKnown(c, s, p, s');
      case LockForRewrite(p) => LockKnown(c, s, p, s');
      case Reread(p) => RereadKnown(c, s, p);
    }
  }

  lemma {:induction false} ProvenanceRun(c: Config, s: State, steps: seq<Step>)
    requires Provenance(c, s) && AllHonest(c, steps)
    ensures Provenance(c, Run(c, s, steps))
    decreases |steps|
  {
    if steps != [] {
      ProvenanceStep(c, s, steps[0]);
      ProvenanceRun(c, Next(c, s, steps[0]), steps[1..]);
    }
  }

  /** A shard accepted through `m` is the one that m's own run handed over for the entity. */
  predicate OwnShard(runs: map<string, DiscoverySet>, m: Manifest, e: Entity, sh: Shard) {
    && e in m.entities && m.generation in runs
    && var name := ShardRefOf(e, m.entities[e]);
       name in runs[m.generation].shards && sh == runs[m.generation].shards[name]
  }

  lemma HitIsOwn(c: Config, s: State, m: Manifest, e: Entity)
    requires Provenance(c, s) && FromRun(s, m) && ReadShard(s.dir, m, e).Some?
    ensures OwnShard(s.runs, m, e, ReadShard(s.dir, m, e).value)
  {
  }

  /**
   No torn read.  At any point of any run, whatever the lock does, a shard that a
   reader accepts through the manifest it holds is the shard that the manifest's
   own discovery run handed over for that entity.
   */
  lemma NoTornRead(c: Config, steps: seq<Step>, p: Pid, e: Entity)
    requires AllHonest(c, steps)
    ensures var s := Run(c, INIT, steps);
            var q := ProcOf(s, p);
            q.Loaded? && ReadShard(s.dir, q.m, e).Some? ==>
              FromRun(s, q.m) && OwnShard(s.runs, q.m, e, ReadShard(s.dir, q.m, e).value)
  {
    ProvenanceRun(c, INIT, steps);
    LoadedHitIsOwn(c, Run(c, INIT, steps), p, e);
  }

  lemma LoadedHitIsOwn(c: Config, s: State, p: Pid, e: Entity)
    requires Provenance(c, s)
    ensures var q := ProcOf(s, p);
            q.Loaded? ==>
              && FromRun(s, q.m)
              && (ReadShard(s.dir, q.m, e).Some? ==> OwnShard(s.runs, q.m, e, ReadShard(s.dir, q.m, e).value))
  {
    var q := ProcOf(s, p);
    if q.Loaded? {
      assert KnownProc(s, s.procs[p]);
      if ReadShard(s.dir, q.m, e).Some? {
        HitIsOwn(c, s, q.m, e);
      }
    }
  }

  lemma {:induction false} RunsGrow(c: Config, s: State, steps: seq<Step>)
    ensures forall g :: g in s.runs ==>
              g in Run(c, s, steps).runs && Run(c, s, steps).runs[g] == s.runs[g]
    decreases |steps|
  {
    if steps != [] {
      RunsGrow(c, Next(c, s, steps[0]), steps[1..]);
      assert forall g :: g in s.runs ==>
          g in Next(c, s, steps[0]).runs && Next(c, s, steps[0]).runs[g] == s.runs[g];
    }
  }

  /** A manifest of a run is one of the same run later on. */
  lemma StillFromRun(c: Config, s: State, steps: seq<Step>, m: Manifest)
    requires FromRun(s, m)
    ensures FromRun(Run(c, s, steps), m) && Run(c, s, steps).runs[m.generation] == s.runs[m.generation]
  {
    RunsGrow(c, s, steps);
  }

  /**
   Coherence over time.  Shards accepted through one manifest at two different
   moments belong to one run, whatever was written, cleared or touched between;
   asking for the same entity twice gives the same shard (or a miss).
   */
  lemma HitsAgreeOverTime(c: Config, before: seq<Step>, after: seq<Step>, p: Pid, e: Entity, e': Entity)
    requires AllHonest(c, before) && AllHonest(c, after)
    ensures var s := Run(c, INIT, before);
            var s' := Run(c, s, after);
            var q := ProcOf(s, p);
            q.Loaded? && ReadShard(s.dir, q.m, e).Some? && ReadShard(s'.dir, q.m, e').Some? ==>
              && OwnShard(s'.runs, q.m, e, ReadShard(s.dir, q.m, e).value)
              && OwnShard(s'.runs, q.m, e', ReadShard(s'.dir, q.m, e').value)
              && (e == e' ==> ReadShard(s.dir, q.m, e) == ReadShard(s'.dir, q.m, e))
  {
    var s := Run(c, INIT, before);
    var q := ProcOf(s, p);
    ProvenanceRun(c, INIT, before);
    LoadedHitIsOwn(c, s, p, e);
    if q.Loaded? {
      LaterHitIsOwn(c, s, after, q.m, e');
    }
  }

  lemma LaterHitIsOwn(c: Config, s: State, steps: seq<Step>, m: Manifest, e: Entity)
    requires Provenance(c, s) && FromRun(s, m) && AllHonest(c, steps)
    ensures var s' := Run(c, s, steps);
            && m.generation in s'.runs && s'.runs[m.generation] == s.runs[m.generation]
            && (ReadShard(s'.dir, m, e).Some? ==> OwnShard(s'.runs, m, e, ReadShard(s'.dir, m, e).value))
  {
    ProvenanceRun(c, s, steps);
    StillFromRun(c, s, steps, m);
    if ReadShard(Run(c, s, steps).dir, m, e).Some? {
      HitIsOwn(c, Run(c, s, steps), m, e);
    }
  }

  // ------------------------------------------------------------------
  // Completeness: the index is published last
  // ------------------------------------------------------------------

  /** Discovery hands over complete sets, and nobody renames the directory away. */
  predicate Orderly(step: Step) {
    && !step.RenameAway?
    && (step.BeginWrite? ==> Stamped(step.run) && Complete(step.run))
  }

  /** A Touch or memo that writes back the run that is published now. */
  predicate CurrentRewrite(s: State, step: Step) {
    step.WriteBack? && ProcOf(s, step.p).Rewriting? ==>
      s.dir.index.Some? && ProcOf(s, step.p).m.generation == s.dir.index.value.generation
  }

  ghost predicate RewritesCurrent(c: Config, s: State, steps: seq<Step>)
    decreases |steps|
  {
    steps == [] || (CurrentRewrite(s, steps[0]) && RewritesCurrent(c, Next(c, s, steps[0]), steps[1..]))
  }

  predicate Locked(q: Proc) { q.Writing? || q.Rereading? || q.Rewriting? || q.Releasing? }

  /** Whoever is in its critical section is the one the lock names. */
  ghost predicate Exclusion(s: State) {
    forall p :: p in s.procs && Locked(s.procs[p]) ==>
      s.procs[p].inode == s.inode && s.inode in s.locks && s.locks[s.inode] == p
  }

  predicate Pending(q: Proc, g: string) { (q.WantsWrite? || q.Writing?) && q.run.generation == g }

  /** A run in progress is not published and belongs to one process. */
  ghost predicate RunsPending(s: State) {
    && (forall p, g :: p in s.procs && Pending(s.procs[p], g) ==> g !in s.published)
    && (forall p, o, g :: p in s.procs && o in s.procs && Pending(s.procs[p], g) && Pending(s.procs[o], g) ==> p == o)
    && s.published <= s.runs.Keys
    && s.ahead <= s.runs.Keys
    && s.ahead !! s.published
  }

  /** What a writer has crossed off is on disk. */
  ghost predicate WriterProgress(s: State, q: Proc) {
    q.Writing? ==>
      forall n :: n in q.run.shards && n !in q.todo ==> n in s.dir.shards && s.dir.shards[n] == q.run.shards[n]
  }

  /** The shard named for `e` is the index's own, or one a later, unpublished run wrote. */
  ghost predicate Indexed(s: State, m: Manifest, e: Entity)
    requires e in m.entities && m.generation in s.runs
  {
    var name := ShardRefOf(e, m.entities[e]);
    && name in s.dir.shards
    && (s.dir.shards[name].generation in s.ahead ||
        (name in s.runs[m.generation].shards && s.dir.shards[name] == s.runs[m.generation].shards[name]))
  }

  ghost predicate IndexBacked(s: State) {
    s.dir.index.Some? ==>
      var m := s.dir.index.value;
      && m.generation in s.published && m.generation in s.runs
      && forall e :: e in m.entities ==> Indexed(s, m, e)
  }

  ghost predicate RunsComplete(c: Config, s: State) {
    forall g :: g in s.runs ==> Stamped(s.runs[g]) && Complete(s.runs[g]) && Readable(c.scope, s.runs[g].manifest)
  }

  ghost predicate Ordered(c: Config, s: State) {
    && Provenance(c, s)
    && Exclusion(s)
    && RunsPending(s)
    && (forall p :: p in s.procs ==> WriterProgress(s, s.procs[p]))
    && IndexBacked(s)
    && RunsComplete(c, s)
  }

  /** The index stays backed when only names that are now ahead were rewritten. */
  lemma BackedFrame(s: State, s': State)
    requires IndexBacked(s) && s'.dir.index == s.dir.index
    requires s.published <= s'.published && s.ahead <= s'.ahead
    requires forall g :: g in s.runs ==> g in s'.runs && s'.runs[g] == s.runs[g]
    requires forall n :: n in s.dir.shards ==>
               n in s'.dir.shards && (s'.dir.shards[n] == s.dir.shards[n] || s'.dir.shards[n].generation in s'.ahead)
    ensures IndexBacked(s')
  {
    if s.dir.index.Some? {
      var m := s.dir.index.value;
      forall e | e in m.entities
        ensures Indexed(s', m, e)
      {
        assert Indexed(s, m, e);
      }
    }
  }

  /** Moving one process on, in or out of its critical section, keeps order. */
  lemma MoveOrdered(c: Config, s: State, s': State, p: Pid, q: Proc)
    requires Ordered(c, s) && KnownProc(s, q) && WriterProgress(s, q)
    requires s' == s.(procs := s.procs[p := q], locks := s'.locks)
    requires Locked(q) ==> q.inode == s.inode && s.inode in s'.locks && s'.locks[s.inode] == p
    requires forall o :: o != p && o in s.procs && Locked(s.procs[o]) ==>
               s.inode in s'.locks && s'.locks[s.inode] == o
    requires forall g :: Pending(q, g) ==> p in s.procs && Pending(s.procs[p], g)
    ensures Ordered(c, s')
  {
    MoveKnown(c, s, s', p, q);
    forall o | o in s'.procs
      ensures WriterProgress(s', s'.procs[o])
    {
      assert o == p || WriterProgress(s, s.procs[o]);
    }
    BackedFrame(s, s');
    PendingMoves(s, s', p, q);
  }

  lemma PendingMoves(s: State, s': State, p: Pid, q: Proc)
    requires RunsPending(s)
    requires s' == s.(procs := s.procs[p := q], locks := s'.locks)
    requires forall g :: Pending(q, g) ==> p in s.procs && Pending(s.procs[p], g)
    ensures RunsPending(s')
  {
    assert forall o, g :: o in s'.procs && Pending(s'.procs[o], g) ==> o in s.procs && Pending(s.procs[o], g);
  }

  lemma StopOrdered(c: Config, s: State, p: Pid)
    requires Ordered(c, s)
    ensures Ordered(c, Stop(s, p))
  {
    MoveOrdered(c, s, Stop(s, p), p, Idle);
  }

  lemma LockOrdered(c: Config, s: State, p: Pid, s': State)
    requires Ordered(c, s) && c.exclusive
    requires s' == DoLockForWrite(c, s, p) || s' == DoLockForRewrite(c, s, p)
    ensures Ordered(c, s')
  {
    if s' != s {
      assert KnownProc(s, s.procs[p]);
      MoveOrdered(c, s, s', p, s'.procs[p]);
    }
  }

  lemma ReadOrdered(c: Config, s: State, p: Pid, s': State)
    requires Ordered(c, s)
    requires s' == DoReadIndex(c, s, p) || s' == DoReread(c, s, p) || exists job :: s' == DoBeginRewrite(c, s, p, job)
    ensures Ordered(c, s')
  {
    if s' != s {
      MoveOrdered(c, s, s', p, s'.procs[p]);
    }
  }

  lemma BeginWriteOrdered(c: Config, s: State, p: Pid, run: DiscoverySet)
    requires Ordered(c, s) && Stamped(run) && Complete(run)
    ensures Ordered(c, DoBeginWrite(c, s, p, run))
  {
    var s' := DoBeginWrite(c, s, p, run);
    BeginWriteKnown(c, s, p, run);
    if s' != s {
      FreshProgress(s, s', p, run);
      BackedFrame(s, s');
      FreshPending(c, s, s', p, run);
      FreshComplete(c, s, s', run);
    }
  }

  lemma FreshComplete(c: Config, s: State, s': State, run: DiscoverySet)
    requires RunsComplete(c, s) && Stamped(run) && Complete(run) && Publishable(c.scope, run)
    requires s'.runs == s.runs[run.generation := run]
    ensures RunsComplete(c, s')
  {
  }

  lemma FreshProgress(s: State, s': State, p: Pid, run: DiscoverySet)
    requires forall o :: o in s.procs ==> WriterProgress(s, s.procs[o])
    requires s'.procs == s.procs[p := WantsWrite(run)] && s'.dir == s.dir
    ensures forall o :: o in s'.procs ==> WriterProgress(s', s'.procs[o])
  {
    forall o | o in s'.procs
      ensures WriterProgress(s', s'.procs[o])
    {
      assert o == p || WriterProgress(s, s.procs[o]);
    }
  }

  lemma FreshPending(c: Config, s: State, s': State, p: Pid, run: DiscoverySet)
    requires Provenance(c, s) && RunsPending(s) && run.generation !in s.runs
    requires s' == s.(procs := s.procs[p := WantsWrite(run)], runs := s.runs[run.generation := run])
    ensures RunsPending(s')
  {
    forall o, g | o in s'.procs && Pending(s'.procs[o], g)
      ensures if o == p then g == run.generation else g in s.runs && Pending(s.procs[o], g)
    {
      assert o == p || KnownProc(s, s.procs[o]);
    }
  }

  /** In a critical section a process is alone. */
  lemma Alone(s: State, p: Pid, o: Pid)
    requires Exclusion(s)
    ensures Locked(ProcOf(s, p)) && Locked(ProcOf(s, o)) ==> p == o
  {
  }

  lemma WriteShardOrdered(c: Config, s: State, p: Pid, name: string)
    requires Ordered(c, s)
    ensures Ordered(c, DoWriteShard(s, p, name))
  {
    var q := ProcOf(s, p);
    if q.Writing? && name in q.todo && name in q.run.shards {
      if !ValidShardRef(name) {
        StopOrdered(c, s, p);
      } else {
        WriteShardKnown(c, s, p, name);
        assert KnownProc(s, q) && Stamped(q.run);
        SafeShardOrdered(s, p, name, DoWriteShard(s, p, name));
      }
    }
  }

  lemma SafeShardOrdered(s: State, p: Pid, name: string, s': State)
    requires Exclusion(s) && RunsPending(s) && IndexBacked(s)
    requires forall o :: o in s.procs ==> WriterProgress(s, s.procs[o])
    requires p in s.procs && s.procs[p].Writing? && s.procs[p].run.generation in s.runs
    requires name in s.procs[p].todo && name in s.procs[p].run.shards
    requires s.procs[p].run.shards[name].generation == s.procs[p].run.generation
    requires s'.procs == s.procs[p := s.procs[p].(todo := s.procs[p].todo - {name})]
    requires s'.dir == s.dir.(shards := s.dir.shards[name := s.procs[p].run.shards[name]])
    requires s'.ahead == s.ahead + {s.procs[p].run.generation}
    requires s'.inode == s.inode && s'.locks == s.locks && s'.runs == s.runs && s'.published == s.published
    ensures Exclusion(s') && RunsPending(s') && IndexBacked(s')
    ensures forall o :: o in s'.procs ==> WriterProgress(s', s'.procs[o])
  {
    var q := s.procs[p];
    assert Pending(q, q.run.generation);
    BackedFrame(s, s');
    WritingPending(s, s', p, q.(todo := q.todo - {name}), q.run.generation);
    ShardProgress(s, s', p, name);
  }

  lemma ShardProgress(s: State, s': State, p: Pid, name: string)
    requires Exclusion(s) && p in s.procs && s.procs[p].Writing? && name in s.procs[p].run.shards
    requires forall o :: o in s.procs ==> WriterProgress(s, s.procs[o])
    requires s'.procs == s.procs[p := s.procs[p].(todo := s.procs[p].todo - {name})]
    requires s'.dir.shards == s.dir.shards[name := s.procs[p].run.shards[name]]
    ensures forall o :: o in s'.procs ==> WriterProgress(s', s'.procs[o])
  {
    forall o | o in s'.procs
      ensures WriterProgress(s', s'.procs[o])
    {
      assert WriterProgress(s, s.procs[o]);
      Alone(s, p, o);
    }
  }

  lemma WritingPending(s: State, s': State, p: Pid, q: Proc, g: string)
    requires RunsPending(s) && p in s.procs && Pending(s.procs[p], g) && Pending(q, g) && g in s.runs
    requires s'.procs == s.procs[p := q] && s'.runs == s.runs && s'.published == s.published
    requires s'.ahead == s.ahead + {g}
    ensures RunsPending(s')
  {
    assert forall o, h :: o in s'.procs && Pending(s'.procs[o], h) ==> o in s.procs && Pending(s.procs[o], h);
  }

  /** Publishing: everything the new index names is on disk, and nothing is ahead of it. */
  lemma WriteIndexOrdered(c: Config, s: State, p: Pid)
    requires Ordered(c, s)
    ensures Ordered(c, DoWriteIndex(s, p))
  {
    var q, s' := ProcOf(s, p), DoWriteIndex(s, p);
    if q.Writing? && q.todo == {} {
      assert KnownProc(s, q) && Pending(q, q.run.generation) && WriterProgress(s, q);
      SetIndexKnown(c, s, p, Releasing(q.inode), q.run.manifest, s');
      forall o | o in s'.procs
        ensures WriterProgress(s', s'.procs[o])
      {
        assert o == p || WriterProgress(s, s.procs[o]);
      }
      var m := q.run.manifest;
      assert Complete(q.run) && m.generation == q.run.generation;
      forall e | e in m.entities
        ensures Indexed(s', m, e)
      {
        var name := ShardRefOf(e, m.entities[e]);
        assert name in q.run.shards && name !in q.todo;
      }
      PublishedPending(s, s', p, q.inode, q.run.generation);
    }
  }

  lemma PublishedPending(s: State, s': State, p: Pid, inode: nat, g: string)
    requires RunsPending(s) && p in s.procs && Pending(s.procs[p], g) && g in s.runs
    requires s'.procs == s.procs[p := Releasing(inode)] && s'.runs == s.runs
    requires s'.published == s.published + {g} && s'.ahead == {}
    ensures RunsPending(s')
  {
    assert forall o, h :: o in s'.procs && Pending(s'.procs[o], h) ==> o != p && Pending(s.procs[o], h);
  }

  lemma WriteBackOrdered(c: Config, s: State, p: Pid, now: int, rest: string)
    requires Ordered(c, s) && CurrentRewrite(s, WriteBack(p, now, rest))
    ensures Ordered(c, DoWriteBack(s, p, now, rest))
  {
    var q, s' := ProcOf(s, p), DoWriteBack(s, p, now, rest);
    if q.Rewriting? {
      assert KnownProc(s, q);
      var m := Edited(q.m, q.job, now, rest);
      SetIndexKnown(c, s, p, Releasing(q.inode), m, s');
      forall o | o in s'.procs
        ensures WriterProgress(s', s'.procs[o])
      {
        assert o == p || WriterProgress(s, s.procs[o]);
      }
      var cur := s.dir.index.value;
      assert m.entities == cur.entities;
      forall e | e in m.entities
        ensures Indexed(s', m, e)
      {
        assert Indexed(s, cur, e);
      }
      PendingMoves(s, s.(procs := s'.procs), p, Releasing(q.inode));
    }
  }

  lemma OrderedStep(c: Config, s: State, step: Step)
    requires Ordered(c, s) && c.exclusive && Orderly(step) && CurrentRewrite(s, step)
    ensures Ordered(c, Next(c, s, step))
  {
    var s' := Next(c, s, step);
    match step
    case BeginWrite(p, run) => BeginWriteOrdered(c, s, p, run);
    case WriteShard(p, name) => WriteShardOrdered(c, s, p, name);
    case WriteIndex(p) => WriteIndexOrdered(c, s, p);
    case WriteBack(p, now, rest) => WriteBackOrdered(c, s, p, now, rest);
    case Release(p) => StopOrdered(c, s, p);
    case Abort(p) => StopOrdered(c, s, p);
    case ReadIndex(p) => ReadOrdered(c, s, p, s');
    case BeginRewrite(p, job) => ReadOrdered(c, s, p, s');
    case Reread(p) => ReadOrdered(c, s, p, s');
    case LockForWrite(p) => LockOrdered(c, s, p, s');
    case LockForRewrite(p) => LockOrdered(c, s, p, s');
  }

  lemma {:induction false} OrderedRun(c: Config, s: State, steps: seq<Step>)
    requires Ordered(c, s) && c.exclusive && RewritesCurrent(c, s, steps)
    requires forall i :: 0 <= i < |steps| ==> Orderly(steps[i])
    ensures Ordered(c, Run(c, s, steps))
    decreases |steps|
  {
    if steps != [] {
      OrderedStep(c, s, steps[0]);
      OrderedRun(c, Next(c, s, steps[0]), steps[1..]);
    }
  }

  /** A re-reading Touch or memo always writes back the run that is published. */
  lemma RereadIsCurrent(c: Config, s: State, step: Step)
    requires Held(c, s) && step.WriteBack?
    ensures CurrentRewrite(s, step)
  {
  }

  /** Under the lock, the run whose document was read again is still the one on disk. */
  ghost predicate Held(c: Config, s: State) {
    forall p :: p in s.procs && s.procs[p].Rewriting? ==>
      s.dir.index.Some? && s.procs[p].m.generation == s.dir.index.value.generation
  }

  lemma HeldStep(c: Config, s: State, step: Step)
    requires Exclusion(s) && Held(c, s) && c.touchRereads && c.memoRereads && !step.RenameAway?
    ensures Held(c, Next(c, s, step))
  {
    var s' := Next(c, s, step);
    forall o | o in s'.procs && s'.procs[o].Rewriting?
      ensures s'.dir.index.Some? && s'.procs[o].m.generation == s'.dir.index.value.generation
    {
      if step.WriteIndex? || step.WriteBack? {
        Alone(s, step.p, o);
      }
    }
  }

  lemma {:induction false} RereadingKeepsCurrent(c: Config, s: State, steps: seq<Step>)
    requires Ordered(c, s) && Held(c, s) && c.exclusive && c.touchRereads && c.memoRereads
    requires forall i :: 0 <= i < |steps| ==> Orderly(steps[i])
    ensures RewritesCurrent(c, s, steps)
    decreases |steps|
  {
    if steps != [] {
      if steps[0].WriteBack? {
        RereadIsCurrent(c, s, steps[0]);
      }
      OrderedStep(c, s, steps[0]);
      HeldStep(c, s, steps[0]);
      RereadingKeepsCurrent(c, Next(c, s, steps[0]), steps[1..]);
    }
  }

  /** What an index promises its readers: hits, except for shards of a later run not yet published. */
  ghost predicate IndexHits(c: Config, s: State) {
    s.dir.index.Some? ==>
      var m := s.dir.index.value;
      && ReadManifest(c.scope, s.dir) == Some(m)
      && m.generation in s.runs
      && forall e :: e in m.entities ==> EntityHits(s, m, e)
  }

  ghost predicate EntityHits(s: State, m: Manifest, e: Entity)
    requires e in m.entities && m.generation in s.runs
  {
    var name := ShardRefOf(e, m.entities[e]);
    || (name in s.runs[m.generation].shards && ReadShard(s.dir, m, e) == Some(s.runs[m.generation].shards[name]))
    || (name in s.dir.shards && s.dir.shards[name].generation in s.ahead - s.published)
  }

  lemma OrderedHits(c: Config, s: State)
    requires Ordered(c, s)
    ensures IndexHits(c, s)
  {
    if s.dir.index.Some? {
      var m := s.dir.index.value;
      assert Complete(s.runs[m.generation]);
      forall e | e in m.entities
        ensures EntityHits(s, m, e)
      {
        assert Indexed(s, m, e);
        assert ShardRefOf(e, m.entities[e]) in s.runs[m.generation].shards;
      }
    }
  }

  /**
   Index last.  With the lock exclusive, no rename, and every Touch and memo writing
   back the run that is published, the index on disk is always readable, and each
   entity it names either hits with the shard of the index's own run or holds the
   shard of a later run that has not published.  With no such run (`ahead` empty)
   every entity hits.
   */
  lemma IndexLast(c: Config, steps: seq<Step>)
    requires c.exclusive && RewritesCurrent(c, INIT, steps)
    requires forall i :: 0 <= i < |steps| ==> Orderly(steps[i])
    ensures IndexHits(c, Run(c, INIT, steps))
  {
    OrderedRun(c, INIT, steps);
    OrderedHits(c, Run(c, INIT, steps));
  }

  /** The same, unconditionally, when Touch and memo read again under the lock. */
  lemma IndexLastWithReread(c: Config, steps: seq<Step>)
    requires c.exclusive && c.touchRereads && c.memoRereads
    requires forall i :: 0 <= i < |steps| ==> Orderly(steps[i])
    ensures IndexHits(c, Run(c, INIT, steps))
  {
    RereadingKeepsCurrent(c, INIT, steps);
    IndexLast(c, steps);
  }

  /** The moment WriteSet publishes, every entity of its index hits with its own shard. */
  lemma PublicationHits(c: Config, steps: seq<Step>, p: Pid, e: Entity)
    requires c.exclusive && RewritesCurrent(c, INIT, steps)
    requires forall i :: 0 <= i < |steps| ==> Orderly(steps[i])
    ensures var s := Run(c, INIT, steps);
            var q := ProcOf(s, p);
            var d := DoWriteIndex(s, p).dir;
            q.Writing? && q.todo == {} ==>
              && ReadManifest(c.scope, d) == Some(q.run.manifest)
              && (e in q.run.manifest.entities ==>
                    var name := ShardRefOf(e, q.run.manifest.entities[e]);
                    name in q.run.shards && ReadShard(d, q.run.manifest, e) == Some(q.run.shards[name]))
  {
    OrderedRun(c, INIT, steps);
    PublishingHits(c, Run(c, INIT, steps), p, e);
  }

  lemma PublishingHits(c: Config, s: State, p: Pid, e: Entity)
    requires Ordered(c, s)
    ensures var q := ProcOf(s, p);
            var d := DoWriteIndex(s, p).dir;
            q.Writing? && q.todo == {} ==>
              && ReadManifest(c.scope, d) == Some(q.run.manifest)
              && (e in q.run.manifest.entities ==>
                    var name := ShardRefOf(e, q.run.manifest.entities[e]);
                    name in q.run.shards && ReadShard(d, q.run.manifest, e) == Some(q.run.shards[name]))
  {
    var q := ProcOf(s, p);
    if q.Writing? && q.todo == {} {
      PublishedRun(c, s, p);
      NothingAheadHits(c, DoWriteIndex(s, p), e);
    }
  }

  lemma PublishedRun(c: Config, s: State, p: Pid)
    requires Ordered(c, s) && ProcOf(s, p).Writing? && ProcOf(s, p).todo == {}
    ensures var s' := DoWriteIndex(s, p);
            var run := ProcOf(s, p).run;
            && Ordered(c, s') && s'.ahead == {} && s'.dir.index == Some(run.manifest)
            && KnownRun(s', run) && run.manifest.generation == run.generation
  {
    assert KnownProc(s, ProcOf(s, p));
    WriteIndexOrdered(c, s, p);
  }

  lemma NothingAheadHits(c: Config, s: State, e: Entity)
    requires Ordered(c, s) && s.ahead == {} && s.dir.index.Some?
    ensures var m := s.dir.index.value;
            && m.generation in s.runs
            && ReadManifest(c.scope, s.dir) == Some(m)
            && (e in m.entities ==>
                  var name := ShardRefOf(e, m.entities[e]);
                  && name in s.runs[m.generation].shards
                  && ReadShard(s.dir, m, e) == Some(s.runs[m.generation].shards[name]))
  {
    OrderedHits(c, s);
    var m := s.dir.index.value;
    if e in m.entities {
      assert EntityHits(s, m, e);
    }
  }

  // ------------------------------------------------------------------
  // Touch and memo as shipped: read, then lock, then write
  // ------------------------------------------------------------------

  /** The run handed over, for `e`, a shard that its own index accepts. */
  predicate Backs(run: DiscoverySet, e: Entity) {
    e in run.manifest.entities &&
    var name := ShardRefOf(e, run.manifest.entities[e]);
    && ValidShardRef(name) && name in run.shards
    && Matches(run.manifest, e, run.manifest.entities[e], run.shards[name])
  }

  /**
   The exact condition, in any state a run can reach.  Of an entity that hits now,
   writing back the index that was read keeps a hit if and only if the run read is
   still the published one, or that run backed the entity, under the name of another
   file, which still carries that run's generation.  In every other case, so whenever
   both indexes name the same file, the entity becomes a miss.
   */
  lemma LateRewriteKeepsHitIff(c: Config, s: State, p: Pid, now: int, rest: string, e: Entity)
    requires Provenance(c, s) && s.dir.index.Some? && ProcOf(s, p).Rewriting?
    requires ReadShard(s.dir, s.dir.index.value, e).Some?
    ensures var d := DoWriteBack(s, p, now, rest).dir;
            var cur, m := s.dir.index.value, ProcOf(s, p).m;
            && d.index.Some? && m.generation in s.runs
            && (ReadShard(d, d.index.value, e).Some? <==>
                  || m.generation == cur.generation
                  || (Backs(s.runs[m.generation], e) && ElsewhereStill(s.dir, cur, m, e)))
  {
    var q := ProcOf(s, p);
    SameGenerationSameIndex(c, s, p);
    LateReadIff(c, s, s.dir.index.value, q.m, Edited(q.m, q.job, now, rest), e);
  }

  lemma LateReadIff(c: Config, s: State, cur: Manifest, m: Manifest, m': Manifest, e: Entity)
    requires Provenance(c, s) && FromRun(s, m) && ReadShard(s.dir, cur, e).Some? && SameIndex(m', m)
    requires m.generation == cur.generation ==> m.entities == cur.entities
    ensures ReadShard(s.dir.(index := Some(m')), m', e).Some? <==>
              || m.generation == cur.generation
              || (Backs(s.runs[m.generation], e) && ElsewhereStill(s.dir, cur, m, e))
  {
    RewriteReadIff(s.dir, s.dir.(index := Some(m')), cur, m, m', e);
    if e in m.entities {
      OwnReadIff(c, s, m, e);
    }
  }

  /** The older index names another file for `e`, and the file there is of the older index's generation. */
  predicate ElsewhereStill(d: Dir, cur: Manifest, m: Manifest, e: Entity)
    requires e in cur.entities
  {
    e in m.entities &&
    var name := ShardRefOf(e, m.entities[e]);
    name != ShardRefOf(e, cur.entities[e]) && name in d.shards && d.shards[name].generation == m.generation
  }

  /** A read through an index finds the shard its run backs the entity with, or nothing. */
  lemma OwnReadIff(c: Config, s: State, m: Manifest, e: Entity)
    requires Provenance(c, s) && FromRun(s, m) && e in m.entities
    ensures var name := ShardRefOf(e, m.entities[e]);
            ReadShard(s.dir, m, e).Some? <==>
            Backs(s.runs[m.generation], e) && name in s.dir.shards && s.dir.shards[name].generation == m.generation
  {
    var name := ShardRefOf(e, m.entities[e]);
    if name in s.dir.shards {
      assert ShardKnown(s, name, s.dir.shards[name]);
    }
  }

  lemma SameGenerationSameIndex(c: Config, s: State, p: Pid)
    requires Provenance(c, s) && s.dir.index.Some? && ProcOf(s, p).Rewriting?
    ensures FromRun(s, ProcOf(s, p).m)
    ensures ProcOf(s, p).m.generation == s.dir.index.value.generation ==>
              ProcOf(s, p).m.entities == s.dir.index.value.entities
  {
    assert KnownProc(s, s.procs[p]);
    if ProcOf(s, p).m.generation == s.dir.index.value.generation {
      SameRunSameEntities(s, ProcOf(s, p).m, s.dir.index.value);
    }
  }

  lemma SameRunSameEntities(s: State, m: Manifest, cur: Manifest)
    requires FromRun(s, m) && FromRun(s, cur) && m.generation == cur.generation
    ensures m.entities == cur.entities
  {
  }

  lemma RewriteReadIff(d: Dir, d': Dir, cur: Manifest, m: Manifest, m': Manifest, e: Entity)
    requires ReadShard(d, cur, e).Some? && d' == d.(index := Some(m')) && SameIndex(m', m)
    requires m.generation == cur.generation ==> m.entities == cur.entities
    ensures ReadShard(d', m', e).Some? <==>
              || m.generation == cur.generation
              || (e in m.entities && ShardRefOf(e, m.entities[e]) != ShardRefOf(e, cur.entities[e])
                  && ReadShard(d, m, e).Some?)
  {
  }

  /** One whole WriteSet by process `p`, its shards in the order `names`. */
  function Script(p: Pid, run: DiscoverySet, names: seq<string>): seq<Step> {
    [BeginWrite(p, run), LockForWrite(p)] + ShardScript(p, names) + [WriteIndex(p), Release(p)]
  }

  function ShardScript(p: Pid, names: seq<string>): (r: seq<Step>)
    ensures |r| == |names|
  {
    if names == [] then [] else [WriteShard(p, names[0])] + ShardScript(p, names[1..])
  }

  function Pick(shards: map<string, Shard>, keys: set<string>): map<string, Shard> {
    map n | n in keys && n in shards :: shards[n]
  }

  lemma PickOne(d: map<string, Shard>, shards: map<string, Shard>, keys: set<string>, n: string)
    requires n in keys && n in shards
    ensures d[n := shards[n]] + Pick(shards, keys - {n}) == d + Pick(shards, keys)
  {
  }

  lemma {:induction false} ShardScriptRuns(c: Config, s: State, p: Pid, names: seq<string>, run: DiscoverySet,
                                           todo: set<string>, inode: nat)
    requires ProcOf(s, p) == Writing(run, todo, inode) && forall n :: n in run.shards ==> ValidShardRef(n)
    requires Enumerates(names, todo) && todo <= run.shards.Keys
    ensures var s' := Run(c, s, ShardScript(p, names));
            && s'.procs == s.procs[p := Writing(run, {}, inode)]
            && s'.dir == s.dir.(shards := s.dir.shards + Pick(run.shards, todo))
            && s'.inode == s.inode && s'.locks == s.locks && s'.runs == s.runs
    decreases |names|
  {
    if names == [] {
      assert todo == {};
      assert s.procs[p := Writing(run, {}, inode)] == s.procs;
      assert s.dir.shards + Pick(run.shards, {}) == s.dir.shards;
    } else {
      var n0, rest := names[0], todo - {names[0]};
      var s1 := DoWriteShard(s, p, n0);
      assert n0 in todo;
      assert ProcOf(s1, p) == Writing(run, rest, inode);
      assert Enumerates(names[1..], rest) by {
        assert forall n :: n in names ==> n == n0 || n in names[1..];
      }
      ShardScriptRuns(c, s1, p, names[1..], run, rest, inode);
      PickOne(s.dir.shards, run.shards, todo, n0);
      assert ShardScript(p, names)[1..] == ShardScript(p, names[1..]);
      assert s1.procs[p := Writing(run, {}, inode)] == s.procs[p := Writing(run, {}, inode)];
    }
  }

  predicate Enumerates(names: seq<string>, keys: set<string>) {
    && keys == (set n | n in names)
    && forall i, j :: 0 <= i < j < |names| ==> names[i] != names[j]
  }

  lemma RunOne(c: Config, s: State, step: Step)
    ensures Run(c, s, [step]) == Next(c, s, step)
  {
    assert Run(c, Next(c, s, step), [step][1..]) == Next(c, s, step);
  }

  lemma RunTwo(c: Config, s: State, a: Step, b: Step)
    ensures Run(c, s, [a, b]) == Next(c, Next(c, s, a), b)
  {
    assert [a, b] == [a] + [b];
    RunConcat(c, s, [a], [b]);
    RunOne(c, s, a);
    RunOne(c, Next(c, s, a), b);
  }

  function Started(c: Config, s: State, p: Pid, run: DiscoverySet): State {
    Next(c, Next(c, s, BeginWrite(p, run)), LockForWrite(p))
  }

  function Finished(c: Config, s: State, p: Pid): State {
    Next(c, Next(c, s, WriteIndex(p)), Release(p))
  }

  predicate CanStart(c: Config, s: State, p: Pid, run: DiscoverySet) {
    && ProcOf(s, p).Idle? && s.inode !in s.locks && run.generation !in s.runs
    && Publishable(c.scope, run)
  }

  lemma StartWriteSet(c: Config, s: State, p: Pid, run: DiscoverySet)
    requires CanStart(c, s, p, run)
    ensures var s' := Started(c, s, p, run);
            && ProcOf(s', p) == Writing(run, run.shards.Keys, s.inode)
            && s'.procs == s.procs[p := ProcOf(s', p)]
            && s'.dir == s.dir && s'.inode == s.inode
            && s'.locks == s.locks[s.inode := p] && s'.runs == s.runs[run.generation := run]
  {
  }

  lemma FinishWriteSet(c: Config, s: State, p: Pid, run: DiscoverySet, inode: nat)
    requires ProcOf(s, p) == Writing(run, {}, inode) && inode in s.locks && s.locks[inode] == p
    ensures var s' := Finished(c, s, p);
            && s'.procs == s.procs[p := Idle]
            && s'.dir == s.dir.(index := Some(run.manifest)) && s'.inode == s.inode
            && s'.locks == s.locks - {inode} && s'.runs == s.runs && s'.ahead == {}
  {
  }

  /** Left alone, a WriteSet that finds the lock free publishes its whole set. */
  lemma SoloWriteSet(c: Config, s: State, p: Pid, run: DiscoverySet, names: seq<string>)
    requires CanStart(c, s, p, run) && Enumerates(names, run.shards.Keys)
    requires forall n :: n in run.shards ==> ValidShardRef(n)
    ensures var s' := Run(c, s, Script(p, run, names));
            && s'.dir == Dir(Some(run.manifest), s.dir.shards + run.shards)
            && s'.inode == s.inode && s'.inode !in s'.locks && s'.runs == s.runs[run.generation := run]
            && s'.procs == s.procs[p := Idle] && s'.ahead == {}
  {
    ScriptRuns(c, s, p, run, names);
    StartWriteSet(c, s, p, run);
    var s2 := Started(c, s, p, run);
    ShardScriptRuns(c, s2, p, names, run, run.shards.Keys, s.inode);
    FinishWriteSet(c, Run(c, s2, ShardScript(p, names)), p, run, s.inode);
    assert Pick(run.shards, run.shards.Keys) == run.shards;
  }

  lemma ScriptRuns(c: Config, s: State, p: Pid, run: DiscoverySet, names: seq<string>)
    ensures Run(c, s, Script(p, run, names)) ==
            Finished(c, Run(c, Started(c, s, p, run), ShardScript(p, names)), p)
  {
    var head, mid, tail := [BeginWrite(p, run), LockForWrite(p)], ShardScript(p, names), [WriteIndex(p), Release(p)];
    assert Script(p, run, names) == head + (mid + tail);
    RunTwo(c, s, head[0], head[1]);
    RunConcat(c, s, head, mid + tail);
    var s2 := Run(c, s, head);
    RunConcat(c, s2, mid, tail);
    RunTwo(c, Run(c, s2, mid), tail[0], tail[1]);
  }

  /** One whole Touch or memo by process `p`. */
  function RewriteScript(c: Config, p: Pid, job: Job, now: int, rest: string): seq<Step> {
    [BeginRewrite(p, job), LockForRewrite(p)] + (if Rereads(c, job) then [Reread(p)] else [])
    + [WriteBack(p, now, rest), Release(p)]
  }

  /** Left alone, a Touch or a memo that finds the lock free writes back the index it finds and nothing else. */
  lemma SoloRewrite(c: Config, s: State, p: Pid, job: Job, now: int, rest: string)
    requires ProcOf(s, p).Idle? && s.inode !in s.locks && ReadManifest(c.scope, s.dir).Some?
    ensures var s' := Run(c, s, RewriteScript(c, p, job, now, rest));
            && s'.dir == s.dir.(index := Some(Edited(s.dir.index.value, job, now, rest)))
            && ReadManifest(c.scope, s'.dir) == s'.dir.index
            && s'.inode == s.inode && s'.inode !in s'.locks && s'.runs == s.runs && s'.procs == s.procs[p := Idle]
            && forall e :: ReadShard(s'.dir, s'.dir.index.value, e) == ReadShard(s.dir, s.dir.index.value, e)
  {
    RewriteRuns(c, s, p, job, now, rest);
    LockedRewrite(c, s, p, job);
    FinishRewrite(c, ReadyToWrite(c, s, p, job), p, s.dir.index.value, job, now, rest);
    assert s.locks[s.inode := p] - {s.inode} == s.locks;
    assert s.procs[p := Rewriting(s.dir.index.value, job, s.inode)][p := Idle] == s.procs[p := Idle];
  }

  /** The state in which the document to write is in hand. */
  function ReadyToWrite(c: Config, s: State, p: Pid, job: Job): State {
    var locked := Next(c, Next(c, s, BeginRewrite(p, job)), LockForRewrite(p));
    if Rereads(c, job) then Next(c, locked, Reread(p)) else locked
  }

  lemma LockedRewrite(c: Config, s: State, p: Pid, job: Job)
    requires ProcOf(s, p).Idle? && s.inode !in s.locks && ReadManifest(c.scope, s.dir).Some?
    ensures ReadyToWrite(c, s, p, job) ==
            s.(procs := s.procs[p := Rewriting(s.dir.index.value, job, s.inode)], locks := s.locks[s.inode := p])
  {
  }

  lemma RewriteRuns(c: Config, s: State, p: Pid, job: Job, now: int, rest: string)
    ensures Run(c, s, RewriteScript(c, p, job, now, rest)) ==
            Next(c, Next(c, ReadyToWrite(c, s, p, job), WriteBack(p, now, rest)), Release(p))
  {
    var head, tail := [BeginRewrite(p, job), LockForRewrite(p)], [WriteBack(p, now, rest), Release(p)];
    var mid := if Rereads(c, job) then [Reread(p)] else [];
    assert RewriteScript(c, p, job, now, rest) == head + (mid + tail);
    RunConcat(c, s, head, mid + tail);
    RunTwo(c, s, head[0], head[1]);
    RunConcat(c, Run(c, s, head), mid, tail);
    RunOne(c, Run(c, s, head), Reread(p));
    RunTwo(c, ReadyToWrite(c, s, p, job), tail[0], tail[1]);
  }

  /** One write of either: Touch changes the index it read in confirmed_at alone, the memo in its record alone. */
  lemma WriteBackIs(c: Config, s: State, p: Pid, now: int, rest: string)
    requires ProcOf(s, p).Rewriting?
    ensures var m, s' := ProcOf(s, p).m, Next(c, s, WriteBack(p, now, rest));
            && (ProcOf(s, p).job.Touch? ==> s'.dir == s.dir.(index := Some(m.(confirmedAt := now))))
            && (ProcOf(s, p).job.Memo? ==> s'.dir == s.dir.(index := Some(m.(rest := rest))))
  {
  }

  /** So an undisturbed Touch restarts the freshness window and changes nothing else in the directory. */
  lemma SoloTouch(c: Config, s: State, p: Pid, now: int)
    requires ProcOf(s, p).Idle? && s.inode !in s.locks && ReadManifest(c.scope, s.dir).Some?
    ensures Run(c, s, RewriteScript(c, p, Touch, now, "")).dir ==
            s.dir.(index := Some(s.dir.index.value.(confirmedAt := now)))
  {
    SoloRewrite(c, s, p, Touch, now, "");
  }

  /** And an undisturbed memo changes nothing but what lies outside the entities. */
  lemma SoloMemo(c: Config, s: State, p: Pid, rest: string)
    requires ProcOf(s, p).Idle? && s.inode !in s.locks && ReadManifest(c.scope, s.dir).Some?
    ensures Run(c, s, RewriteScript(c, p, Memo, 0, rest)).dir ==
            s.dir.(index := Some(s.dir.index.value.(rest := rest)))
  {
    SoloRewrite(c, s, p, Memo, 0, rest);
  }

  /** A process that dies or fails in its critical section leaves the lock free for the next. */
  lemma AbortFrees(c: Config, s: State, p: Pid)
    requires Exclusion(s) && Locked(ProcOf(s, p))
    ensures var s' := Next(c, s, Abort(p));
            s'.inode !in s'.locks && s'.dir == s.dir && ProcOf(s', p).Idle?
  {
  }

  /** Clearing a scope takes the index, every shard and the lock file away, under whoever uses them. */
  lemma ClearEmpties(s: State)
    ensures var s' := DoRenameAway(s);
            s'.dir.index.None? && s'.dir.shards == map[] && s'.inode != s.inode && s'.procs == s.procs
  {
  }

  lemma FinishRewrite(c: Config, s: State, p: Pid, m: Manifest, job: Job, now: int, rest: string)
    requires ProcOf(s, p) == Rewriting(m, job, s.inode) && s.inode in s.locks && s.locks[s.inode] == p
    ensures var s' := Next(c, Next(c, s, WriteBack(p, now, rest)), Release(p));
            && s'.dir == s.dir.(index := Some(Edited(m, job, now, rest))) && s'.inode == s.inode
            && s'.locks == s.locks - {s.inode} && s'.runs == s.runs && s'.procs == s.procs[p := Idle]
  {
  }

  /**
   The shipped order moves the index back.  Touch or the memo reads run `a`'s index,
   run `b` is published, and `a`'s index is then written over it: the published
   entity, a hit a moment before, is a miss, and no run is under way to excuse it.
   */
  lemma LateRewriteRegresses(c: Config, job: Job, a: DiscoverySet, b: DiscoverySet, na: seq<string>, nb: seq<string>,
                             e: Entity, now: int, rest: string)
    requires c.exclusive && !Rereads(c, job)
    requires Publishable(c.scope, a) && Complete(a) && Stamped(a) && Enumerates(na, a.shards.Keys)
    requires Publishable(c.scope, b) && Complete(b) && Stamped(b) && Enumerates(nb, b.shards.Keys)
    requires a.generation != b.generation
    requires e in a.manifest.entities && e in b.manifest.entities
    requires ShardRefOf(e, a.manifest.entities[e]) == ShardRefOf(e, b.manifest.entities[e])
    ensures var s := Run(c, INIT, Script(0, a, na) + [BeginRewrite(1, job)] + Script(0, b, nb));
            var s' := Run(c, s, [LockForRewrite(1), WriteBack(1, now, rest)]);
            && s.dir.index == Some(b.manifest)
            && ReadShard(s.dir, b.manifest, e).Some?
            && s'.dir.index == Some(Edited(a.manifest, job, now, rest))
            && ReadShard(s'.dir, Edited(a.manifest, job, now, rest), e).None?
            && s'.ahead == {} && !IndexHits(c, s')
  {
    PublishReadPublish(c, job, a, b, na, nb);
    var s := Run(c, INIT, Script(0, a, na) + [BeginRewrite(1, job)] + Script(0, b, nb));
    var m := Edited(a.manifest, job, now, rest);
    RunTwo(c, s, LockForRewrite(1), WriteBack(1, now, rest));
    LateRewrite(c, s, 1, a.manifest, job, now, rest);
    PublishedHit(s.dir, b, e);
    StaleMiss(s.dir.(index := Some(m)), m, b, e);
    MissIsNoHit(c, Run(c, s, [LockForRewrite(1), WriteBack(1, now, rest)]), m, e);
  }

  lemma MissIsNoHit(c: Config, s: State, m: Manifest, e: Entity)
    requires s.dir.index == Some(m) && e in m.entities && ReadShard(s.dir, m, e).None? && s.ahead == {}
    ensures !IndexHits(c, s)
  {
    assert m.generation in s.runs ==> !EntityHits(s, m, e);
  }

  lemma PublishReadPublish(c: Config, job: Job, a: DiscoverySet, b: DiscoverySet, na: seq<string>, nb: seq<string>)
    requires a.generation != b.generation
    requires Publishable(c.scope, a) && Complete(a) && Enumerates(na, a.shards.Keys)
    requires Publishable(c.scope, b) && Complete(b) && Enumerates(nb, b.shards.Keys)
    ensures var s := Run(c, INIT, Script(0, a, na) + [BeginRewrite(1, job)] + Script(0, b, nb));
            && ProcOf(s, 1) == WantsRewrite(a.manifest, job) && s.inode !in s.locks && s.ahead == {}
            && s.dir == Dir(Some(b.manifest), a.shards + b.shards)
  {
    PublishThenRead(c, job, a, b, na);
    SoloWriteSet(c, Next(c, Run(c, INIT, Script(0, a, na)), BeginRewrite(1, job)), 0, b, nb);
    RunAround(c, INIT, Script(0, a, na), BeginRewrite(1, job), Script(0, b, nb));
  }

  lemma PublishThenRead(c: Config, job: Job, a: DiscoverySet, b: DiscoverySet, na: seq<string>)
    requires a.generation != b.generation && Publishable(c.scope, b)
    requires Publishable(c.scope, a) && Complete(a) && Enumerates(na, a.shards.Keys)
    ensures var s := Next(c, Run(c, INIT, Script(0, a, na)), BeginRewrite(1, job));
            CanStart(c, s, 0, b) && s.dir.shards == a.shards && ProcOf(s, 1) == WantsRewrite(a.manifest, job)
  {
    SoloWriteSet(c, INIT, 0, a, na);
    assert map[] + a.shards == a.shards;
    ReadPublished(c, Run(c, INIT, Script(0, a, na)), job, a, b);
  }

  lemma ReadPublished(c: Config, s: State, job: Job, a: DiscoverySet, b: DiscoverySet)
    requires Publishable(c.scope, a) && s.dir.index == Some(a.manifest) && s.procs == map[0 := Idle]
    requires CanStart(c, s, 0, b)
    ensures var s' := Next(c, s, BeginRewrite(1, job));
            CanStart(c, s', 0, b) && s'.dir == s.dir && ProcOf(s', 1) == WantsRewrite(a.manifest, job)
  {
  }

  lemma RunAround(c: Config, s: State, before: seq<Step>, step: Step, after: seq<Step>)
    ensures Run(c, s, before + [step] + after) == Run(c, Next(c, Run(c, s, before), step), after)
  {
    RunConcat(c, s, before, [step]);
    RunOne(c, Run(c, s, before), step);
    RunConcat(c, s, before + [step], after);
  }

  lemma LateRewrite(c: Config, s: State, p: Pid, m: Manifest, job: Job, now: int, rest: string)
    requires ProcOf(s, p) == WantsRewrite(m, job) && s.inode !in s.locks && !Rereads(c, job)
    ensures var s' := Next(c, Next(c, s, LockForRewrite(p)), WriteBack(p, now, rest));
            s'.dir == s.dir.(index := Some(Edited(m, job, now, rest))) && s'.ahead == s.ahead
  {
  }

  /** A step of a writer that hands over what it should, or of a Touch or memo before it writes. */
  predicate Calm(step: Step) { Orderly(step) && !step.WriteBack? }

  ghost predicate AllCalm(steps: seq<Step>) { forall i :: 0 <= i < |steps| ==> Calm(steps[i]) }

  lemma {:induction false} ShardsCalm(p: Pid, names: seq<string>)
    ensures AllCalm(ShardScript(p, names))
  {
    if names != [] {
      ShardsCalm(p, names[1..]);
    }
  }

  lemma ScriptCalm(p: Pid, run: DiscoverySet, names: seq<string>)
    requires Stamped(run) && Complete(run)
    ensures AllCalm(Script(p, run, names))
  {
    ShardsCalm(p, names);
  }

  lemma {:induction false} CalmRewrites(c: Config, s: State, steps: seq<Step>)
    requires AllCalm(steps)
    ensures RewritesCurrent(c, s, steps)
    decreases |steps|
  {
    if steps != [] {
      assert Calm(steps[0]);
      CalmRewrites(c, Next(c, s, steps[0]), steps[1..]);
    }
  }

  /** That run reaches, with its next step the late write, a state of the kind LateRewriteKeepsHitIff is about. */
  lemma LateRewriteIsTheCase(c: Config, job: Job, a: DiscoverySet, b: DiscoverySet, na: seq<string>, nb: seq<string>)
    requires c.exclusive && !Rereads(c, job) && a.generation != b.generation
    requires Publishable(c.scope, a) && Complete(a) && Stamped(a) && Enumerates(na, a.shards.Keys)
    requires Publishable(c.scope, b) && Complete(b) && Stamped(b) && Enumerates(nb, b.shards.Keys)
    ensures var s := Run(c, INIT, Script(0, a, na) + [BeginRewrite(1, job)] + Script(0, b, nb) + [LockForRewrite(1)]);
            && Ordered(c, s) && s.ahead == {} && s.dir.index == Some(b.manifest)
            && ProcOf(s, 1).Rewriting? && ProcOf(s, 1).m == a.manifest
  {
    RegressionCalm(job, a, b, na, nb);
    PublishReadPublish(c, job, a, b, na, nb);
    LockLate(c, Script(0, a, na) + [BeginRewrite(1, job)] + Script(0, b, nb), 1, a.manifest, job);
  }

  lemma RegressionCalm(job: Job, a: DiscoverySet, b: DiscoverySet, na: seq<string>, nb: seq<string>)
    requires Stamped(a) && Complete(a) && Stamped(b) && Complete(b)
    ensures AllCalm(Script(0, a, na) + [BeginRewrite(1, job)] + Script(0, b, nb))
  {
    ScriptCalm(0, a, na);
    ScriptCalm(0, b, nb);
    CalmConcat(Script(0, a, na), [BeginRewrite(1, job)]);
    CalmConcat(Script(0, a, na) + [BeginRewrite(1, job)], Script(0, b, nb));
  }

  lemma CalmConcat(a: seq<Step>, b: seq<Step>)
    requires AllCalm(a) && AllCalm(b)
    ensures AllCalm(a + b)
  {
  }

  /** Taking the lock after a calm run, with the index in hand. */
  lemma LockLate(c: Config, steps: seq<Step>, p: Pid, m: Manifest, job: Job)
    requires c.exclusive && !Rereads(c, job) && AllCalm(steps)
    requires var s := Run(c, INIT, steps); ProcOf(s, p) == WantsRewrite(m, job) && s.inode !in s.locks && s.ahead == {}
    ensures var s, s' := Run(c, INIT, steps), Run(c, INIT, steps + [LockForRewrite(p)]);
            && Ordered(c, s') && s'.ahead == {} && s'.dir == s.dir
            && ProcOf(s', p).Rewriting? && ProcOf(s', p).m == m
  {
    CalmConcat(steps, [LockForRewrite(p)]);
    CalmRun(c, steps + [LockForRewrite(p)]);
    LockNext(c, steps, p, m, job);
  }

  lemma CalmRun(c: Config, steps: seq<Step>)
    requires c.exclusive && AllCalm(steps)
    ensures Ordered(c, Run(c, INIT, steps))
  {
    CalmRewrites(c, INIT, steps);
    OrderedRun(c, INIT, steps);
  }

  lemma LockNext(c: Config, steps: seq<Step>, p: Pid, m: Manifest, job: Job)
    requires !Rereads(c, job)
    requires var s := Run(c, INIT, steps); ProcOf(s, p) == WantsRewrite(m, job) && s.inode !in s.locks
    ensures var s, s' := Run(c, INIT, steps), Run(c, INIT, steps + [LockForRewrite(p)]);
            && s'.ahead == s.ahead && s'.dir == s.dir && ProcOf(s', p).Rewriting? && ProcOf(s', p).m == m
  {
    RunConcat(c, INIT, steps, [LockForRewrite(p)]);
    RunOne(c, Run(c, INIT, steps), LockForRewrite(p));
  }

  lemma PublishedHit(d: Dir, b: DiscoverySet, e: Entity)
    requires Complete(b) && e in b.manifest.entities
    requires forall n :: n in b.shards ==> n in d.shards && d.shards[n] == b.shards[n]
    ensures ReadShard(d, b.manifest, e).Some?
  {
  }

  lemma StaleMiss(d: Dir, m: Manifest, b: DiscoverySet, e: Entity)
    requires Complete(b) && Stamped(b) && e in b.manifest.entities && e in m.entities
    requires ShardRefOf(e, m.entities[e]) == ShardRefOf(e, b.manifest.entities[e])
    requires m.generation != b.generation
    requires forall n :: n in b.shards ==> n in d.shards && d.shards[n] == b.shards[n]
    ensures ReadShard(d, m, e).None?
  {
    assert ShardRefOf(e, m.entities[e]) in b.shards;
  }

  // ------------------------------------------------------------------
  // Which sets are safe to publish
  // ------------------------------------------------------------------

  /** A reader accepts a shard that the run of its manifest did not hand over. */
  ghost predicate Torn(s: State, p: Pid, e: Entity) {
    var q := ProcOf(s, p);
    q.Loaded? && ReadShard(s.dir, q.m, e).Some? && !OwnShard(s.runs, q.m, e, ReadShard(s.dir, q.m, e).value)
  }

  /** Steps in which nobody but the publishers of `b` hands over shards of another run's stamp. */
  ghost predicate HonestBut(c: Config, steps: seq<Step>, b: DiscoverySet) {
    forall i :: 0 <= i < |steps| ==> HonestOr(c, steps[i], b)
  }

  predicate HonestOr(c: Config, step: Step, b: DiscoverySet) { Honest(c, step) || (step.BeginWrite? && step.run == b) }

  /** Handing `b` to WriteSet never leads to a torn read. */
  ghost predicate NeverTears(c: Config, b: DiscoverySet) {
    forall steps, p, e :: HonestBut(c, steps, b) ==> !Torn(Run(c, INIT, steps), p, e)
  }

  /**
   The exact condition.  WriteSet checks the generation of the manifest only, so a
   set it accepts can be published without ever tearing a read if and only if none of
   its shards carries the generation another run could have.
   */
  lemma StampingIff(c: Config, b: DiscoverySet)
    requires Publishable(c.scope, b)
    ensures NeverTears(c, b) <==> WellStamped(b)
  {
    if WellStamped(b) {
      forall steps, p, e | HonestBut(c, steps, b)
        ensures !Torn(Run(c, INIT, steps), p, e)
      {
        NoTornRead(c, steps, p, e);
      }
    } else {
      var n :| n in b.shards && ValidShardRef(n)
               && b.shards[n].generation != b.generation && Generation.IsGeneration(b.shards[n].generation);
      UnstampedShardTears(c, b, n);
    }
  }

  /** A run of one entity, with one shard at `name`. */
  function OneShard(scope: string, generation: string, e: Entity, name: string, body: string): DiscoverySet {
    DiscoverySet(generation, Manifest(MANIFEST_VERSION, generation, scope, 0, map[e := EntityRef("", name)], ""),
                 map[name := Shard(generation, "", "", body)])
  }

  /** The entity that run indexes, and the run: the generation is the one on the foreign shard. */
  function Victim(sh: Shard): Entity { Entity(sh.slug, Collection) }

  function VictimRun(scope: string, sh: Shard, name: string): DiscoverySet {
    OneShard(scope, sh.generation, Victim(sh), name, sh.body + ".")
  }

  /** Publishing the victim's run, and then as much of `b` as the one shard, with a reader at the end. */
  function TearingRun(scope: string, b: DiscoverySet, name: string): seq<Step>
    requires name in b.shards
  {
    Script(0, VictimRun(scope, b.shards[name], name), [name])
    + [BeginWrite(1, b), LockForWrite(1), WriteShard(1, name), ReadIndex(2)]
  }

  /**
   Any other set tears one: a run of the generation on the foreign shard is published,
   the set gets as far as that shard, and a reader of the run's index accepts it.
   */
  lemma UnstampedShardTears(c: Config, b: DiscoverySet, name: string)
    requires Publishable(c.scope, b) && name in b.shards && ValidShardRef(name)
    requires b.shards[name].generation != b.generation && Generation.IsGeneration(b.shards[name].generation)
    ensures HonestBut(c, TearingRun(c.scope, b, name), b)
    ensures var s := Run(c, INIT, TearingRun(c.scope, b, name));
            Torn(s, 2, Victim(b.shards[name]))
            && ReadShard(s.dir, ProcOf(s, 2).m, Victim(b.shards[name])) == Some(b.shards[name])
  {
    var sh := b.shards[name];
    var a := VictimRun(c.scope, sh, name);
    VictimPublished(c, sh, name);
    var s := Run(c, INIT, Script(0, a, [name]));
    RunConcat(c, INIT, Script(0, a, [name]), [BeginWrite(1, b), LockForWrite(1), WriteShard(1, name), ReadIndex(2)]);
    ForeignShard(c, s, a, b, name);
    TearingHonest(c, a, b, name);
    AcceptedForeign(Run(c, INIT, TearingRun(c.scope, b, name)), c.scope, sh, name);
  }

  lemma VictimPublished(c: Config, sh: Shard, name: string)
    requires ValidShardRef(name) && Generation.IsGeneration(sh.generation)
    ensures var a := VictimRun(c.scope, sh, name);
            var s := Run(c, INIT, Script(0, a, [name]));
            && Stamped(a) && s.runs == map[sh.generation := a] && s.dir.index == Some(a.manifest)
            && ReadManifest(c.scope, s.dir).Some? && s.inode !in s.locks && s.procs == map[0 := Idle]
  {
    var a := VictimRun(c.scope, sh, name);
    OneShardIs(c.scope, sh.generation, Victim(sh), name, sh.body + ".");
    SoloWriteSet(c, INIT, 0, a, [name]);
  }

  lemma AcceptedForeign(s: State, scope: string, sh: Shard, name: string)
    requires ValidShardRef(name) && Generation.IsGeneration(sh.generation)
    requires name in s.dir.shards && s.dir.shards[name] == sh
    requires var a := VictimRun(scope, sh, name);
             ProcOf(s, 2) == Loaded(a.manifest) && sh.generation in s.runs && s.runs[sh.generation] == a
    ensures Torn(s, 2, Victim(sh)) && ReadShard(s.dir, ProcOf(s, 2).m, Victim(sh)) == Some(sh)
  {
    OneShardIs(scope, sh.generation, Victim(sh), name, sh.body + ".");
    assert |sh.body + "."| != |sh.body|;
  }

  lemma ForeignShard(c: Config, s: State, a: DiscoverySet, b: DiscoverySet, name: string)
    requires s.dir.index == Some(a.manifest) && ReadManifest(c.scope, s.dir).Some?
    requires CanStart(c, s, 1, b) && ProcOf(s, 2).Idle? && name in b.shards && ValidShardRef(name)
    requires s.runs == map[a.generation := a]
    ensures var s' := Run(c, s, [BeginWrite(1, b), LockForWrite(1), WriteShard(1, name), ReadIndex(2)]);
            && s'.dir == s.dir.(shards := s.dir.shards[name := b.shards[name]])
            && ProcOf(s', 2) == Loaded(a.manifest) && a.generation in s'.runs && s'.runs[a.generation] == a
  {
    var head, tail := [BeginWrite(1, b), LockForWrite(1)], [WriteShard(1, name), ReadIndex(2)];
    assert head + tail == [BeginWrite(1, b), LockForWrite(1), WriteShard(1, name), ReadIndex(2)];
    RunConcat(c, s, head, tail);
    RunTwo(c, s, head[0], head[1]);
    StartWriteSet(c, s, 1, b);
    RunTwo(c, Started(c, s, 1, b), tail[0], tail[1]);
    ShardThenRead(c, Started(c, s, 1, b), b, name, s.inode);
  }

  lemma ShardThenRead(c: Config, s: State, b: DiscoverySet, name: string, inode: nat)
    requires ProcOf(s, 1) == Writing(b, b.shards.Keys, inode) && name in b.shards && ValidShardRef(name)
    requires ProcOf(s, 2).Idle? && ReadManifest(c.scope, s.dir).Some?
    ensures var s' := Next(c, Next(c, s, WriteShard(1, name)), ReadIndex(2));
            && s'.dir == s.dir.(shards := s.dir.shards[name := b.shards[name]])
            && ProcOf(s', 2) == Loaded(s.dir.index.value) && s'.runs == s.runs
  {
  }

  lemma TearingHonest(c: Config, a: DiscoverySet, b: DiscoverySet, name: string)
    requires Stamped(a)
    ensures HonestBut(c, Script(0, a, [name])
                         + [BeginWrite(1, b), LockForWrite(1), WriteShard(1, name), ReadIndex(2)], b)
  {
    ScriptHonest(c, 0, a, [name], b);
    ForeignHonest(c, b, name);
    HonestConcat(c, Script(0, a, [name]), [BeginWrite(1, b), LockForWrite(1), WriteShard(1, name), ReadIndex(2)], b);
  }

  lemma ScriptHonest(c: Config, p: Pid, run: DiscoverySet, names: seq<string>, b: DiscoverySet)
    requires Stamped(run)
    ensures HonestBut(c, Script(p, run, names), b)
  {
    ShardsHonest(c, p, names, b);
  }

  lemma ForeignHonest(c: Config, b: DiscoverySet, name: string)
    ensures HonestBut(c, [BeginWrite(1, b), LockForWrite(1), WriteShard(1, name), ReadIndex(2)], b)
  {
  }

  lemma {:induction false} ShardsHonest(c: Config, p: Pid, names: seq<string>, b: DiscoverySet)
    ensures HonestBut(c, ShardScript(p, names), b)
  {
    if names != [] {
      ShardsHonest(c, p, names[1..], b);
    }
  }

  lemma HonestConcat(c: Config, first: seq<Step>, rest: seq<Step>, b: DiscoverySet)
    requires HonestBut(c, first, b) && HonestBut(c, rest, b)
    ensures HonestBut(c, first + rest, b)
  {
  }

  lemma OneShardIs(scope: string, generation: string, e: Entity, name: string, body: string)
    requires Generation.IsGeneration(generation) && ValidShardRef(name)
    ensures var r := OneShard(scope, generation, e, name, body);
            && Publishable(scope, r) && Enumerates([name], r.shards.Keys) && Complete(r) && Stamped(r)
            && ShardRefOf(e, r.manifest.entities[e]) == name
  {
    assert name != "" by {
      assert "fields/" <= name;
    }
  }
}
