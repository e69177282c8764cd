/**
 The staleness ladder of one invocation: Revalidate (internal/cache/ttl.go) and
 the Session methods that apply its outcome (internal/cache/store.go).

 The question is when a confirmation is honest: Confirm restarts the freshness
 window of the manifest on disk, so it should only happen when the probe returned
 the topology that the session's manifest records.
 */
module Revalidation {
  import opened Wrappers

  datatype Manifest = Manifest(topology: string, id: int)

  /** How the Level-1 probe ended; a failed probe may still have returned a fingerprint. */
  datatype Probe = NoProbe | Answer(fp: string) | Failed(fp: string) | OutOfBudget

  datatype Discovery = Hit | Miss | Disabled | StaleServed | Revalidated

  datatype Outcome = Outcome(discovery: Discovery, refresh: bool, confirm: bool, warned: bool, fingerprint: string)

  /** The fields of Session this ladder reads and writes; `touches` are the calls of Store.Touch. */
  datatype View = View(
    noCache: bool,
    storeEnabled: bool,
    manifest: Option<Manifest>,
    topology: Option<string>,
    mode: Discovery,
    warnings: nat,
    touches: seq<int>)

  /** Revalidate: steps 3, 4 and 5 of the ladder. */
  function Ladder(cached: string, probe: Probe): Outcome {
    match probe
    case Answer(fp) =>
      if fp == cached && fp != "" then Outcome(StaleServed, false, true, false, fp)
      else Outcome(Revalidated, true, false, false, fp)
    case _ => Outcome(StaleServed, false, false, true, "")
  }

  /** RevalidateWrite's variant: what cannot be confirmed is refreshed, never served stale. */
  function WriteLadder(cached: string, probe: Probe): Outcome {
    match probe
    case Answer(fp) =>
      if fp == cached && fp != "" then Outcome(StaleServed, false, true, false, fp)
      else Outcome(Revalidated, true, false, false, fp)
    case Failed(fp) => Outcome(Revalidated, true, false, false, fp)
    case _ => Outcome(Revalidated, true, false, false, "")
  }

  /** A read is confirmed by the cached fingerprint, refreshed by any other answer, else served stale with a warning. */
  lemma ReadIff(cached: string, probe: Probe)
    ensures var r := Ladder(cached, probe);
            && (r.confirm <==> cached != "" && probe == Answer(cached))
            && (r.refresh <==> probe.Answer? && !r.confirm)
            && (r.warned <==> !probe.Answer?)
            && (r.discovery == if r.refresh then Revalidated else StaleServed)
            && r.fingerprint == if probe.Answer? then probe.fp else ""
  {
  }

  /** A write that cannot be confirmed is refreshed, and what a failed probe did learn is kept. */
  lemma WriteIff(cached: string, probe: Probe)
    ensures var r := WriteLadder(cached, probe);
            && (r.confirm <==> cached != "" && probe == Answer(cached))
            && (r.refresh <==> !r.confirm) && !r.warned
            && (r.discovery == if r.refresh then Revalidated else StaleServed)
            && r.fingerprint == if probe.Answer? || probe.Failed? then probe.fp else ""
  {
  }

  /** What a session keeps of an outcome. */
  lemma AppliedIs(v: View, r: Outcome, now: int)
    ensures var v' := Applied(v, r, now);
            && (r.fingerprint != "" ==> v'.topology == Some(r.fingerprint))
            && (r.fingerprint == "" ==> v'.topology == v.topology)
            && (!v.noCache ==> v'.mode == r.discovery) && (v.noCache ==> v'.mode == v.mode)
            && v'.warnings == v.warnings + (if r.warned then 1 else 0)
            && (r.confirm && !v.noCache && v.storeEnabled ==> v'.touches == v.touches + [now])
            && (!r.confirm || v.noCache || !v.storeEnabled ==> v'.touches == v.touches)
            && v'.manifest == v.manifest
  {
  }

  /** cachedTopology: the memo wins over the manifest. */
  function Cached(v: View): string {
    if v.topology.Some? then v.topology.value
    else if v.manifest.Some? then v.manifest.value.topology
    else ""
  }

  function Applied(v: View, r: Outcome, now: int): View {
    v.(topology := if r.fingerprint != "" then Some(r.fingerprint) else v.topology,
    mode := if v.noCache then v.mode else r.discovery,
    warnings := v.warnings + if r.warned then 1 else 0,
    touches := v.touches + if r.confirm && !v.noCache && v.storeEnabled then [now] else [])
  }

  class Session {
    const noCache: bool
    const storeEnabled: bool
    var manifest: Option<Manifest>
    var topology: string
    var topologyOK: bool
    var mode: Discovery
    var warnings: nat
    var touches: seq<int>

    function Now(): View
      reads this
    {
      View(noCache, storeEnabled, manifest, if topologyOK then Some(topology) else None, mode, warnings, touches)
    }

    constructor (noCache: bool, storeEnabled: bool)
      ensures Now() == View(noCache, storeEnabled, None, None, if noCache then Disabled else Miss, 0, [])
    {
      this.noCache, this.storeEnabled := noCache, storeEnabled;
      manifest := None;
      topology, topologyOK := "", false;
      mode := if noCache then Disabled else Miss;
      warnings, touches := 0, [];
    }

    method SetManifest(m: Manifest)
      modifies this
      ensures Now() == old(Now()).(manifest := Some(m))
    {
      manifest := Some(m);
    }

    method SetTopology(fp: string)
      modifies this
      ensures Now() == old(Now()).(topology := Some(fp))
    {
      topology, topologyOK := fp, true;
    }

    method SetDiscoveryMode(d: Discovery)
      modifies this
      ensures Now() == old(Now()).(mode := if noCache then old(mode) else d)
    {
      if !noCache {
        mode := d;
      }
    }

    method CachedTopology() returns (fp: string)
      ensures fp == Cached(Now())
    {
      if topologyOK {
        return topology;
      }
      if manifest.Some? {
        return manifest.value.topology;
      }
      return "";
    }

    method ApplyRevalidation(r: Outcome, now: int)
      modifies this
      ensures Now() == Applied(old(Now()), r, now)
    {
      if r.fingerprint != "" {
        SetTopology(r.fingerprint);
      }
      SetDiscoveryMode(r.discovery);
      if r.warned {
        warnings := warnings + 1;
      }
      if r.confirm && !noCache && storeEnabled {
        touches := touches + [now];
      }
    }

    method RevalidateRead(probe: Probe, now: int) returns (r: Outcome)
      modifies this
      ensures r == Ladder(Cached(old(Now())), probe)
      ensures Now() == Applied(old(Now()), r, now)
    {
      var cached := CachedTopology();
      r := Ladder(cached, probe);
      ApplyRevalidation(r, now);
    }

    method RevalidateWrite(probe: Probe, now: int) returns (r: Outcome)
      modifies this
      ensures r == WriteLadder(Cached(old(Now())), probe)
      ensures Now() == Applied(old(Now()), r, now)
    {
      var cached := CachedTopology();
      r := WriteLadder(cached, probe);
      ApplyRevalidation(r, now);
    }
  }

  // ------------------------------------------------------------------
  // Honest confirmations
  // ------------------------------------------------------------------

  /** The probe returned the topology the session's manifest records. */
  predicate Honest(v: View, r: Outcome) {
    r.confirm ==> v.manifest.Some? && v.manifest.value.topology == r.fingerprint
  }

  /** The memo, where it says anything, is the manifest's topology. */
  predicate Aligned(v: View) {
    v.topology.Some? && v.topology.value != "" ==> v.manifest.Some? && v.manifest.value.topology == v.topology.value
  }

  datatype Op =
    | Read(probe: Probe, now: int)
    | Write(probe: Probe, now: int)
    | PutManifest(m: Manifest)
    | PutTopology(fp: string)

  function OutcomeOf(v: View, op: Op): Outcome
    requires op.Read? || op.Write?
  {
    if op.Read? then Ladder(Cached(v), op.probe) else WriteLadder(Cached(v), op.probe)
  }

  function Perform(v: View, op: Op): View {
    match op
    case PutManifest(m) => v.(manifest := Some(m))
    case PutTopology(fp) => v.(topology := Some(fp))
    case _ => Applied(v, OutcomeOf(v, op), op.now)
  }

  /** The exact condition on one call: no probe can cause a dishonest confirmation iff memo and manifest agree. */
  lemma HonestIffAligned(v: View)
    ensures (forall op: Op :: op.Read? || op.Write? ==> Honest(v, OutcomeOf(v, op))) <==> Aligned(v)
  {
    if !Aligned(v) {
      var op := Read(Answer(v.topology.value), 0);
      assert !Honest(v, OutcomeOf(v, op));
    }
  }

  /** Memo and manifest agree at every revalidation of the run. */
  predicate AlignedThroughout(v: View, ops: seq<Op>)
    decreases |ops|
  {
    ops == [] || ((ops[0].Read? || ops[0].Write? ==> Aligned(v)) && AlignedThroughout(Perform(v, ops[0]), ops[1..]))
  }

  /** The same calls, whatever the probes answer and the clock says. */
  predicate SameCall(a: Op, b: Op) { if a.Read? then b.Read? else if a.Write? then b.Write? else a == b }

  ghost predicate SameCalls(a: seq<Op>, b: seq<Op>) { |a| == |b| && forall i :: 0 <= i < |a| ==> SameCall(a[i], b[i]) }

  /**
   The exact contract over whole runs.  A sequence of calls confirms honestly whatever
   the server answers if and only if memo and manifest agree at each of its
   revalidations whatever the server answers.
   */
  lemma HonestRunsIff(v: View, ops: seq<Op>)
    ensures (forall run :: SameCalls(ops, run) ==> AllHonest(v, run))
            <==> (forall run :: SameCalls(ops, run) ==> AlignedThroughout(v, run))
  {
    forall run | AlignedThroughout(v, run)
      ensures AllHonest(v, run)
    {
      AlignedIsHonest(v, run);
    }
    forall run | SameCalls(ops, run) && !AlignedThroughout(v, run)
      ensures exists other :: SameCalls(ops, other) && !AllHonest(v, other)
    {
      var other := Misled(v, run);
    }
  }

  lemma {:induction false} AlignedIsHonest(v: View, ops: seq<Op>)
    requires AlignedThroughout(v, ops)
    ensures AllHonest(v, ops)
    decreases |ops|
  {
    if ops != [] {
      HonestIffAligned(v);
      AlignedIsHonest(Perform(v, ops[0]), ops[1..]);
    }
  }

  /** Where they first disagree, the answer the memo expects is confirmed dishonestly. */
  lemma {:induction false} Misled(v: View, ops: seq<Op>) returns (other: seq<Op>)
    requires !AlignedThroughout(v, ops)
    ensures SameCalls(ops, other) && !AllHonest(v, other)
    decreases |ops|
  {
    var op := ops[0];
    if (op.Read? || op.Write?) && !Aligned(v) {
      var memo := Answer(v.topology.value);
      var answer := if op.Read? then Read(memo, op.now) else Write(memo, op.now);
      other := [answer] + ops[1..];
      assert !Honest(v, OutcomeOf(v, other[0]));
    } else {
      var rest := Misled(Perform(v, op), ops[1..]);
      other := [op] + rest;
      assert other[1..] == rest;
    }
  }

  predicate ManifestIs(v: View, fp: string) { v.manifest.Some? && v.manifest.value.topology == fp }

  /**
   What is owed after an operation: a refresh's fingerprint that is not the
   manifest's, until the manifest of that fingerprint is in place.
   */
  function OwedAfter(v: View, owed: Option<string>, op: Op): Option<string> {
    match op
    case PutManifest(m) => if owed == Some(m.topology) then None else owed
    case PutTopology(fp) => owed
    case _ =>
      var r := OutcomeOf(v, op);
      if r.refresh && r.fingerprint != "" && !ManifestIs(v, r.fingerprint) then Some(r.fingerprint) else owed
  }

  /**
   A contract that secures this, on the calls alone.  With nothing owed, a manifest may be
   replaced only by one whose topology the memo has (or by any, while the memo says
   nothing), and a topology recorded only when it is the manifest's.  With a
   refresh's fingerprint owed, neither may change but by the manifest of that
   fingerprint, and no revalidation may come before it.
   */
  predicate Allowed(v: View, owed: Option<string>, op: Op) {
    match op
    case PutManifest(m) => if owed.Some? then owed == Some(m.topology) else Memo(v) == "" || m.topology == Memo(v)
    case PutTopology(fp) => owed.None? && (fp == "" || ManifestIs(v, fp))
    case _ => owed.None?
  }

  function Memo(v: View): string { if v.topology.Some? then v.topology.value else "" }

  predicate Disciplined(v: View, owed: Option<string>, ops: seq<Op>)
    decreases |ops|
  {
    ops == [] || (Allowed(v, owed, ops[0]) && Disciplined(Perform(v, ops[0]), OwedAfter(v, owed, ops[0]), ops[1..]))
  }

  predicate AllHonest(v: View, ops: seq<Op>)
    decreases |ops|
  {
    ops == [] ||
    ((ops[0].Read? || ops[0].Write? ==> Honest(v, OutcomeOf(v, ops[0]))) && AllHonest(Perform(v, ops[0]), ops[1..]))
  }

  /** Memo and manifest agree, but for the manifest that is owed. */
  predicate Settled(v: View, owed: Option<string>) {
    if owed.Some? then v.topology == owed && owed.value != "" else Aligned(v)
  }

  lemma StaysSettled(v: View, owed: Option<string>, op: Op)
    requires Settled(v, owed) && Allowed(v, owed, op)
    ensures Settled(Perform(v, op), OwedAfter(v, owed, op))
    ensures op.Read? || op.Write? ==> Aligned(v)
  {
  }

  /** In a session that keeps it, memo and manifest agree at every revalidation, so every confirmation is honest. */
  lemma {:induction false} DisciplinedIsHonest(v: View, owed: Option<string>, ops: seq<Op>)
    requires Settled(v, owed) && Disciplined(v, owed, ops)
    ensures AlignedThroughout(v, ops) && AllHonest(v, ops)
    decreases |ops|
  {
    if ops != [] {
      StaysSettled(v, owed, ops[0]);
      HonestIffAligned(v);
      DisciplinedIsHonest(Perform(v, ops[0]), OwedAfter(v, owed, ops[0]), ops[1..]);
    }
  }

  /** A new session starts settled, with nothing owed. */
  lemma FreshSessionIsHonest(noCache: bool, storeEnabled: bool, ops: seq<Op>)
    requires Disciplined(View(noCache, storeEnabled, None, None, if noCache then Disabled else Miss, 0, []), None, ops)
    ensures AllHonest(View(noCache, storeEnabled, None, None, if noCache then Disabled else Miss, 0, []), ops)
  {
    DisciplinedIsHonest(View(noCache, storeEnabled, None, None, if noCache then Disabled else Miss, 0, []), None, ops);
  }

  /**
   What the contract asks for in practice: a revalidation that does not ask for a
   refresh with a new fingerprint leaves memo and manifest agreeing, and one that
   does is repaired by exactly the manifests of the fingerprint it returned.
   */
  lemma OnlyRefreshMisaligns(v: View, op: Op, m: Manifest)
    requires Aligned(v) && (op.Read? || op.Write?)
    ensures var r := OutcomeOf(v, op);
            var v' := Perform(v, op);
            && (Aligned(v') <==> !(r.refresh && r.fingerprint != "" &&
                                   (v.manifest.None? || v.manifest.value.topology != r.fingerprint)))
            && (r.refresh && r.fingerprint != "" ==>
                  (Aligned(Perform(v', PutManifest(m))) <==> m.topology == r.fingerprint))
  {
  }

  /** Which manifest and which topology, recorded by the caller, leave memo and manifest agreeing. */
  lemma RecordedIff(v: View, m: Manifest, fp: string)
    ensures Aligned(Perform(v, PutManifest(m))) <==> Memo(v) == "" || m.topology == Memo(v)
    ensures Aligned(Perform(v, PutTopology(fp))) <==> fp == "" || ManifestIs(v, fp)
  {
  }

  /**
   The contract is needed.  The server's topology became `fp`; the first call asks
   for a refresh, the manifest is not replaced, and the second call, on the same
   answer, confirms and touches the manifest that was just found stale.
   */
  lemma StaleManifestConfirmed(v: View, m: Manifest, fp: string, now: int)
    requires v.manifest == Some(m) && v.topology.None? && !v.noCache && v.storeEnabled
    requires fp != "" && fp != m.topology
    ensures OutcomeOf(v, Read(Answer(fp), now)).refresh
    ensures var v1 := Perform(v, Read(Answer(fp), now));
            var r := OutcomeOf(v1, Read(Answer(fp), now));
            && r.confirm && !r.refresh && !Honest(v1, r)
            && Perform(v1, Read(Answer(fp), now)).touches == v.touches + [now]
  {
  }

  /** A touch is recorded exactly for a confirmation of a session that persists. */
  lemma {:induction false} TouchesAreConfirmations(v: View, ops: seq<Op>)
    ensures |PerformAll(v, ops).touches| == |v.touches| + Confirmations(v, ops)
    ensures PerformAll(v, ops).noCache == v.noCache && PerformAll(v, ops).storeEnabled == v.storeEnabled
    decreases |ops|
  {
    if ops != [] {
      TouchesAreConfirmations(Perform(v, ops[0]), ops[1..]);
    }
  }

  function PerformAll(v: View, ops: seq<Op>): View
    decreases |ops|
  {
    if ops == [] then v else PerformAll(Perform(v, ops[0]), ops[1..])
  }

  function Confirmations(v: View, ops: seq<Op>): nat
    decreases |ops|
  {
    if ops == [] then 0 else
      (if (ops[0].Read? || ops[0].Write?) && OutcomeOf(v, ops[0]).confirm && !v.noCache && v.storeEnabled then 1 else 0)
      + Confirmations(Perform(v, ops[0]), ops[1..])
  }
}
