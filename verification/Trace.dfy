/**
 What one invocation of the CLI did, in order, and what that order promises
 (internal/cli/create.go, internal/cli/backup.go): confirmations, backups, audit
 records and requests.
 */
module Trace {
  import opened Wrappers
  import opened Patch
  import opened Restore
  import opened IdMatch

  /** The documents of the collection, by the id the server prints. */
  type Docs = map<string, State>

  /** What does not change during an invocation. */
  datatype World = World(sv: Service, drafts: bool, scrub: Fields -> Fields, backupsOn: bool, auditOn: bool)

  /**
   `at` counts the requests sent before the event; `op` numbers the write
   operations, one per request or dry run.
   */
  datatype Event =
    | Confirmed
    | Stored(key: string, file: nat, at: nat)
    | NotThere(id: string, at: nat)
    | Pre(op: nat)
    | Sent(op: nat, ids: seq<string>, created: seq<string>, at: nat)
    | Post(op: nat, ok: bool)

  predicate Timed(e: Event) { e.Stored? || e.NotThere? || e.Sent? }

  /** The file a backup of `key` holds; a key that is not the printed id has no published state looked up for it. */
  function RecordFor(w: World, key: string, s: State): Record {
    var full := Capture(s, w.drafts, w.scrub);
    if key == w.sv.canon(key) then full else full.(published := None)
  }

  // ------------------------------------------------------------------
  // Order
  // ------------------------------------------------------------------

  ghost predicate Before(a: Event, b: Event) { Timed(a) && Timed(b) ==> if a.Sent? then a.at < b.at else a.at <= b.at }

  ghost predicate NotAfter(e: Event, now: nat) { Timed(e) ==> if e.Sent? then e.at < now else e.at <= now }

  /** Events carry the number of requests sent before them. */
  ghost predicate Clocked(trace: seq<Event>, now: nat) {
    && (forall j :: 0 <= j < |trace| ==> NotAfter(trace[j], now))
    && (forall i, j :: 0 <= i < j < |trace| ==> Before(trace[i], trace[j]))
  }

  lemma ClockedAppend(trace: seq<Event>, now: nat, e: Event)
    requires Clocked(trace, now) && (Timed(e) ==> e.at == now)
    ensures Clocked(trace + [e], if e.Sent? then now + 1 else now)
  {
    var t := trace + [e];
    forall i, j | 0 <= i < j < |t|
      ensures Before(t[i], t[j])
    {
      if j == |trace| {
        assert NotAfter(trace[i], now);
      }
    }
    forall j | 0 <= j < |t|
      ensures NotAfter(t[j], if e.Sent? then now + 1 else now)
    {
      if j < |trace| {
        assert NotAfter(trace[j], now);
      }
    }
  }

  // ------------------------------------------------------------------
  // Backups
  // ------------------------------------------------------------------

  ghost predicate KeyAt(trace: seq<Event>, j: int, key: string) {
    0 <= j < |trace| && trace[j].Stored? && trace[j].key == key
  }

  ghost predicate FileAt(trace: seq<Event>, j: int, file: nat) {
    0 <= j < |trace| && trace[j].Stored? && trace[j].file == file
  }

  ghost predicate HasKey(trace: seq<Event>, key: string) { exists j :: KeyAt(trace, j, key) }

  ghost predicate HasFile(trace: seq<Event>, file: nat) { exists j :: FileAt(trace, j, file) }

  lemma StillThere(trace: seq<Event>, e: Event, key: string, file: nat)
    ensures HasKey(trace, key) || (e.Stored? && e.key == key) ==> HasKey(trace + [e], key)
    ensures HasFile(trace, file) || (e.Stored? && e.file == file) ==> HasFile(trace + [e], file)
  {
    if HasKey(trace, key) {
      var j :| KeyAt(trace, j, key);
      assert KeyAt(trace + [e], j, key);
    } else if e.Stored? && e.key == key {
      assert KeyAt(trace + [e], |trace|, key);
    }
    if HasFile(trace, file) {
      var j :| FileAt(trace, j, file);
      assert FileAt(trace + [e], j, file);
    } else if e.Stored? && e.file == file {
      assert FileAt(trace + [e], |trace|, file);
    }
  }

  /** A backup holds what the server held, and a document reported missing was. */
  ghost predicate Honest(w: World, e: Event, seen: map<string, nat>, files: seq<Record>, states: seq<Docs>) {
    && (e.Stored? ==>
          && (e.key == w.sv.canon(e.key) || !w.sv.Pairable(e.key))
          && e.at < |states| && w.sv.canon(e.key) in states[e.at] && e.file < |files|
          && e.key in seen && seen[e.key] == e.file
          && files[e.file] == RecordFor(w, e.key, states[e.at][w.sv.canon(e.key)]))
    && (e.NotThere? ==> e.at < |states| && w.sv.canon(e.id) !in states[e.at])
  }

  /** One file for each key, and no other files. */
  ghost predicate BackupsOk(w: World, trace: seq<Event>, seen: map<string, nat>, files: seq<Record>,
                            states: seq<Docs>) {
    && (forall j :: 0 <= j < |trace| ==> Honest(w, trace[j], seen, files, states))
    && (forall i, j :: 0 <= i < j < |trace| && trace[i].Stored? && trace[j].Stored? ==>
          trace[i].key != trace[j].key && trace[i].file != trace[j].file)
    && (forall k :: k in seen ==> HasKey(trace, k))
    && (forall f: nat :: f < |files| ==> HasFile(trace, f))
  }

  lemma BackupsKeep(w: World, trace: seq<Event>, seen: map<string, nat>, files: seq<Record>, states: seq<Docs>,
                    e: Event, states': seq<Docs>)
    requires BackupsOk(w, trace, seen, files, states) && states <= states'
    requires !e.Stored? && Honest(w, e, seen, files, states')
    ensures BackupsOk(w, trace + [e], seen, files, states')
  {
    var t := trace + [e];
    forall j | 0 <= j < |t|
      ensures Honest(w, t[j], seen, files, states')
    {
      if j < |trace| {
        assert Honest(w, trace[j], seen, files, states);
      }
    }
    forall k | k in seen
      ensures HasKey(t, k)
    {
      StillThere(trace, e, k, 0);
    }
    forall f: nat | f < |files|
      ensures HasFile(t, f)
    {
      StillThere(trace, e, "", f);
    }
  }

  lemma BackupsAdd(w: World, trace: seq<Event>, seen: map<string, nat>, files: seq<Record>, states: seq<Docs>,
                   key: string, at: nat)
    requires BackupsOk(w, trace, seen, files, states)
    requires key !in seen && at < |states| && w.sv.canon(key) in states[at]
    requires key == w.sv.canon(key) || !w.sv.Pairable(key)
    ensures BackupsOk(w, trace + [Stored(key, |files|, at)], seen[key := |files|],
                      files + [RecordFor(w, key, states[at][w.sv.canon(key)])], states)
  {
    var e := Stored(key, |files|, at);
    var t, seen', files' := trace + [e], seen[key := |files|], files + [RecordFor(w, key, states[at][w.sv.canon(key)])];
    forall j | 0 <= j < |t|
      ensures Honest(w, t[j], seen', files', states)
    {
      if j < |trace| {
        assert Honest(w, trace[j], seen, files, states);
      }
    }
    forall j | 0 <= j < |trace| && trace[j].Stored?
      ensures trace[j].key != key && trace[j].file != |files|
    {
      assert Honest(w, trace[j], seen, files, states);
    }
    forall k | k in seen'
      ensures HasKey(t, k)
    {
      StillThere(trace, e, k, 0);
    }
    forall f: nat | f < |files'|
      ensures HasFile(t, f)
    {
      StillThere(trace, e, "", f);
    }
  }

  // ------------------------------------------------------------------
  // The server's history
  // ------------------------------------------------------------------

  /** Only the documents a request targets or creates change. */
  ghost predicate Frame(w: World, before: Docs, after: Docs, ids: seq<string>, created: seq<string>) {
    forall c :: !Targets(w, ids, c) && c !in created ==>
      (c in before <==> c in after) && (c in before && c in after ==> before[c] == after[c])
  }

  ghost predicate Targets(w: World, ids: seq<string>, c: string) { exists id :: id in ids && w.sv.canon(id) == c }

  ghost predicate SentAt(trace: seq<Event>, j: int, at: nat) { 0 <= j < |trace| && trace[j].Sent? && trace[j].at == at }

  ghost predicate HasSent(trace: seq<Event>, at: nat) { exists j :: SentAt(trace, j, at) }

  ghost predicate Moves(w: World, e: Event, states: seq<Docs>) {
    e.Sent? ==> e.at + 1 < |states| && Frame(w, states[e.at], states[e.at + 1], e.ids, e.created)
  }

  ghost predicate HistoryOk(w: World, trace: seq<Event>, states: seq<Docs>) {
    && |states| >= 1
    && (forall j :: 0 <= j < |trace| ==> Moves(w, trace[j], states))
    && (forall m: nat :: m < |states| - 1 ==> HasSent(trace, m))
  }

  lemma StillSent(trace: seq<Event>, e: Event, m: nat)
    ensures HasSent(trace, m) || (e.Sent? && e.at == m) ==> HasSent(trace + [e], m)
  {
    if HasSent(trace, m) {
      var j :| SentAt(trace, j, m);
      assert SentAt(trace + [e], j, m);
    } else if e.Sent? && e.at == m {
      assert SentAt(trace + [e], |trace|, m);
    }
  }

  lemma HistoryKeep(w: World, trace: seq<Event>, states: seq<Docs>, e: Event)
    requires HistoryOk(w, trace, states) && !e.Sent?
    ensures HistoryOk(w, trace + [e], states)
  {
    forall m: nat | m < |states| - 1
      ensures HasSent(trace + [e], m)
    {
      StillSent(trace, e, m);
    }
  }

  lemma HistorySend(w: World, trace: seq<Event>, states: seq<Docs>, e: Event, docs: Docs)
    requires HistoryOk(w, trace, states)
    requires e.Sent? && e.at == |states| - 1 && Frame(w, states[e.at], docs, e.ids, e.created)
    ensures HistoryOk(w, trace + [e], states + [docs])
  {
    var t := trace + [e];
    forall j | 0 <= j < |t|
      ensures Moves(w, t[j], states + [docs])
    {
      if j < |trace| {
        assert Moves(w, trace[j], states);
      }
    }
    forall m: nat | m < |states|
      ensures HasSent(t, m)
    {
      StillSent(trace, e, m);
    }
  }

  // ------------------------------------------------------------------
  // Requests and their records
  // ------------------------------------------------------------------

  /** The event accounts for a document about to be written: backed up, reported missing, or made by this invocation. */
  predicate Covers(w: World, e: Event, id: string) {
    match e
    case Stored(key, _, _) => key == KeyOf(w.sv, id)
    case NotThere(missing, _) => missing == id
    case Sent(_, _, created, _) => id in created
    case _ => false
  }

  ghost predicate Covered(w: World, trace: seq<Event>, id: string) {
    exists j :: 0 <= j < |trace| && Covers(w, trace[j], id)
  }

  ghost predicate SentIn(trace: seq<Event>, op: nat) {
    exists j :: 0 <= j < |trace| && trace[j].Sent? && trace[j].op == op
  }

  /** A request was confirmed, every document it targets accounted for, and its own record written, all before it. */
  ghost predicate RequestOk(w: World, before: seq<Event>, e: Event) {
    e.Sent? ==>
      && Confirmed in before
      && (w.auditOn ==> Pre(e.op) in before)
      && (w.backupsOn ==> forall id :: id in e.ids ==> Covered(w, before, id))
      && !SentIn(before, e.op)
  }

  ghost predicate RequestsOk(w: World, trace: seq<Event>) {
    forall i :: 0 <= i < |trace| ==> RequestOk(w, trace[..i], trace[i])
  }

  lemma RequestsAppend(w: World, trace: seq<Event>, e: Event)
    requires RequestsOk(w, trace) && RequestOk(w, trace, e)
    ensures RequestsOk(w, trace + [e])
  {
    var t := trace + [e];
    forall i | 0 <= i < |t|
      ensures RequestOk(w, t[..i], t[i])
    {
      assert i < |trace| ==> t[..i] == trace[..i];
      assert i == |trace| ==> t[..i] == trace;
    }
  }

  predicate Numbered(e: Event) { e.Pre? || e.Sent? || e.Post? }

  ghost predicate OpsBelow(trace: seq<Event>, next: nat) { forall e :: e in trace && Numbered(e) ==> e.op < next }

  /** No operation has two post-records. */
  ghost predicate PostsOnce(trace: seq<Event>) {
    forall i, j :: 0 <= i < j < |trace| && trace[i].Post? && trace[j].Post? ==> trace[i].op != trace[j].op
  }

  ghost predicate Posted(trace: seq<Event>, op: nat) { exists e :: e in trace && e.Post? && e.op == op }

  /** Every request is followed by its post-record. */
  ghost predicate Settled(w: World, trace: seq<Event>) {
    w.auditOn ==> forall i :: 0 <= i < |trace| && trace[i].Sent? ==> Posted(trace[i..], trace[i].op)
  }

  /** The same of every request but the one of `op`, which is still running. */
  ghost predicate SettledBut(w: World, trace: seq<Event>, op: nat) {
    w.auditOn ==>
      forall i :: 0 <= i < |trace| && trace[i].Sent? && trace[i].op != op ==> Posted(trace[i..], trace[i].op)
  }

  lemma PostedIn(trace: seq<Event>, e: Event, i: nat, op: nat)
    requires i <= |trace| && (Posted(trace[i..], op) || (e.Post? && e.op == op))
    ensures Posted((trace + [e])[i..], op)
  {
    assert (trace + [e])[i..] == trace[i..] + [e];
  }

  lemma SettledSend(w: World, trace: seq<Event>, e: Event)
    requires Settled(w, trace) && e.Sent?
    ensures SettledBut(w, trace + [e], e.op)
  {
    forall i | w.auditOn && 0 <= i < |trace| && trace[i].Sent?
      ensures Posted((trace + [e])[i..], trace[i].op)
    {
      PostedIn(trace, e, i, trace[i].op);
    }
  }

  lemma SettledPost(w: World, trace: seq<Event>, e: Event)
    requires e.Post? && SettledBut(w, trace, e.op)
    ensures Settled(w, trace + [e])
  {
    forall i | w.auditOn && 0 <= i < |trace| && trace[i].Sent?
      ensures Posted((trace + [e])[i..], trace[i].op)
    {
      PostedIn(trace, e, i, trace[i].op);
    }
  }

  /** The trace grew, and by nothing but backups, confirmations and pre-records. */
  ghost predicate Quiet(before: seq<Event>, after: seq<Event>) {
    before <= after && forall e :: e in after[|before|..] ==> !e.Sent? && !e.Post?
  }

  lemma QuietStep(before: seq<Event>, after: seq<Event>, e: Event)
    requires Quiet(before, after) && !e.Sent? && !e.Post?
    ensures Quiet(before, after + [e])
  {
    assert (after + [e])[|before|..] == after[|before|..] + [e];
  }

  lemma QuietTrans(a: seq<Event>, b: seq<Event>, c: seq<Event>)
    requires Quiet(a, b) && Quiet(b, c)
    ensures Quiet(a, c)
  {
    assert c[|a|..] == b[|a|..] + c[|b|..];
  }

  lemma QuietTail(before: seq<Event>, after: seq<Event>, i: nat)
    requires Quiet(before, after) && |before| <= i < |after|
    ensures !after[i].Sent? && !after[i].Post?
  {
    assert after[i] == after[|before|..][i - |before|];
  }

  lemma QuietKeeps(w: World, before: seq<Event>, after: seq<Event>, op: nat)
    requires Quiet(before, after)
    ensures Settled(w, before) ==> Settled(w, after)
    ensures Posted(after, op) <==> Posted(before, op)
    ensures SentIn(after, op) <==> SentIn(before, op)
  {
    assert after == before + after[|before|..];
    forall i | |before| <= i < |after|
      ensures !after[i].Sent? && !after[i].Post?
    {
      QuietTail(before, after, i);
    }
    forall i | Settled(w, before) && w.auditOn && 0 <= i < |after| && after[i].Sent?
      ensures Posted(after[i..], after[i].op)
    {
      assert after[i..] == before[i..] + after[|before|..];
    }
  }

  lemma CoveredGrows(w: World, before: seq<Event>, after: seq<Event>, id: string)
    requires before <= after && Covered(w, before, id)
    ensures Covered(w, after, id)
  {
    var j :| 0 <= j < |before| && Covers(w, before[j], id);
    assert Covers(w, after[j], id);
  }

  lemma CoveredBySeen(w: World, trace: seq<Event>, id: string)
    requires HasKey(trace, KeyOf(w.sv, id))
    ensures Covered(w, trace, id)
  {
    var j :| KeyAt(trace, j, KeyOf(w.sv, id));
    assert Covers(w, trace[j], id);
  }

  lemma CoveredByLast(w: World, trace: seq<Event>, e: Event, id: string)
    requires Covers(w, e, id)
    ensures Covered(w, trace + [e], id)
  {
    assert Covers(w, (trace + [e])[|trace|], id);
  }

  /** Everything a trace promises. */
  ghost predicate Lawful(w: World, trace: seq<Event>, seen: map<string, nat>, files: seq<Record>, states: seq<Docs>,
                         next: nat) {
    && |states| >= 1 && Clocked(trace, |states| - 1)
    && BackupsOk(w, trace, seen, files, states)
    && HistoryOk(w, trace, states)
    && RequestsOk(w, trace) && PostsOnce(trace) && OpsBelow(trace, next)
  }

  /** Any event but a backup and a request. */
  lemma LawfulAppend(w: World, trace: seq<Event>, seen: map<string, nat>, files: seq<Record>, states: seq<Docs>,
                     next: nat, e: Event)
    requires Lawful(w, trace, seen, files, states, next) && !e.Stored? && !e.Sent?
    requires e.NotThere? ==> e.at == |states| - 1 && w.sv.canon(e.id) !in states[e.at]
    requires Numbered(e) ==> e.op < next
    requires e.Post? ==> !Posted(trace, e.op)
    ensures Lawful(w, trace + [e], seen, files, states, next)
  {
    ClockedAppend(trace, |states| - 1, e);
    BackupsKeep(w, trace, seen, files, states, e, states);
    HistoryKeep(w, trace, states, e);
    RequestsAppend(w, trace, e);
  }

  lemma LawfulStore(w: World, trace: seq<Event>, seen: map<string, nat>, files: seq<Record>, states: seq<Docs>,
                    next: nat, key: string, docs: Docs, rec: Record)
    requires Lawful(w, trace, seen, files, states, next) && docs == states[|states| - 1]
    requires key == w.sv.canon(key) || !w.sv.Pairable(key)
    requires key !in seen && w.sv.canon(key) in docs && rec == RecordFor(w, key, docs[w.sv.canon(key)])
    ensures Lawful(w, trace + [Stored(key, |files|, |states| - 1)], seen[key := |files|], files + [rec], states, next)
  {
    var e := Stored(key, |files|, |states| - 1);
    ClockedAppend(trace, |states| - 1, e);
    BackupsAdd(w, trace, seen, files, states, key, |states| - 1);
    HistoryKeep(w, trace, states, e);
    RequestsAppend(w, trace, e);
  }

  lemma LawfulSend(w: World, trace: seq<Event>, seen: map<string, nat>, files: seq<Record>, states: seq<Docs>,
                   next: nat, e: Event, docs: Docs)
    requires Lawful(w, trace, seen, files, states, next)
    requires e.Sent? && e.at == |states| - 1 && e.op < next && RequestOk(w, trace, e)
    requires Frame(w, states[e.at], docs, e.ids, e.created)
    ensures Lawful(w, trace + [e], seen, files, states + [docs], next)
  {
    ClockedAppend(trace, |states| - 1, e);
    BackupsKeep(w, trace, seen, files, states, e, states + [docs]);
    HistorySend(w, trace, states, e, docs);
    RequestsAppend(w, trace, e);
  }

  // ------------------------------------------------------------------
  // What a lawful trace means for a request
  // ------------------------------------------------------------------

  /**
   Every request was confirmed, everything it writes backed up, reported missing or
   made by this invocation, and its own pre-record written, all before it; and it is
   followed by a post-record of its own, the only one.
   */
  lemma RequestDiscipline(w: World, trace: seq<Event>, seen: map<string, nat>, files: seq<Record>, states: seq<Docs>,
                          next: nat, i: nat) returns (j: nat)
    requires Lawful(w, trace, seen, files, states, next) && Settled(w, trace) && w.auditOn
    requires i < |trace| && trace[i].Sent?
    ensures Confirmed in trace[..i] && Pre(trace[i].op) in trace[..i]
    ensures w.backupsOn ==> forall id :: id in trace[i].ids ==> Covered(w, trace[..i], id)
    ensures i < j < |trace| && trace[j].Post? && trace[j].op == trace[i].op
    ensures forall k :: 0 <= k < |trace| && trace[k].Post? && trace[k].op == trace[i].op ==> k == j
    ensures forall k :: 0 <= k < |trace| && trace[k].Sent? && trace[k].op == trace[i].op ==> k == i
  {
    assert RequestOk(w, trace[..i], trace[i]);
    j := PostOf(w, trace, i);
    forall k | 0 <= k < |trace| && trace[k].Sent? && k != i
      ensures trace[k].op != trace[i].op
    {
      if k < i {
        SentOnce(w, trace, k, i);
      } else {
        SentOnce(w, trace, i, k);
      }
    }
  }

  lemma PostOf(w: World, trace: seq<Event>, i: nat) returns (j: nat)
    requires Settled(w, trace) && w.auditOn && PostsOnce(trace) && i < |trace| && trace[i].Sent?
    ensures i < j < |trace| && trace[j].Post? && trace[j].op == trace[i].op
    ensures forall k :: 0 <= k < |trace| && trace[k].Post? && trace[k].op == trace[i].op ==> k == j
  {
    assert Posted(trace[i..], trace[i].op);
    var e :| e in trace[i..] && e.Post? && e.op == trace[i].op;
    var m :| 0 <= m < |trace[i..]| && trace[i..][m] == e;
    j := i + m;
  }

  lemma SentOnce(w: World, trace: seq<Event>, i: nat, j: nat)
    requires RequestsOk(w, trace) && i < j < |trace| && trace[i].Sent? && trace[j].Sent?
    ensures trace[i].op != trace[j].op
  {
    assert RequestOk(w, trace[..j], trace[j]);
    assert trace[..j][i] == trace[i];
  }

  // ------------------------------------------------------------------
  // What a lawful trace means for a document
  // ------------------------------------------------------------------

  /** Some id asked for is kept under this key. */
  ghost predicate AskedAs(w: World, asked: set<string>, key: string) {
    exists id :: id in asked && KeyOf(w.sv, id) == key
  }

  /** Every backup was asked for. */
  ghost predicate KeysAsked(w: World, seen: map<string, nat>, asked: set<string>) {
    forall key :: key in seen ==> AskedAs(w, asked, key)
  }

  lemma KeysAskedMore(w: World, seen: map<string, nat>, asked: set<string>, more: set<string>)
    requires KeysAsked(w, seen, asked) && asked <= more
    ensures KeysAsked(w, seen, more)
  {
    forall key | key in seen
      ensures AskedAs(w, more, key)
    {
      assert AskedAs(w, asked, key);
    }
  }

  lemma KeysAskedAdd(w: World, seen: map<string, nat>, asked: set<string>, id: string, file: nat)
    requires KeysAsked(w, seen, asked) && id in asked
    ensures KeysAsked(w, seen[KeyOf(w.sv, id) := file], asked)
  {
    assert AskedAs(w, asked, KeyOf(w.sv, id));
  }

  ghost predicate BackupOf(w: World, trace: seq<Event>, j: int, c: string) {
    0 <= j < |trace| && trace[j].Stored? && w.sv.canon(trace[j].key) == c
  }

  ghost predicate AtMostOneBackup(w: World, trace: seq<Event>, c: string) {
    forall i, j :: BackupOf(w, trace, i, c) && BackupOf(w, trace, j, c) ==> i == j
  }

  /** All the forms of the document's id that were asked for share one key. */
  predicate OneForm(w: World, asked: set<string>, c: string) {
    forall a, b :: a in asked && b in asked && w.sv.canon(a) == c && w.sv.canon(b) == c ==>
                     KeyOf(w.sv, a) == KeyOf(w.sv, b)
  }

  /** One backup for each document, however many requests there were, when the forms asked for share a key. */
  lemma OneBackupEach(w: World, trace: seq<Event>, seen: map<string, nat>, files: seq<Record>, states: seq<Docs>,
                      next: nat, asked: set<string>, c: string)
    requires w.sv.WellCast() && Lawful(w, trace, seen, files, states, next) && KeysAsked(w, seen, asked)
    requires OneForm(w, asked, c)
    ensures AtMostOneBackup(w, trace, c)
  {
    forall i, j | BackupOf(w, trace, i, c) && BackupOf(w, trace, j, c)
      ensures i == j
    {
      StoredIsHonest(w, trace, seen, files, states, i);
      StoredIsHonest(w, trace, seen, files, states, j);
      assert AskedAs(w, asked, trace[i].key) && AskedAs(w, asked, trace[j].key);
      var a :| a in asked && KeyOf(w.sv, a) == trace[i].key;
      var b :| b in asked && KeyOf(w.sv, b) == trace[j].key;
      KeyIsPrintedIff(w.sv, a);
      KeyIsPrintedIff(w.sv, b);
    }
  }

  /** Every form of the document's id that was asked for has been answered with a backup. */
  ghost predicate FormsStored(w: World, trace: seq<Event>, asked: set<string>, c: string) {
    forall id :: id in asked && w.sv.canon(id) == c ==> HasKey(trace, KeyOf(w.sv, id))
  }

  /** The exact condition: with every form answered, the document has one backup if and only if they share a key. */
  lemma OneBackupIff(w: World, trace: seq<Event>, seen: map<string, nat>, files: seq<Record>, states: seq<Docs>,
                     next: nat, asked: set<string>, c: string)
    requires w.sv.WellCast() && Lawful(w, trace, seen, files, states, next) && KeysAsked(w, seen, asked)
    requires FormsStored(w, trace, asked, c)
    ensures AtMostOneBackup(w, trace, c) <==> OneForm(w, asked, c)
  {
    if OneForm(w, asked, c) {
      OneBackupEach(w, trace, seen, files, states, next, asked, c);
    }
    if AtMostOneBackup(w, trace, c) {
      forall a, b | a in asked && b in asked && w.sv.canon(a) == c && w.sv.canon(b) == c
        ensures KeyOf(w.sv, a) == KeyOf(w.sv, b)
      {
        var i := FormBackup(w, trace, a);
        var j := FormBackup(w, trace, b);
      }
    }
  }

  lemma FormBackup(w: World, trace: seq<Event>, id: string) returns (j: int)
    requires w.sv.WellCast() && HasKey(trace, KeyOf(w.sv, id))
    ensures KeyAt(trace, j, KeyOf(w.sv, id)) && BackupOf(w, trace, j, w.sv.canon(id))
  {
    j :| KeyAt(trace, j, KeyOf(w.sv, id));
    KeyIsPrintedIff(w.sv, id);
  }

  /** With number ids every form that parses has one backup. */
  lemma NumbersShareAKey(w: World, asked: set<string>, c: string)
    requires w.sv.WellCast() && w.sv.numericIds && forall id :: id in asked ==> ParseNumericId(id).Some?
    ensures OneForm(w, asked, c)
  {
  }

  /** With text ids two forms of one id never share a key. */
  lemma TextsShareNoKey(w: World, asked: set<string>, c: string)
    requires !w.sv.numericIds
    ensures OneForm(w, asked, c) <==>
            (forall a, b :: a in asked && b in asked && w.sv.canon(a) == c && w.sv.canon(b) == c ==> a == b)
  {
  }

  /** The event neither writes the document `c` nor says it is missing. */
  ghost predicate Untouched(w: World, e: Event, c: string) {
    && (e.Sent? ==> !Targets(w, e.ids, c) && forall id :: id in e.created ==> w.sv.canon(id) != c)
    && (e.NotThere? ==> w.sv.canon(e.id) != c)
  }

  ghost predicate FirstRequest(w: World, trace: seq<Event>, c: string, i: nat) {
    && i < |trace| && trace[i].Sent? && Targets(w, trace[i].ids, c)
    && forall k :: 0 <= k < i ==> Untouched(w, trace[k], c)
  }

  /** Between two points with no request for it, a document does not change. */
  lemma {:induction false} UntouchedBetween(w: World, trace: seq<Event>, states: seq<Docs>, c: string, from: nat,
                                            to: nat)
    requires HistoryOk(w, trace, states) && from <= to < |states| && w.sv.canon(c) == c
    requires forall e :: e in trace && e.Sent? && from <= e.at < to ==> Untouched(w, e, c)
    ensures (c in states[from] <==> c in states[to]) &&
            (c in states[from] && c in states[to] ==> states[from][c] == states[to][c])
  {
    if from < to {
      UntouchedBetween(w, trace, states, c, from, to - 1);
      assert HasSent(trace, to - 1);
      var j :| SentAt(trace, j, to - 1);
      assert trace[j] in trace && Moves(w, trace[j], states);
    }
  }

  lemma BackedUpBefore(w: World, trace: seq<Event>, c: string, i: nat, id: string) returns (j: nat)
    requires RequestsOk(w, trace) && w.backupsOn && FirstRequest(w, trace, c, i) && id in trace[i].ids &&
             w.sv.canon(id) == c
    ensures j < i && trace[j].Stored? && trace[j].key == KeyOf(w.sv, id)
  {
    assert RequestOk(w, trace[..i], trace[i]);
    var k :| 0 <= k < |trace[..i]| && Covers(w, trace[..i][k], id);
    j := k;
    assert Untouched(w, trace[j], c);
  }

  lemma LaterSent(trace: seq<Event>, now: nat, m: nat, i: nat)
    requires Clocked(trace, now) && i < |trace| && m < |trace|
    requires trace[i].Sent? && trace[m].Sent? && trace[m].at < trace[i].at
    ensures m < i
  {
    assert !Before(trace[i], trace[m]);
  }

  /** From a backup taken before the first request to that request, nothing is sent for the document. */
  lemma QuietUntil(w: World, trace: seq<Event>, now: nat, c: string, j: nat, i: nat, e: Event)
    requires Clocked(trace, now) && FirstRequest(w, trace, c, i) && j < i && trace[j].Stored?
    requires e in trace && e.Sent? && trace[j].at <= e.at < trace[i].at
    ensures Untouched(w, e, c)
  {
    var m :| 0 <= m < |trace| && trace[m] == e;
    LaterSent(trace, now, m, i);
  }

  /**
   The pre-image.  Before the first request for a document, unless it was reported
   missing or made by this invocation, exactly the state that request meets is in
   a file under the key of every id the request names it by; the published state
   under a draft is there too if and only if that id pairs.
   */
  lemma BackupIsPreImage(w: World, trace: seq<Event>, seen: map<string, nat>, files: seq<Record>, states: seq<Docs>,
                         next: nat, c: string, i: nat, id: string) returns (j: nat)
    requires w.sv.WellCast() && Lawful(w, trace, seen, files, states, next) && w.backupsOn && w.sv.canon(c) == c
    requires FirstRequest(w, trace, c, i) && id in trace[i].ids && w.sv.canon(id) == c
    ensures j < i && trace[j].Stored? && trace[j].key == KeyOf(w.sv, id) && trace[j].file < |files|
    ensures trace[i].at < |states| && c in states[trace[i].at]
    ensures var full, kept := Capture(states[trace[i].at][c], w.drafts, w.scrub), files[trace[j].file];
            && kept.doc == full.doc
            && kept.published == if w.sv.Pairable(id) then full.published else None
  {
    j := BackedUpBefore(w, trace, c, i, id);
    KeyIsPrintedIff(w.sv, id);
    StoredIsHonest(w, trace, seen, files, states, j);
    assert trace[j] in trace;
    assert Moves(w, trace[i], states) && Before(trace[j], trace[i]);
    forall e | e in trace && e.Sent? && trace[j].at <= e.at < trace[i].at
      ensures Untouched(w, e, c)
    {
      QuietUntil(w, trace, |states| - 1, c, j, i, e);
    }
    UntouchedBetween(w, trace, states, c, trace[j].at, trace[i].at);
  }

  lemma StoredIsHonest(w: World, trace: seq<Event>, seen: map<string, nat>, files: seq<Record>, states: seq<Docs>,
                       j: nat)
    requires BackupsOk(w, trace, seen, files, states) && j < |trace| && trace[j].Stored?
    ensures Honest(w, trace[j], seen, files, states)
  {
  }
}
