/**
 A write, from the confirmation to the last audit record
 (internal/cli/create.go, internal/cli/backup.go, internal/cli/backups.go).
 */
module WriteLifecycle {
  import opened Wrappers
  import opened Json
  import opened Patch
  import opened Restore
  import opened IdMatch
  import opened Trace

  const BULK_CHUNK: nat := 100

  /** What the world outside answers: reads, files and requests that fail, and what batched reads list. */
  datatype Env = Env(
    listed: nat -> Option<seq<string>>,
    readable: string -> bool,
    publishedReadable: bool,
    storable: string -> bool,
    auditable: nat -> bool,
    accepts: nat -> bool)

  datatype Level = L0 | L1 | L2 | L3

  /** The flags the confirmation policy reads, and the answer at the prompt, if one was given. */
  datatype Policy = Policy(confirmWrites: bool, assumeYes: bool, tty: bool, answer: Option<bool>)

  /** Confirm: true when the write may go on. */
  function Confirms(level: Level, dryRun: bool, policy: Policy): bool {
    var needs := level == L2 || level == L3 || (level == L1 && policy.confirmWrites);
    level == L0 || dryRun || !needs || policy.assumeYes || (policy.tty && policy.answer == Some(true))
  }

  /** Above L1 a yes is needed, given or assumed; at L1 only when writes are to be confirmed; at L0 never. */
  lemma ConfirmsIff(level: Level, dryRun: bool, policy: Policy)
    ensures Confirms(level, dryRun, policy) <==>
            || level == L0 || dryRun || (level == L1 && !policy.confirmWrites)
            || policy.assumeYes || (policy.tty && policy.answer == Some(true))
  {
  }

  class Invocation {
    const w: World
    const dryRun: bool
    /** The server. */
    var docs: Docs
    /** What this invocation has backed up: file numbers by id, and the files. */
    var seen: map<string, nat>
    var files: seq<Record>
    /** Everything done so far, in order. */
    ghost var trace: seq<Event>
    /** The ids handed to the backup so far. */
    ghost var asked: set<string>
    var nextOp: nat
    /** The documents after each request, the first entry before any. */
    ghost var states: seq<Docs>

    /** Documents are kept by printed id. */
    ghost predicate Printed()
      reads this
    {
      w.sv.WellCast() && forall c :: c in docs ==> w.sv.canon(c) == c
    }

    ghost predicate Valid()
      reads this
    {
      && Printed()
      && Lawful(w, trace, seen, files, states, nextOp)
      && docs == states[|states| - 1]
      && KeysAsked(w, seen, asked)
    }

    constructor (w: World, dryRun: bool, docs: Docs)
      requires w.sv.WellCast() && forall c :: c in docs ==> w.sv.canon(c) == c
      ensures Valid() && Settled(w, trace)
      ensures this.w == w && this.dryRun == dryRun && this.docs == docs && trace == [] && files == [] &&
              seen == map[] && asked == {}
      ensures states == [docs]
    {
      this.w, this.dryRun, this.docs := w, dryRun, docs;
      seen, files, trace, nextOp := map[], [], [], 0;
      asked, states := {}, [docs];
    }

    function View(): map<string, Fields>
      reads this
    {
      map c | c in docs :: Read(docs[c], w.drafts)
    }

    // ----------------------------------------------------------------
    // The pre-write backup
    // ----------------------------------------------------------------

    /** The batched read of one chunk: whatever of the collection the server lists. */
    method ReadListed(listed: seq<string>) returns (index: DocsById)
      requires Printed()
      ensures fresh(index) && index.Valid() && Indexes(index.exact, index.numeric, w.sv, View())
    {
      index := new DocsById();
      for i := 0 to |listed|
        invariant fresh(index) && index.Valid() && Indexes(index.exact, index.numeric, w.sv, View())
      {
        if listed[i] in docs {
          var doc := Doc(listed[i], w.sv.numericIds, Read(docs[listed[i]], w.drafts));
          AddIndexes(index.exact, index.numeric, w.sv, View(), doc);
          index.Add(doc);
        }
      }
    }

    /**
     An id the batched read did not return is read on its own.  Afterwards an id the
     index cannot find is one the server says does not exist.
     */
    method ReadMissing(index: DocsById, chunk: seq<string>, env: Env) returns (ok: bool)
      requires Printed() && index.Valid() && Indexes(index.exact, index.numeric, w.sv, View())
      modifies index
      ensures index.Valid() && Indexes(index.exact, index.numeric, w.sv, View())
      ensures ok ==> forall id :: id in chunk && index.Lookup(id).None? ==> w.sv.canon(id) !in docs
      ensures Obliging(env) ==> ok
    {
      for i := 0 to |chunk|
        invariant index.Valid() && Indexes(index.exact, index.numeric, w.sv, View())
        invariant forall id :: id in chunk[..i] && index.Lookup(id).None? ==> w.sv.canon(id) !in docs
      {
        var id := chunk[i];
        assert chunk[..i + 1] == chunk[..i] + [id];
        if index.Lookup(id).None? {
          if !env.readable(id) {
            return false;
          }
          if w.sv.canon(id) in docs {
            ghost var exact0, numeric0 := index.exact, index.numeric;
            AddRead(index, id);
            forall other
              ensures Find(exact0, numeric0, other).Some? ==> index.Lookup(other).Some?
            {
              FindGrows(exact0, numeric0, index.exact, index.numeric, other);
            }
          }
        }
      }
      assert chunk[..|chunk|] == chunk;
      ok := true;
    }

    /** The document an id addresses, indexed under the id it prints, or under the id as sent if that does not pair. */
    method AddRead(index: DocsById, id: string)
      requires Printed() && index.Valid() && Indexes(index.exact, index.numeric, w.sv, View()) && w.sv.canon(id) in docs
      modifies index
      ensures index.Valid() && Indexes(index.exact, index.numeric, w.sv, View())
      ensures index.Lookup(id).Some?
      ensures old(index.exact).Keys <= index.exact.Keys && old(index.numeric).Keys <= index.numeric.Keys
    {
      var c := w.sv.canon(id);
      var doc := Doc(c, w.sv.numericIds, Read(docs[c], w.drafts));
      AddIndexes(index.exact, index.numeric, w.sv, View(), doc);
      AddedIsFound(index.exact, index.numeric, w.sv, View(), doc, id);
      index.Add(doc);
      if index.Lookup(id).None? {
        AddUnpairable(index.exact, index.numeric, w.sv, View(), doc, id);
        index.AddAs(id, doc);
      }
    }

    /** The live rows to keep beside newest versions that are drafts, by printed id. */
    method PublishedRows(index: DocsById) returns (published: map<string, Fields>)
      requires Printed() && index.Valid() && Indexes(index.exact, index.numeric, w.sv, View())
      ensures PublishedFor(index.exact, published)
    {
      published := map[];
      if !w.drafts {
        return;
      }
      var keys := index.exact.Keys;
      while keys != {}
        invariant keys <= index.exact.Keys
        invariant forall k :: k in published ==>
                  k in docs && w.sv.canon(k) == k && HasPublished(k) && published[k] == docs[k].live
        invariant forall k :: k in index.exact.Keys - keys && w.sv.canon(k) == k && HasPublished(k) ==> k in published
        decreases |keys|
      {
        var k :| k in keys;
        keys := keys - {k};
        var doc := index.exact[k];
        assert Entry(k, doc, w.sv, View());
        if StatusOf(doc.content) == "draft" && StatusOf(docs[doc.id].live) == "published" {
          published := published[doc.id := docs[doc.id].live];
        }
      }
    }

    /** `published` has the published live row of every indexed document with a draft over it. */
    ghost predicate PublishedFor(exact: map<string, Doc>, published: map<string, Fields>)
      reads this
    {
      && (forall k :: k in published ==>
            k in docs && w.sv.canon(k) == k && HasPublished(k) && published[k] == docs[k].live)
      && (forall k :: k in exact && w.sv.canon(k) == k && HasPublished(k) ==> k in published)
    }

    predicate HasPublished(c: string)
      reads this
    {
      w.drafts && c in docs && StatusOf(docs[c].newest) == "draft" && StatusOf(docs[c].live) == "published"
    }

    /** Writes the file of every document of a chunk that has none yet. */
    method StoreChunk(index: DocsById, published: map<string, Fields>, chunk: seq<string>, env: Env) returns (ok: bool)
      requires Valid() && index.Valid() && Indexes(index.exact, index.numeric, w.sv, View())
      requires forall id :: id in chunk ==> id in asked && (index.Lookup(id).None? ==> w.sv.canon(id) !in docs)
      requires PublishedFor(index.exact, published)
      modifies this`seen, this`files, this`trace
      ensures Valid() && Quiet(old(trace), trace)
      ensures (ok ==> AllAnswered(w, trace, docs, chunk)) && (Obliging(env) ==> ok)
    {
      for i := 0 to |chunk|
        invariant Valid() && Quiet(old(trace), trace)
        invariant AllAnswered(w, trace, docs, chunk[..i])
      {
        ghost var before := trace;
        ok := StoreOne(index, published, chunk[i], env);
        StoredOneMore(w, old(trace), before, trace, docs, chunk, i, ok);
        if !ok {
          return;
        }
      }
      assert chunk[..|chunk|] == chunk;
      ok := true;
    }

    method BackupChunk(chunk: seq<string>, listed: Option<seq<string>>, env: Env) returns (ok: bool)
      requires Valid() && forall id :: id in chunk ==> id in asked
      modifies this`seen, this`files, this`trace
      ensures Valid() && Quiet(old(trace), trace)
      ensures (ok ==> AllAnswered(w, trace, docs, chunk)) && (Obliging(env) && listed.Some? ==> ok)
    {
      QuietNothing(trace);
      if listed.None? {
        return false;
      }
      var index := ReadListed(listed.value);
      ok := ReadMissing(index, chunk, env);
      if !ok || !env.publishedReadable {
        return false;
      }
      var published := PublishedRows(index);
      ok := StoreChunk(index, published, chunk, env);
    }

    /** The targeted documents not backed up yet. */
    method NotSeen(ids: seq<string>) returns (todo: seq<string>)
      requires Valid()
      ensures forall id :: id in ids ==> id in todo || Answered(w, trace, docs, id)
      ensures forall id :: id in todo ==> id in ids
    {
      todo := [];
      for i := 0 to |ids|
        invariant forall id :: id in ids[..i] ==> id in todo || Answered(w, trace, docs, id)
        invariant forall id :: id in todo ==> id in ids
      {
        assert ids[..i + 1] == ids[..i] + [ids[i]];
        if ids[i] in seen {
          SeenIsKey(ids[i]);
          CoveredBySeen(w, trace, ids[i]);
        } else {
          todo := todo + [ids[i]];
        }
      }
      assert ids[..|ids|] == ids;
    }

    /** What is remembered is a key of its own. */
    lemma SeenIsKey(key: string)
      requires Valid() && key in seen
      ensures HasKey(trace, key) && KeyOf(w.sv, key) == key
    {
      var j :| KeyAt(trace, j, key);
      StoredIsHonest(w, trace, seen, files, states, j);
      KeyOfKey(w.sv, key);
    }

    /**
     backupDocs: reads and stores, a chunk at a time, what this invocation has not
     stored yet.  When it succeeds every targeted document has a file under the key
     of each id asked for, or was reported missing; nothing else is stored.
     */
    method BackupDocs(ids: seq<string>, env: Env) returns (ok: bool)
      requires Valid()
      modifies this`seen, this`files, this`trace, this`asked
      ensures Valid() && Quiet(old(trace), trace)
      ensures asked == old(asked) + (set id | id in ids)
      ensures (ok ==> AllAnswered(w, trace, docs, ids)) && (Obliging(env) ==> ok)
    {
      QuietNothing(trace);
      KeysAskedMore(w, seen, asked, asked + set id | id in ids);
      asked := asked + set id | id in ids;
      var todo := NotSeen(ids);
      var start, n := 0, 0;
      while start < |todo|
        invariant 0 <= start <= |todo|
        invariant Valid() && Quiet(old(trace), trace)
        invariant AllAnswered(w, trace, docs, todo[..start])
        invariant asked == old(asked) + set id | id in ids
      {
        ghost var before := trace;
        var end := if start + BULK_CHUNK < |todo| then start + BULK_CHUNK else |todo|;
        ok := BackupChunk(todo[start..end], env.listed(n), env);
        QuietTrans(old(trace), before, trace);
        if !ok {
          return;
        }
        AnsweredChunk(w, before, trace, docs, todo, start, end);
        start, n := end, n + 1;
      }
      AllAnsweredEnd(w, old(trace), trace, docs, ids, todo);
      ok := true;
    }

    method StoreOne(index: DocsById, published: map<string, Fields>, id: string, env: Env) returns (ok: bool)
      requires Valid() && index.Valid() && Indexes(index.exact, index.numeric, w.sv, View())
      requires id in asked && (index.Lookup(id).None? ==> w.sv.canon(id) !in docs)
      requires PublishedFor(index.exact, published)
      modifies this`seen, this`files, this`trace
      ensures Valid() && Quiet(old(trace), trace)
      ensures (ok ==> Answered(w, trace, docs, id)) && (Obliging(env) ==> ok)
    {
      var found := index.Lookup(id);
      if found.None? {
        ReportMissing(id);
        return true;
      }
      var doc, key := found.value.doc, found.value.key;
      LookupIsAddressed(index.exact, index.numeric, w.sv, View(), id);
      KeyIsPrintedIff(w.sv, id);
      if key in seen {
        QuietNothing(trace);
        CoveredBySeen(w, trace, id);
        return true;
      }
      if !env.storable(key) {
        QuietNothing(trace);
        return false;
      }
      var rec := Record(w.scrub(doc.content), if key in published then Some(w.scrub(published[key])) else None);
      Store(key, rec, id);
      ok := true;
    }

    method ReportMissing(id: string)
      requires Valid() && w.sv.canon(id) !in docs
      modifies this`trace
      ensures Valid() && Quiet(old(trace), trace) && Covered(w, trace, id)
    {
      ghost var e := NotThere(id, |states| - 1);
      LawfulAppend(w, trace, seen, files, states, nextOp, e);
      CoveredByLast(w, trace, e, id);
      QuietOne(trace, e);
      trace := trace + [e];
    }

    /** Writes one backup file and remembers it. */
    method Store(key: string, rec: Record, ghost id: string)
      requires Valid() && key !in seen && w.sv.canon(key) in docs && rec == RecordFor(w, key, docs[w.sv.canon(key)])
      requires id in asked && key == KeyOf(w.sv, id)
      modifies this`seen, this`files, this`trace
      ensures Valid() && Quiet(old(trace), trace) && Answered(w, trace, docs, id)
      ensures files == old(files) + [rec] && seen == old(seen)[key := |old(files)|]
    {
      ghost var e := Stored(key, |files|, |states| - 1);
      StoreStep(w, trace, seen, files, states, nextOp, docs, id);
      KeysAskedAdd(w, seen, asked, id, |files|);
      AnsweredByFile(w, trace, e, docs, id);
      QuietOne(trace, e);
      seen, files, trace := seen[key := |files|], files + [rec], trace + [e];
    }

    // ----------------------------------------------------------------
    // One operation
    // ----------------------------------------------------------------

    method NewOp() returns (op: nat)
      requires Valid()
      modifies this`nextOp
      ensures Valid() && op == old(nextOp) && nextOp == op + 1
      ensures !Posted(trace, op) && !SentIn(trace, op)
    {
      op := nextOp;
      nextOp := nextOp + 1;
    }

    /** The confirmation; true when the write may go on. */
    method Confirm(level: Level, policy: Policy) returns (ok: bool)
      requires Valid()
      modifies this`trace
      ensures Valid() && ok == Confirms(level, dryRun, policy)
      ensures trace == if ok && !dryRun then old(trace) + [Confirmed] else old(trace)
      ensures Quiet(old(trace), trace)
    {
      QuietNothing(trace);
      QuietStep(trace, trace, Confirmed);
      ok := Confirms(level, dryRun, policy);
      if ok && !dryRun {
        LawfulAppend(w, trace, seen, files, states, nextOp, Confirmed);
        trace := trace + [Confirmed];
      }
    }

    /** takeBackup: nothing for a write that carries none, in a dry run, or with backups off. */
    method TakeBackup(ids: seq<string>, backup: bool, env: Env) returns (ok: bool)
      requires Valid()
      modifies this`seen, this`files, this`trace, this`asked
      ensures Valid() && Quiet(old(trace), trace)
      ensures ok && backup && w.backupsOn && !dryRun ==> AllAnswered(w, trace, docs, ids)
      ensures !(backup && w.backupsOn && !dryRun) ==>
              ok && files == old(files) && seen == old(seen) && trace == old(trace)
      ensures Willing(env) ==> ok
    {
      if backup && ids != [] && w.backupsOn && !dryRun {
        ok := BackupDocs(ids, env);
      } else {
        QuietNothing(trace);
        ok := true;
      }
    }

    /** pre: the backup first, then the pre-record; a failure of either ends the operation. */
    method PreWrite(op: nat, ids: seq<string>, backup: bool, env: Env) returns (ok: bool)
      requires Valid() && op < nextOp
      modifies this`seen, this`files, this`trace, this`asked
      ensures Valid() && Quiet(old(trace), trace)
      ensures Settled(w, old(trace)) ==> Settled(w, trace)
      ensures (Posted(trace, op) <==> Posted(old(trace), op)) && (SentIn(trace, op) <==> SentIn(old(trace), op))
      ensures ok && w.auditOn ==> Pre(op) in trace
      ensures ok && backup && w.backupsOn && !dryRun ==> AllAnswered(w, trace, docs, ids)
      ensures !(backup && w.backupsOn && !dryRun) ==> files == old(files) && seen == old(seen)
      ensures Willing(env) ==> ok
    {
      ok := TakeBackup(ids, backup, env);
      QuietKeeps(w, old(trace), trace, op);
      if ok && w.auditOn {
        ok := PreRecord(op, ids, old(trace), env);
      }
    }

    method PreRecord(op: nat, ghost ids: seq<string>, ghost before: seq<Event>, env: Env) returns (ok: bool)
      requires Valid() && op < nextOp && Quiet(before, trace)
      modifies this`trace
      ensures Valid() && Quiet(before, trace)
      ensures Settled(w, old(trace)) ==> Settled(w, trace)
      ensures (Posted(trace, op) <==> Posted(old(trace), op)) && (SentIn(trace, op) <==> SentIn(old(trace), op))
      ensures AllAnswered(w, old(trace), docs, ids) ==> AllAnswered(w, trace, docs, ids)
      ensures ok ==> Pre(op) in trace
      ensures Willing(env) ==> ok
    {
      ok := env.auditable(op);
      if ok {
        LawfulAppend(w, trace, seen, files, states, nextOp, Pre(op));
        PreStep(w, before, trace, docs, op, ids);
        trace := trace + [Pre(op)];
      }
    }

    /** post: one record, whatever became of the request. */
    method PostWrite(op: nat, ok: bool)
      requires Valid() && op < nextOp && !Posted(trace, op) && SettledBut(w, trace, op)
      modifies this`trace
      ensures Valid() && Settled(w, trace)
      ensures trace == if w.auditOn then old(trace) + [Post(op, ok)] else old(trace)
    {
      if w.auditOn {
        LawfulAppend(w, trace, seen, files, states, nextOp, Post(op, ok));
        SettledPost(w, trace, Post(op, ok));
        trace := trace + [Post(op, ok)];
      }
    }

    /** One request and what it made of the documents. */
    method Sends(ghost e: Event, after: Docs)
      requires Valid() && e.Sent? && e.op < nextOp && e.at == |states| - 1 && RequestOk(w, trace, e)
      requires Frame(w, docs, after, e.ids, e.created) && forall c :: c in after ==> w.sv.canon(c) == c
      modifies this`docs, this`trace, this`states
      ensures Valid() && trace == old(trace) + [e] && docs == after && |states| == |old(states)| + 1
      ensures (Settled(w, old(trace)) ==> SettledBut(w, trace, e.op)) &&
              (Posted(trace, e.op) <==> Posted(old(trace), e.op))
    {
      LawfulSend(w, trace, seen, files, states, nextOp, e, after);
      SentStep(w, trace, e);
      docs, trace, states := after, trace + [e], states + [after];
    }

    /** One PATCH, with or without draft=true. */
    method SendUpdate(op: nat, id: string, body: Fields, draft: bool, env: Env) returns (ok: bool)
      requires Valid() && op < nextOp && RequestOk(w, trace, Sent(op, [id], [], |states| - 1))
      modifies this`docs, this`trace, this`states
      ensures Valid() && trace == old(trace) + [Sent(op, [id], [], |old(states)| - 1)]
      ensures (Settled(w, old(trace)) ==> SettledBut(w, trace, op)) && (Posted(trace, op) <==> Posted(old(trace), op))
      ensures ok <==> env.accepts(op) && w.sv.canon(id) in old(docs)
      ensures docs == if ok then old(docs)[w.sv.canon(id) := Save(old(docs)[w.sv.canon(id)], Request(body, draft))]
                      else old(docs)
    {
      var c := w.sv.canon(id);
      ok := env.accepts(op) && c in docs;
      var after := if ok then docs[c := Save(docs[c], Request(body, draft))] else docs;
      OneTarget(w, docs, after, id);
      Sends(Sent(op, [id], [], |states| - 1), after);
    }

    /** One POST; the server picks the id. */
    method SendCreate(op: nat, newId: string, r: Request, env: Env) returns (ok: bool)
      requires Valid() && op < nextOp && RequestOk(w, trace, Sent(op, [], [], |states| - 1))
      requires w.sv.canon(newId) == newId && newId !in docs
      modifies this`docs, this`trace, this`states
      ensures Valid() && trace == old(trace) + [Sent(op, [], if ok then [newId] else [], |old(states)| - 1)]
      ensures (Settled(w, old(trace)) ==> SettledBut(w, trace, op)) && (Posted(trace, op) <==> Posted(old(trace), op))
      ensures ok ==> Covered(w, trace, newId)
      ensures ok == env.accepts(op) && docs == if ok then old(docs)[newId := Create(r)] else old(docs)
    {
      ok := env.accepts(op);
      var after := if ok then docs[newId := Create(r)] else docs;
      ghost var e := Sent(op, [], if ok then [newId] else [], |states| - 1);
      if ok {
        CoveredByLast(w, trace, e, newId);
      }
      Sends(e, after);
    }

    // ----------------------------------------------------------------
    // Commands
    // ----------------------------------------------------------------

    /** Pre, PATCH, post: one request of a write that was confirmed. */
    method UpdateOne(id: string, body: Fields, draft: bool, backup: bool, env: Env) returns (ok: bool)
      requires Valid() && Settled(w, trace) && !dryRun && Confirmed in trace
      requires backup || Covered(w, trace, id)
      modifies this
      ensures Valid() && Settled(w, trace) && old(trace) <= trace
      ensures ok ==> w.sv.canon(id) in old(docs)
      ensures !backup ==> files == old(files) && seen == old(seen)
      ensures docs == if ok then old(docs)[w.sv.canon(id) := Save(old(docs)[w.sv.canon(id)], Request(body, draft))]
                      else old(docs)
      ensures Willing(env) && w.sv.canon(id) in old(docs) ==> ok
    {
      var op := NewOp();
      ok := PreWrite(op, [id], backup, env);
      if !ok {
        return;
      }
      ReadyToSend(w, old(trace), trace, docs, op, id, backup, |states| - 1);
      ok := SendAndPost(op, id, body, draft, env);
    }

    method SendAndPost(op: nat, id: string, body: Fields, draft: bool, env: Env) returns (ok: bool)
      requires Valid() && Settled(w, trace) && op < nextOp && !Posted(trace, op)
      requires RequestOk(w, trace, Sent(op, [id], [], |states| - 1))
      modifies this`docs, this`trace, this`states
      ensures Valid() && Settled(w, trace) && old(trace) <= trace
      ensures ok ==> w.sv.canon(id) in old(docs)
      ensures docs == if ok then old(docs)[w.sv.canon(id) := Save(old(docs)[w.sv.canon(id)], Request(body, draft))]
                      else old(docs)
      ensures Willing(env) && w.sv.canon(id) in old(docs) ==> ok
    {
      ok := SendUpdate(op, id, body, draft, env);
      PostWrite(op, ok);
    }

    /** Pre, POST, post. */
    method CreateOne(newId: string, r: Request, env: Env) returns (ok: bool)
      requires Valid() && Settled(w, trace) && !dryRun && Confirmed in trace && w.sv.canon(newId) == newId &&
               newId !in docs
      modifies this
      ensures Valid() && Settled(w, trace) && files == old(files) && seen == old(seen) && old(trace) <= trace
      ensures docs == if ok then old(docs)[newId := Create(r)] else old(docs)
      ensures Confirmed in trace && (ok ==> Covered(w, trace, newId))
      ensures Willing(env) ==> ok
    {
      var op := NewOp();
      ok := PreWrite(op, [], false, env);
      if !ok {
        return;
      }
      ok := SendCreate(op, newId, r, env);
      ghost var sent := trace;
      PostWrite(op, ok);
      if ok {
        CoveredGrows(w, sent, trace, newId);
      }
    }

    /** emitDryRun: a preview.  It writes one post-record and nothing else. */
    method EmitDryRun(total: int, level: Level, policy: Policy) returns (ok: bool)
      requires Valid() && Settled(w, trace) && dryRun
      modifies this`trace, this`nextOp
      ensures Valid() && Settled(w, trace) && ok == (total >= 0)
      ensures trace == if ok && w.auditOn then old(trace) + [Post(old(nextOp), true)] else old(trace)
    {
      var op := NewOp();
      if total < 0 {
        return false;
      }
      ok := Confirm(level, policy);
      PostWrite(op, true);
    }

    /** runCreateOne: one document created from the body sent, or previewed. */
    method RunCreateOne(newId: string, r: Request, policy: Policy, env: Env) returns (ok: bool)
      requires Valid() && Settled(w, trace) && w.sv.canon(newId) == newId && newId !in docs
      modifies this
      ensures Valid() && Settled(w, trace) && files == old(files) && seen == old(seen)
      ensures dryRun ==>
              docs == old(docs) && trace == if w.auditOn then old(trace) + [Post(old(nextOp), true)] else old(trace)
      ensures !dryRun && !Confirms(L1, dryRun, policy) ==> !ok && trace == old(trace)
      ensures !dryRun ==> docs == if ok then old(docs)[newId := Create(r)] else old(docs)
      ensures dryRun || (Willing(env) && Confirms(L1, dryRun, policy)) ==> ok
    {
      if dryRun {
        ok := EmitDryRun(1, L1, policy);
        return;
      }
      ok := Confirm(L1, policy);
      if !ok {
        return;
      }
      QuietKeeps(w, old(trace), trace, 0);
      ok := CreateOne(newId, r, env);
    }

    /**
     restoreDocBackup: the body, or the published state and then the draft on top,
     saved over the document as it is.  `sent` is how many of the requests were
     accepted; a failed one ends the restore.
     */
    method RestoreDocBackup(id: string, r: Restore, policy: Policy, env: Env) returns (ok: bool, sent: nat)
      requires Valid() && Settled(w, trace)
      modifies this
      ensures Valid() && Settled(w, trace) && old(trace) <= trace
      ensures w.sv.canon(id) !in old(docs) || Refused(r.flags, r.drafts) ==>
              !ok && docs == old(docs) && trace == old(trace)
      ensures w.sv.canon(id) in old(docs) ==> Restores(r, old(docs), w.sv.canon(id), sent, docs)
      ensures ok && !dryRun ==> sent == |r.Requests(old(docs)[w.sv.canon(id)])|
      ensures !dryRun && !Confirms(L2, dryRun, policy) ==> !ok && sent == 0 && trace == old(trace)
      ensures dryRun ==> docs == old(docs) && files == old(files) && seen == old(seen)
                         && trace == if ok && w.auditOn then old(trace) + [Post(old(nextOp), true)] else old(trace)
      ensures (w.sv.canon(id) in old(docs) && !Refused(r.flags, r.drafts)
               && (dryRun || (Willing(env) && Confirms(L2, dryRun, policy)))) ==> ok
    {
      var c := w.sv.canon(id);
      if c !in docs || Refused(r.flags, r.drafts) {
        return false, 0;
      }
      var pubBody, sendPub, body, draft, notRestored := Prepare(r, docs[c]);
      if dryRun {
        ok := EmitDryRun(1, L2, policy);
        return ok, 0;
      }
      ok := Confirm(L2, policy);
      QuietKeeps(w, old(trace), trace, 0);
      if !ok {
        return ok, 0;
      }
      ok, sent := SendRestore(id, pubBody, sendPub, body, draft, env);
    }

    /** The one or two requests of a restore. */
    method SendRestore(id: string, pubBody: Fields, sendPub: bool, body: Fields, draft: bool, env: Env)
      returns (ok: bool, sent: nat)
      requires Valid() && Settled(w, trace) && !dryRun && Confirmed in trace && w.sv.canon(id) in docs
      modifies this
      ensures Valid() && Settled(w, trace) && old(trace) <= trace
      ensures var reqs := (if sendPub then [Request(pubBody, false)] else []) + [Request(body, draft)];
              && sent <= |reqs| && (ok ==> sent == |reqs|)
              && docs == old(docs)[w.sv.canon(id) := Run(old(docs)[w.sv.canon(id)], reqs[..sent])]
      ensures Willing(env) ==> ok
    {
      var c := w.sv.canon(id);
      ghost var s := docs[c];
      var first, last := Request(pubBody, false), Request(body, draft);
      RunPrefixes(s, first, last);
      assert [first] + [last] == [first, last] && [] + [last] == [last];
      assert docs == docs[c := s];
      sent := 0;
      if sendPub {
        ok := UpdateOne(id, pubBody, false, true, env);
        if !ok {
          return;
        }
        sent := 1;
      }
      ok := UpdateOne(id, body, draft, true, env);
      if ok {
        sent := sent + 1;
      }
    }

    /**
     recreateDocBackup: the document is gone, so it is created again under a new id,
     and the draft, if the backup has one over a published state, saved on top.
     `sent` is how many of the requests were accepted.
     */
    method RecreateDocBackup(r: Restore, newId: string, policy: Policy, env: Env) returns (ok: bool, sent: nat)
      requires Valid() && Settled(w, trace) && w.sv.canon(newId) == newId && newId !in docs
      modifies this
      ensures Valid() && Settled(w, trace) && old(trace) <= trace
      ensures files == old(files) && seen == old(seen)
      ensures dryRun ==> docs == old(docs) && sent == 0
                         && trace == if w.auditOn then old(trace) + [Post(old(nextOp), true)] else old(trace)
      ensures !dryRun && !Confirms(L2, dryRun, policy) ==> !ok && sent == 0 && trace == old(trace)
      ensures docs == if sent == 0 then old(docs) else old(docs)[newId := r.Recreated(sent)]
      ensures ok && !dryRun ==> sent == if r.Recreation().1.Some? then 2 else 1
      ensures dryRun || (Willing(env) && Confirms(L2, dryRun, policy)) ==> ok
    {
      var create, top := PrepareRecreate(r);
      if dryRun {
        ok := EmitDryRun(1, L2, policy);
        return ok, 0;
      }
      ok := Confirm(L2, policy);
      QuietKeeps(w, old(trace), trace, 0);
      if !ok {
        return ok, 0;
      }
      ok, sent := SendRecreate(newId, create, top, env);
    }

    method SendRecreate(newId: string, create: Request, top: Option<Fields>, env: Env) returns (ok: bool, sent: nat)
      requires Valid() && Settled(w, trace) && !dryRun && Confirmed in trace && w.sv.canon(newId) == newId &&
               newId !in docs
      modifies this
      ensures Valid() && Settled(w, trace) && old(trace) <= trace
      ensures files == old(files) && seen == old(seen)
      ensures sent <= (if top.Some? then 2 else 1) && (ok ==> sent == if top.Some? then 2 else 1)
      ensures docs == if sent == 0 then old(docs) else
                      if sent == 1 then old(docs)[newId := Create(create)] else
                      old(docs)[newId := Save(Create(create), Request(top.value, true))]
      ensures Willing(env) ==> ok
    {
      ok := CreateOne(newId, create, env);
      if !ok {
        return false, 0;
      }
      if top.None? {
        return true, 1;
      }
      ok := SaveOnTop(newId, top.value, old(docs), Create(create), env);
      sent := if ok then 2 else 1;
    }

    /** The draft over the document just created, which needs no backup. */
    method SaveOnTop(newId: string, body: Fields, ghost before: Docs, ghost created: State, env: Env) returns (ok: bool)
      requires Valid() && Settled(w, trace) && !dryRun && Confirmed in trace
      requires docs == before[newId := created] && w.sv.canon(newId) == newId && Covered(w, trace, newId)
      modifies this
      ensures Valid() && Settled(w, trace) && old(trace) <= trace
      ensures files == old(files) && seen == old(seen)
      ensures docs == before[newId := if ok then Save(created, Request(body, true)) else created]
      ensures Willing(env) ==> ok
    {
      ok := UpdateOne(newId, body, true, false, env);
    }
  }

  /** The switch over the flags, and the one or two bodies. */
  method PrepareRecreate(r: Restore) returns (create: Request, top: Option<Fields>)
    ensures (create, top) == r.Recreation()
  {
    var body, notRestored := RestoreBodyOf(r.rec.doc, r.schema, r.upload);
    var draft := false;
    top := None;
    if r.drafts == Some(true) {
      var status := StatusOf(body);
      if r.flags.publish {
        body := body["_status" := Str("published")];
      } else if r.flags.asDraft || (status == "draft" && r.rec.published.None?) {
        body, draft := body["_status" := Str("draft")], true;
      } else if r.rec.published.Some? {
        top := Some(body["_status" := Str("draft")]);
        body, notRestored := RestoreBodyOf(r.rec.published.value, r.schema, r.upload);
        body := body["_status" := Str("published")];
      }
    }
    create := Request(body, draft);
  }

  /** The id was answered: a document that exists has a file under the key of the id. */
  ghost predicate Answered(w: World, trace: seq<Event>, docs: Docs, id: string) {
    Covered(w, trace, id) && (w.sv.canon(id) in docs ==> HasKey(trace, KeyOf(w.sv, id)))
  }

  /**
   The case in which one document gets two backups.  For any collection of text ids,
   and any form of an id the server accepts but prints differently, a backup of both
   forms writes two files, and the one under the form sent lacks the published state.
   */
  method BackUpTwoForms(sv: Service, raw: string, s: State, scrub: Fields -> Fields, env: Env)
    returns (files: seq<Record>, printed: nat, sent: nat)
    requires sv.WellCast() && !sv.numericIds && sv.canon(raw) != raw && Obliging(env)
    requires StatusOf(s.newest) == "draft" && StatusOf(s.live) == "published"
    ensures printed < |files| && sent < |files|
    ensures files[printed] == Record(scrub(s.newest), Some(scrub(s.live)))
    ensures files[sent] == Record(scrub(s.newest), None)
  {
    var w := World(sv, true, scrub, true, false);
    var c := sv.canon(raw);
    var inv := new Invocation(w, false, map[c := s]);
    var ok := inv.BackupDocs([c, raw], env);
    assert c in [c, raw] && raw in [c, raw];
    assert Answered(w, inv.trace, inv.docs, c) && Answered(w, inv.trace, inv.docs, raw);
    TextKey(sv, c);
    TextKey(sv, raw);
    FileOf(w, inv.trace, inv.seen, inv.files, inv.states, c, s);
    FileOf(w, inv.trace, inv.seen, inv.files, inv.states, raw, s);
    return inv.files, inv.seen[c], inv.seen[raw];
  }

  /** With one state and no request sent, the file of a key is a backup of it. */
  lemma FileOf(w: World, trace: seq<Event>, seen: map<string, nat>, files: seq<Record>, states: seq<Docs>,
               key: string, s: State)
    requires BackupsOk(w, trace, seen, files, states) && HasKey(trace, key)
    requires |states| == 1 && states[0] == map[w.sv.canon(key) := s]
    ensures key in seen && seen[key] < |files| && files[seen[key]] == RecordFor(w, key, s)
  {
    var j :| KeyAt(trace, j, key);
    StoredIsHonest(w, trace, seen, files, states, j);
  }

  /** Hexadecimal ids, of which the server prints the lower case. */
  const HEX: Service := Service((id: string) => if id == "6AF0" then "6af0" else id, false)

  const KIND: Env := Env((n: nat) => Some([]), (id: string) => true, true, (key: string) => true, (op: nat) => true,
                         (op: nat) => true)

  /** That case, with one document: the file under the upper-case id has no published state. */
  method BackUpHexTwice() returns (files: seq<Record>, printed: nat, sent: nat)
    ensures printed < |files| && sent < |files|
    ensures files[printed] == Record(map["_status" := Str("draft")], Some(map["_status" := Str("published")]))
    ensures files[sent] == Record(map["_status" := Str("draft")], None)
  {
    var s := State(map["_status" := Str("published")], map["_status" := Str("draft")]);
    files, printed, sent := BackUpTwoForms(HEX, "6AF0", s, (f: Fields) => f, KIND);
  }

  ghost predicate AllAnswered(w: World, trace: seq<Event>, docs: Docs, ids: seq<string>) {
    forall id :: id in ids ==> Answered(w, trace, docs, id)
  }

  /** Every read, file, record and request succeeds. */
  ghost predicate Willing(env: Env) { Obliging(env) && forall op :: env.auditable(op) && env.accepts(op) }

  /** Every read and every file succeeds. */
  ghost predicate Obliging(env: Env) {
    && (forall n :: env.listed(n).Some?) && (forall id :: env.readable(id)) && env.publishedReadable
    && (forall key :: env.storable(key))
  }

  /** What pre leaves behind is what a request needs. */
  lemma ReadyToSend(w: World, before: seq<Event>, after: seq<Event>, docs: Docs, op: nat, id: string, backup: bool,
                    at: nat)
    requires Quiet(before, after) && Confirmed in before && !SentIn(after, op)
    requires w.auditOn ==> Pre(op) in after
    requires w.backupsOn && backup ==> AllAnswered(w, after, docs, [id])
    requires backup || Covered(w, before, id)
    ensures RequestOk(w, after, Sent(op, [id], [], at))
  {
    if !backup {
      CoveredGrows(w, before, after, id);
    }
    assert w.backupsOn && backup ==> id in [id];
  }

  lemma StoreStep(w: World, trace: seq<Event>, seen: map<string, nat>, files: seq<Record>, states: seq<Docs>, next: nat,
                  docs: Docs, id: string)
    requires w.sv.WellCast() && Lawful(w, trace, seen, files, states, next) && docs == states[|states| - 1]
    requires KeyOf(w.sv, id) !in seen && w.sv.canon(id) in docs
    ensures var key := KeyOf(w.sv, id);
            && w.sv.canon(key) == w.sv.canon(id)
            && Lawful(w, trace + [Stored(key, |files|, |states| - 1)], seen[key := |files|],
                      files + [RecordFor(w, key, docs[w.sv.canon(id)])], states, next)
  {
    var key := KeyOf(w.sv, id);
    KeyIsPrintedIff(w.sv, id);
    LawfulStore(w, trace, seen, files, states, next, key, docs, RecordFor(w, key, docs[w.sv.canon(id)]));
  }

  lemma AnsweredByFile(w: World, trace: seq<Event>, e: Event, docs: Docs, id: string)
    requires e.Stored? && e.key == KeyOf(w.sv, id)
    ensures Answered(w, trace + [e], docs, id)
  {
    CoveredByLast(w, trace, e, id);
    StillThere(trace, e, e.key, 0);
  }

  /** A PATCH changes the document it names and no other. */
  lemma OneTarget(w: World, before: Docs, after: Docs, id: string)
    requires w.sv.WellCast() && forall c :: c in before ==> w.sv.canon(c) == c
    requires after.Keys == before.Keys && forall c :: c in after && c != w.sv.canon(id) ==> after[c] == before[c]
    ensures Frame(w, before, after, [id], []) && forall c :: c in after ==> w.sv.canon(c) == c
  {
    assert id in [id];
  }

  lemma SentStep(w: World, trace: seq<Event>, e: Event)
    requires e.Sent?
    ensures Settled(w, trace) ==> SettledBut(w, trace + [e], e.op)
    ensures Posted(trace + [e], e.op) <==> Posted(trace, e.op)
  {
    if Settled(w, trace) {
      SettledSend(w, trace, e);
    }
  }

  /** The document `c` went through the first `sent` requests of the restore, and no other changed. */
  ghost predicate Restores(r: Restore, before: Docs, c: string, sent: nat, after: Docs)
    requires c in before
  {
    && sent <= |r.Requests(before[c])|
    && after == before[c := Run(before[c], r.Requests(before[c])[..sent])]
  }

  lemma RunPrefixes(s: State, first: Request, last: Request)
    ensures Run(s, [last][..0]) == s && Run(s, [last][..1]) == Save(s, last)
    ensures Run(s, [first, last][..0]) == s && Run(s, [first, last][..1]) == Save(s, first)
    ensures Run(s, [first, last][..2]) == Save(Save(s, first), last)
  {
    assert [last][..1] == [last] && [first, last][..1] == [first] && [first, last][..2] == [first, last];
    TwoRequests(s, first, last);
    TwoRequests(s, first, first);
  }

  /** What a pre-record leaves as it was. */
  lemma PreStep(w: World, before: seq<Event>, trace: seq<Event>, docs: Docs, op: nat, ids: seq<string>)
    requires Quiet(before, trace)
    ensures var t := trace + [Pre(op)];
            && Quiet(before, t) && Pre(op) in t
            && (Settled(w, trace) ==> Settled(w, t)) && (Posted(t, op) <==> Posted(trace, op))
            && (SentIn(t, op) <==> SentIn(trace, op))
            && (AllAnswered(w, trace, docs, ids) ==> AllAnswered(w, t, docs, ids))
  {
    QuietStep(before, trace, Pre(op));
    QuietOne(trace, Pre(op));
    QuietKeeps(w, trace, trace + [Pre(op)], op);
    AllAnsweredMore(w, trace, Pre(op), docs, ids);
    assert (trace + [Pre(op)])[|trace|] == Pre(op);
  }

  lemma AllAnsweredMore(w: World, trace: seq<Event>, e: Event, docs: Docs, ids: seq<string>)
    ensures AllAnswered(w, trace, docs, ids) ==> AllAnswered(w, trace + [e], docs, ids)
  {
    if AllAnswered(w, trace, docs, ids) {
      AllAnsweredGrows(w, trace, trace + [e], docs, ids);
    }
  }

  lemma AllAnsweredGrows(w: World, before: seq<Event>, after: seq<Event>, docs: Docs, ids: seq<string>)
    requires before <= after && AllAnswered(w, before, docs, ids)
    ensures AllAnswered(w, after, docs, ids)
  {
    forall id | id in ids
      ensures Answered(w, after, docs, id)
    {
      AnsweredGrows(w, before, after, docs, id);
    }
  }

  lemma AnsweredGrows(w: World, before: seq<Event>, after: seq<Event>, docs: Docs, id: string)
    requires before <= after && Answered(w, before, docs, id)
    ensures Answered(w, after, docs, id)
  {
    CoveredGrows(w, before, after, id);
    if w.sv.canon(id) in docs {
      var j :| KeyAt(before, j, KeyOf(w.sv, id));
      assert KeyAt(after, j, KeyOf(w.sv, id));
    }
  }

  lemma StoredOneMore(w: World, start: seq<Event>, before: seq<Event>, after: seq<Event>, docs: Docs,
                      ids: seq<string>, i: nat, ok: bool)
    requires Quiet(start, before) && Quiet(before, after)
    requires i < |ids| && AllAnswered(w, before, docs, ids[..i]) && (ok ==> Answered(w, after, docs, ids[i]))
    ensures Quiet(start, after) && (ok ==> AllAnswered(w, after, docs, ids[..i + 1]))
  {
    QuietTrans(start, before, after);
    if ok {
      AnsweredOneMore(w, before, after, docs, ids, i);
    }
  }

  lemma AnsweredOneMore(w: World, before: seq<Event>, after: seq<Event>, docs: Docs, ids: seq<string>, i: nat)
    requires before <= after && i < |ids| && AllAnswered(w, before, docs, ids[..i]) && Answered(w, after, docs, ids[i])
    ensures AllAnswered(w, after, docs, ids[..i + 1])
  {
    AllAnsweredGrows(w, before, after, docs, ids[..i]);
    assert ids[..i + 1] == ids[..i] + [ids[i]];
  }

  lemma AnsweredChunk(w: World, before: seq<Event>, after: seq<Event>, docs: Docs, ids: seq<string>, i: nat, j: nat)
    requires before <= after && i <= j <= |ids|
    requires AllAnswered(w, before, docs, ids[..i]) && AllAnswered(w, after, docs, ids[i..j])
    ensures AllAnswered(w, after, docs, ids[..j])
  {
    AllAnsweredGrows(w, before, after, docs, ids[..i]);
    assert ids[..j] == ids[..i] + ids[i..j];
  }

  lemma AllAnsweredEnd(w: World, before: seq<Event>, after: seq<Event>, docs: Docs, ids: seq<string>, todo: seq<string>)
    requires before <= after && AllAnswered(w, after, docs, todo[..|todo|])
    requires forall id :: id in ids ==> id in todo || Answered(w, before, docs, id)
    ensures AllAnswered(w, after, docs, ids)
  {
    assert todo[..|todo|] == todo;
    forall id | id in ids
      ensures Answered(w, after, docs, id)
    {
      if id !in todo {
        AnsweredGrows(w, before, after, docs, id);
      }
    }
  }

  lemma QuietOne(trace: seq<Event>, e: Event)
    requires !e.Sent? && !e.Post?
    ensures Quiet(trace, trace + [e])
  {
    QuietStep(trace, trace, e);
  }

  lemma QuietNothing(trace: seq<Event>)
    ensures Quiet(trace, trace)
  {
  }
}
