/**
 Backup and restore of one document (internal/cli/backup.go, internal/cli/backups.go).

 The server keeps a live row and a newest version.  A plain save merges the body
 into the newest version and makes the result the live row as well; a draft save
 changes the newest version only.
 */
module Restore {
  import opened Wrappers
  import opened Json
  import opened Patch

  const MASK := "<redacted>"

  function StatusOf(doc: Fields): string {
    if "_status" in doc && doc["_status"].Str? then doc["_status"].s else ""
  }

  // ------------------------------------------------------------------
  // The server
  // ------------------------------------------------------------------

  datatype State = State(live: Fields, newest: Fields)

  datatype Request = Request(body: Fields, draft: bool)

  function Save(s: State, r: Request): State {
    var merged := ApplyPatch(s.newest, r.body);
    State(if r.draft then s.live else merged, merged)
  }

  /**
   A create stores its body as the live row and the newest version alike; draft=true
   only spares it the check of required fields.
   */
  function Create(r: Request): State {
    var stored := Patched(map[], r.body);
    State(stored, stored)
  }

  function Run(s: State, requests: seq<Request>): State
    decreases |requests|
  {
    if requests == [] then s else Run(Save(s, requests[0]), requests[1..])
  }

  // ------------------------------------------------------------------
  // Capture
  // ------------------------------------------------------------------

  /** What a backup file holds of a document. */
  datatype Record = Record(doc: Fields, published: Option<Fields>)

  /**
   The pre-write read takes the newest version where the entity is known to have
   drafts, and the live row too when that version is a draft over a published row;
   elsewhere it takes the live row.  `scrub` is what redaction does to a stored
   document.
   */
  function Capture(s: State, drafts: bool, scrub: Fields -> Fields): Record {
    Record(scrub(Read(s, drafts)),
           if drafts && StatusOf(s.newest) == "draft" && StatusOf(s.live) == "published"
           then Some(scrub(s.live)) else None)
  }

  function Read(s: State, drafts: bool): Fields { if drafts then s.newest else s.live }

  // ------------------------------------------------------------------
  // The body a restore sends
  // ------------------------------------------------------------------

  /** What dropMasked leaves. */
  function Unmask(v: Json): (r: Json)
    decreases v
  {
    match v
    case Obj(fields) => Obj(map k | k in fields && fields[k] != Str(MASK) :: Unmask(fields[k]))
    case Arr(items) => Arr(seq(|items|, i requires 0 <= i < |items| => Unmask(items[i])))
    case _ => v
  }

  /** A redacted value of an object: the only kind dropMasked removes. */
  predicate MaskedAt(v: Json, p: Path) {
    p != [] && p[|p| - 1].Key? && Lookup(v, p) == Some(Str(MASK))
  }

  /** Exactly the masked values are gone, and what is left is where it was. */
  lemma {:induction false} UnmaskExact(v: Json, p: Path)
    ensures Lookup(Unmask(v), p) ==
            if Lookup(v, p).None? || MaskedAt(v, p) then None else Some(Unmask(Lookup(v, p).value))
    decreases |p|
  {
    if p != [] && Child(v, p[0]).Some? {
      var c := Child(v, p[0]).value;
      UnmaskExact(c, p[1..]);
      assert |p| == 1 ==> p[1..] == [] && p[|p| - 1] == p[0];
      assert |p| > 1 ==> p[1..][|p| - 2] == p[|p| - 1];
    }
  }

  lemma {:induction false} UnmaskedIsPart(v: Json)
    ensures PartOf(Unmask(v), v)
    decreases v
  {
    match v
    case Obj(fields) =>
      forall k | k in fields && fields[k] != Str(MASK)
        ensures PartOf(Unmask(fields[k]), fields[k])
      {
        UnmaskedIsPart(fields[k]);
      }
    case Arr(items) =>
      forall i | 0 <= i < |items|
        ensures PartOf(Unmask(items[i]), items[i])
      {
        UnmaskedIsPart(items[i]);
      }
    case _ =>
  }

  /** `p` is a masked value of `v`, whose own path is `path`. */
  predicate MaskedBelow(v: Json, path: Path, p: Path) { path <= p && MaskedAt(v, p[|path|..]) }

  /** The same, one step down from `v`. */
  predicate MaskedUnder(v: Json, path: Path, st: Step, p: Path) {
    |p| > |path| && p[|path|] == st && MaskedBelow(v, path, p)
  }

  lemma MaskedAtStep(v: Json, q: Path)
    requires q != [] && Child(v, q[0]).Some?
    ensures var c := Child(v, q[0]).value;
            MaskedAt(v, q) <==> if c == Str(MASK) && q[0].Key? then |q| == 1 else MaskedAt(c, q[1..])
  {
    if |q| > 1 {
      assert q[1..][|q| - 2] == q[|q| - 1];
      assert Lookup(v, q) == Lookup(Child(v, q[0]).value, q[1..]);
    } else {
      assert q[1..] == [] && Lookup(v, q) == Lookup(Child(v, q[0]).value, []);
    }
  }

  lemma MaskedBelowStep(v: Json, path: Path, st: Step, p: Path)
    requires Child(v, st).Some?
    ensures var c := Child(v, st).value;
            MaskedUnder(v, path, st, p) <==>
            if c == Str(MASK) && st.Key? then p == path + [st] else MaskedBelow(c, path + [st], p)
  {
    if |p| > |path| && path <= p && p[|path|] == st {
      MaskedAtStep(v, p[|path|..]);
      assert p[|path|..][1..] == p[|path| + 1..];
      assert p == path + [st] + p[|path| + 1..];
    }
  }

  lemma MaskedBelowNeedsStep(v: Json, path: Path, p: Path)
    requires MaskedBelow(v, path, p)
    ensures |p| > |path| && Child(v, p[|path|]).Some? && MaskedUnder(v, path, p[|path|], p)
  {
  }

  /** dropMasked: the value without its masked parts, and the paths of those. */
  method DropMasked(v: Json, path: Path) returns (r: Json, dropped: set<Path>)
    ensures r == Unmask(v)
    ensures forall p :: p in dropped <==> MaskedBelow(v, path, p)
    decreases v, 1
  {
    if v.Obj? {
      r, dropped := DropMaskedFields(v, path);
    } else if v.Arr? {
      r, dropped := DropMaskedItems(v, path);
    } else {
      r, dropped := v, {};
    }
    forall p | MaskedBelow(v, path, p)
      ensures p in dropped
    {
      MaskedBelowNeedsStep(v, path, p);
    }
  }

  method DropMaskedFields(v: Json, path: Path) returns (r: Json, dropped: set<Path>)
    requires v.Obj?
    ensures r == Unmask(v)
    ensures forall p, k :: k in v.fields ==> (MaskedUnder(v, path, Key(k), p) ==> p in dropped)
    ensures forall p :: p in dropped ==> MaskedBelow(v, path, p)
    decreases v, 0
  {
    var out: Fields := map[];
    dropped := {};
    var keys := v.fields.Keys;
    while keys != {}
      invariant keys <= v.fields.Keys
      invariant forall k :: k in out <==> k in v.fields.Keys - keys && v.fields[k] != Str(MASK)
      invariant forall k :: k in out ==> out[k] == Unmask(v.fields[k])
      invariant forall p, k :: k in v.fields.Keys - keys && MaskedUnder(v, path, Key(k), p) ==> p in dropped
      invariant forall p :: p in dropped ==> MaskedBelow(v, path, p)
      decreases |keys|
    {
      var k :| k in keys;
      keys := keys - {k};
      var below: set<Path>;
      if v.fields[k] == Str(MASK) {
        below := {path + [Key(k)]};
      } else {
        var kept: Json;
        kept, below := DropMasked(v.fields[k], path + [Key(k)]);
        out := out[k := kept];
      }
      forall p
        ensures p in below <==> MaskedUnder(v, path, Key(k), p)
      {
        MaskedBelowStep(v, path, Key(k), p);
      }
      dropped := dropped + below;
    }
    r := Obj(out);
  }

  method DropMaskedItems(v: Json, path: Path) returns (r: Json, dropped: set<Path>)
    requires v.Arr?
    ensures r == Unmask(v)
    ensures forall p, i :: 0 <= i < |v.items| ==> (MaskedUnder(v, path, Index(i), p) ==> p in dropped)
    ensures forall p :: p in dropped ==> MaskedBelow(v, path, p)
    decreases v, 0
  {
    var out: seq<Json> := [];
    dropped := {};
    for i := 0 to |v.items|
      invariant |out| == i && forall j :: 0 <= j < i ==> out[j] == Unmask(v.items[j])
      invariant forall p, j :: 0 <= j < i && MaskedUnder(v, path, Index(j), p) ==> p in dropped
      invariant forall p :: p in dropped ==> MaskedBelow(v, path, p)
    {
      var kept, below := DropMasked(v.items[i], path + [Index(i)]);
      forall p
        ensures p in below <==> MaskedUnder(v, path, Index(i), p)
      {
        MaskedBelowStep(v, path, Index(i), p);
      }
      out := out + [kept];
      dropped := dropped + below;
    }
    r := Arr(out);
  }

  datatype Field = Field(path: string, parent: bool, readOnly: bool)

  /** What restore reads of a schema shard. */
  datatype Schema = Schema(joins: seq<string>, fields: seq<Field>)

  const SERVER_OWNED := ["id", "createdAt", "updatedAt", "sizes", "thumbnailURL", "globalType"]

  /** Left out without a word: the server sets it, or computes it from other documents. */
  predicate DropsSilently(k: string, schema: Option<Schema>, upload: bool) {
    k in SERVER_OWNED || (upload && k == "url") || (schema.Some? && k in schema.value.joins)
  }

  /** A root field the schema marks read-only, the two a restore must set excepted. */
  predicate ReadOnlyIn(k: string, fields: seq<Field>) {
    k != "_status" && k != "deletedAt" && Field(k, false, true) in fields
  }

  predicate ReadOnly(k: string, schema: Option<Schema>) { schema.Some? && ReadOnlyIn(k, schema.value.fields) }

  predicate Kept(k: string, schema: Option<Schema>, upload: bool) {
    !DropsSilently(k, schema, upload) && !ReadOnly(k, schema)
  }

  /** What restoreBodyOf sends. */
  function RestoreBody(doc: Fields, schema: Option<Schema>, upload: bool): Fields {
    map k | k in doc && Kept(k, schema, upload) && doc[k] != Str(MASK) :: Unmask(doc[k])
  }

  /** A path restoreBodyOf reports: a read-only field of the document, or a masked value among what is left. */
  predicate NotRestored(p: Path, doc: Fields, schema: Option<Schema>, upload: bool) {
    p != [] && p[0].Key? &&
    var k := p[0].key;
    if Kept(k, schema, upload) then MaskedAt(Obj(doc), p)
    else p == [Key(k)] && k in doc && !DropsSilently(k, schema, upload)
  }

  /** The server sets it or computes it, whatever the schema says. */
  predicate ServerSets(k: string, upload: bool) {
    k in ["id", "createdAt", "updatedAt", "sizes", "thumbnailURL", "globalType"] || (upload && k == "url")
  }

  /** The schema marks the root field read-only, or as a join. */
  ghost predicate SchemaForbids(k: string, schema: Option<Schema>) {
    schema.Some? &&
    (k in schema.value.joins ||
     (k !in ["_status", "deletedAt"] &&
      exists i :: 0 <= i < |schema.value.fields| && schema.value.fields[i].path == k
                  && !schema.value.fields[i].parent && schema.value.fields[i].readOnly))
  }

  /** A field of the document is sent unless the server sets it, the schema forbids it, or it is masked. */
  lemma SentIff(doc: Fields, schema: Option<Schema>, upload: bool, k: string)
    ensures k in RestoreBody(doc, schema, upload) <==>
            && k in doc && !ServerSets(k, upload) && !SchemaForbids(k, schema) && doc[k] != Str("<redacted>")
    ensures k in RestoreBody(doc, schema, upload) ==> RestoreBody(doc, schema, upload)[k] == Unmask(doc[k])
  {
    if schema.Some? {
      FieldIn(k, schema.value.fields);
    }
  }

  lemma FieldIn(k: string, fields: seq<Field>)
    ensures Field(k, false, true) in fields <==>
            exists i :: 0 <= i < |fields| && fields[i].path == k && !fields[i].parent && fields[i].readOnly
  {
    if i :| 0 <= i < |fields| && fields[i].path == k && !fields[i].parent && fields[i].readOnly {
      assert fields[i] == Field(k, false, true);
    }
  }

  /** Nothing is lost without a word: a captured value is sent, reported, or the server's own. */
  lemma Accounted(doc: Fields, schema: Option<Schema>, upload: bool, p: Path)
    requires p != [] && p[0].Key? && Lookup(Obj(doc), p).Some? && Lookup(Obj(doc), p).value.Scalar()
    ensures Lookup(Obj(RestoreBody(doc, schema, upload)), p) == Lookup(Obj(doc), p)
            || NotRestored(p[..1], doc, schema, upload) || NotRestored(p, doc, schema, upload)
            || DropsSilently(p[0].key, schema, upload)
  {
    var k := p[0].key;
    assert p[..1] == [Key(k)];
    if Kept(k, schema, upload) && !MaskedAt(Obj(doc), p) {
      UnmaskExact(Obj(doc), p);
      assert Lookup(Obj(RestoreBody(doc, schema, upload)), p) == Lookup(Unmask(Obj(doc)), p);
    }
  }

  /**
   restoreBodyOf: the body, and the paths it does not restore and says so — the
   read-only fields the document holds and the masked values among what is left.
   */
  method RestoreBodyOf(doc: Fields, schema: Option<Schema>, upload: bool)
    returns (body: Fields, notRestored: set<Path>)
    ensures body == RestoreBody(doc, schema, upload)
    ensures forall p: Path :: p in notRestored <==> NotRestored(p, doc, schema, upload)
  {
    var reported;
    body, reported := DropUnsent(doc, schema, upload);
    var unmasked, masked := DropMasked(Obj(body), []);
    notRestored := (set k | k in reported :: [Key(k)]) + masked;
    forall p: Path
      ensures p in notRestored <==> NotRestored(p, doc, schema, upload)
    {
      ReportedExactly(doc, body, schema, upload, reported, masked, p);
    }
    body := unmasked.fields;
  }

  lemma ReportedExactly(doc: Fields, body: Fields, schema: Option<Schema>, upload: bool,
                        reported: set<string>, masked: set<Path>, p: Path)
    requires forall k :: k in body <==> k in doc && Kept(k, schema, upload)
    requires forall k :: k in body ==> doc[k] == body[k]
    requires forall k :: k in reported <==> k in doc && ReadOnly(k, schema) && !DropsSilently(k, schema, upload)
    requires p in masked <==> MaskedBelow(Obj(body), [], p)
    ensures p in (set k | k in reported :: [Key(k)]) + masked <==> NotRestored(p, doc, schema, upload)
  {
    assert p[0..] == p;
    MaskedInBody(doc, body, p);
    if p in masked {
      MaskedBelowNeedsStep(Obj(body), [], p);
    }
  }

  method DropUnsent(doc: Fields, schema: Option<Schema>, upload: bool) returns (body: Fields, reported: set<string>)
    ensures forall k :: k in body <==> k in doc && Kept(k, schema, upload)
    ensures forall k :: k in body ==> doc[k] == body[k]
    ensures forall k :: k in reported <==> k in doc && ReadOnly(k, schema) && !DropsSilently(k, schema, upload)
  {
    body := DropKeys(doc, SERVER_OWNED + if upload then ["url"] else []);
    reported := {};
    if schema.Some? {
      body := DropKeys(body, schema.value.joins);
      body, reported := DropReadOnly(body, schema.value);
    }
  }

  lemma MaskedInBody(doc: Fields, body: Fields, p: Path)
    requires forall k :: k in body ==> k in doc && doc[k] == body[k]
    ensures p != [] && p[0].Key? && p[0].key in body ==> (MaskedAt(Obj(body), p) <==> MaskedAt(Obj(doc), p))
  {
  }

  method DropKeys(doc: Fields, keys: seq<string>) returns (body: Fields)
    ensures body == map k | k in doc && k !in keys :: doc[k]
  {
    body := doc;
    for i := 0 to |keys|
      invariant body == map k | k in doc && k !in keys[..i] :: doc[k]
    {
      assert keys[..i + 1] == keys[..i] + [keys[i]];
      body := body - {keys[i]};
    }
    assert keys[..|keys|] == keys;
  }

  method DropReadOnly(doc: Fields, schema: Schema) returns (body: Fields, reported: set<string>)
    requires forall k :: k in doc ==> k !in schema.joins
    ensures body == map k | k in doc && !ReadOnlyIn(k, schema.fields) :: doc[k]
    ensures reported == set k | k in doc && ReadOnlyIn(k, schema.fields)
  {
    body, reported := doc, {};
    for i := 0 to |schema.fields|
      invariant body == map k | k in doc && !ReadOnlyIn(k, schema.fields[..i]) :: doc[k]
      invariant reported == set k | k in doc && ReadOnlyIn(k, schema.fields[..i])
    {
      var f := schema.fields[i];
      assert schema.fields[..i + 1] == schema.fields[..i] + [f];
      if !f.parent && f.readOnly && f.path !in schema.joins && f.path != "_status" && f.path != "deletedAt" {
        if f.path in body {
          body := body - {f.path};
          reported := reported + {f.path};
        }
      }
    }
    assert schema.fields[..|schema.fields|] == schema.fields;
  }

  // ------------------------------------------------------------------
  // What a restore sends
  // ------------------------------------------------------------------

  datatype Flags = Flags(asDraft: bool, publish: bool)

  datatype Mode = Mode(draft: bool, status: string, asDraftWarn: bool, twoStep: bool)

  const PLAIN := Mode(false, "", false, false)

  /** `drafts` is None when the schema does not say whether the entity has drafts. */
  function RestoreDraftMode(flags: Flags, drafts: Option<bool>, backupStatus: string, liveStatus: string,
                            hasPublished: bool): Mode
  {
    if drafts != Some(true) then PLAIN
    else if flags.asDraft then Mode(true, "draft", false, false)
    else if flags.publish then Mode(false, "published", false, false)
    else if hasPublished then Mode(true, "draft", false, true)
    else if backupStatus == "draft" then Mode(true, "draft", liveStatus == "published", false)
    else PLAIN
  }

  /** The combinations of flags that are refused before anything is read or sent. */
  predicate Refused(flags: Flags, drafts: Option<bool>) {
    (flags.asDraft && flags.publish) || ((flags.asDraft || flags.publish) && drafts == Some(false))
  }

  /** Refused are both flags together, and either where the entity is known to have no drafts. */
  lemma RefusedIff(flags: Flags, drafts: Option<bool>)
    ensures Refused(flags, drafts) <==>
            flags == Flags(true, true) || (flags != Flags(false, false) && drafts == Some(false))
  {
  }

  datatype Restore = Restore(rec: Record, flags: Flags, drafts: Option<bool>, schema: Option<Schema>, upload: bool)
  {
    function Mode(s: State): Mode {
      RestoreDraftMode(flags, drafts, StatusOf(rec.doc), StatusOf(s.live), rec.published.Some?)
    }

    /** The body of the last request. */
    function Body(s: State): Fields {
      var body := RestoreBody(rec.doc, schema, upload);
      if Mode(s).status == "" then body else body["_status" := Str(Mode(s).status)]
    }

    /** The body of the first of two. */
    function PublishedBody(): Fields
      requires rec.published.Some?
    {
      RestoreBody(rec.published.value, schema, upload)["_status" := Str("published")]
    }

    /** Step 1 is skipped when the live row already holds what it would write. */
    predicate SkipPublished(s: State)
      requires rec.published.Some?
    {
      StatusOf(s.live) == "published" && ApplyPatch(s.live, PublishedBody()) == s.live
    }

    /** The paths the not-restored warning names. */
    predicate NotSent(s: State, p: Path) {
      || NotRestored(p, rec.doc, schema, upload)
      || (Mode(s).twoStep && NotRestored(p, rec.published.value, schema, upload))
    }

    /** Re-creating a deleted document: the create, and the body of the draft saved on top of it, if any. */
    function Recreation(): (Request, Option<Fields>) {
      var body := RestoreBody(rec.doc, schema, upload);
      if drafts != Some(true) then (Request(body, false), None)
      else if flags.publish then (Request(body["_status" := Str("published")], false), None)
      else if flags.asDraft || (StatusOf(body) == "draft" && rec.published.None?)
      then (Request(body["_status" := Str("draft")], true), None)
      else if rec.published.Some? then (Request(PublishedBody(), false), Some(body["_status" := Str("draft")]))
      else (Request(body, false), None)
    }

    /** The document after one or both of its requests. */
    function Recreated(sent: nat): State {
      var (create, top) := Recreation();
      if sent >= 2 && top.Some? then Save(Create(create), Request(top.value, true)) else Create(create)
    }

    /** Everything a restore over the state `s` sends, in order. */
    function Requests(s: State): seq<Request> {
      if Refused(flags, drafts) then []
      else
        (if Mode(s).twoStep && !SkipPublished(s) then [Request(PublishedBody(), false)] else [])
        + [Request(Body(s), Mode(s).draft)]
    }
  }

  /** The bodies and the mode, worked out before anything is sent. */
  method Prepare(r: Restore, s: State)
    returns (pubBody: Fields, sendPub: bool, body: Fields, draft: bool, notRestored: set<Path>)
    requires !Refused(r.flags, r.drafts)
    ensures r.Requests(s) == (if sendPub then [Request(pubBody, false)] else []) + [Request(body, draft)]
    ensures forall p: Path :: p in notRestored <==> r.NotSent(s, p)
  {
    body, notRestored := RestoreBodyOf(r.rec.doc, r.schema, r.upload);
    var mode := RestoreDraftMode(r.flags, r.drafts, StatusOf(r.rec.doc), StatusOf(s.live), r.rec.published.Some?);
    draft := mode.draft;
    if mode.status != "" {
      body := body["_status" := Str(mode.status)];
    }
    pubBody, sendPub := map[], false;
    if mode.twoStep {
      var pubDropped: set<Path>;
      pubBody, pubDropped := RestoreBodyOf(r.rec.published.value, r.schema, r.upload);
      pubBody := pubBody["_status" := Str("published")];
      notRestored := notRestored + pubDropped;
      sendPub := !(StatusOf(s.live) == "published" && ApplyPatch(s.live, pubBody) == s.live);
    }
  }

  lemma {:induction false} RunSnoc(s: State, requests: seq<Request>, r: Request)
    ensures Run(s, requests + [r]) == Save(Run(s, requests), r)
    decreases |requests|
  {
    if requests == [] {
      assert [] + [r] == [r];
    } else {
      assert (requests + [r])[1..] == requests[1..] + [r];
      RunSnoc(Save(s, requests[0]), requests[1..], r);
    }
  }

  // ------------------------------------------------------------------
  // Backup then restore is a round trip
  // ------------------------------------------------------------------

  /** `doc` holds, in place, everything of `captured` that `body` has. */
  ghost predicate Restored(doc: Fields, body: Fields, captured: Fields) {
    forall k :: k in body ==> k in doc && Carries(doc[k], body[k]) && k in captured && PartOf(body[k], captured[k])
  }

  lemma BodyIsPart(doc: Fields, schema: Option<Schema>, upload: bool)
    ensures var body := RestoreBody(doc, schema, upload);
            "id" !in body && forall k :: k in body ==> k in doc && PartOf(body[k], doc[k])
  {
    forall k | k in RestoreBody(doc, schema, upload)
      ensures PartOf(Unmask(doc[k]), doc[k])
    {
      UnmaskedIsPart(doc[k]);
    }
    assert SERVER_OWNED[0] == "id";
  }

  /** A save of a body that is part of a captured document restores it. */
  lemma SaveRestores(s: State, body: Fields, draft: bool, captured: Fields)
    requires "id" !in body && forall k :: k in body ==> k in captured && PartOf(body[k], captured[k])
    ensures Restored(Save(s, Request(body, draft)).newest, body, captured)
  {
    SaveStoresBody(s.newest, body);
  }

  /** Setting the status a document already has leaves the body part of it. */
  lemma StatusIsPart(doc: Fields, schema: Option<Schema>, upload: bool, status: string)
    requires "_status" in doc && doc["_status"] == Str(status)
    ensures var body := RestoreBody(doc, schema, upload)["_status" := Str(status)];
            "id" !in body && forall k :: k in body ==> k in doc && PartOf(body[k], doc[k])
  {
    BodyIsPart(doc, schema, upload);
  }

  const NO_FLAGS := Flags(false, false)

  /**
   The round trip.  Whatever state a backup was captured from, whatever was known of
   drafts then, and whatever saves came after, a default restore makes the newest version hold every captured value
   it sends.  After a plain save the live row is that version; under a draft it is as
   it was, or, when a published state lay under the captured draft, holds that again.
   */
  lemma RoundTrip(s0: State, later: seq<Request>, captureDrafts: bool, scrub: Fields -> Fields, r: Restore)
    requires r.rec == Capture(s0, captureDrafts, scrub) && r.flags == NO_FLAGS
    requires StatusOf(scrub(s0.newest)) == StatusOf(s0.newest) && StatusOf(scrub(s0.live)) == StatusOf(s0.live)
    ensures var s1 := Run(s0, later);
            var s2 := Run(s1, r.Requests(s1));
            && Restored(s2.newest, r.Body(s1), r.rec.doc)
            && (!r.Mode(s1).draft ==> s2.live == s2.newest)
            && (r.Mode(s1).draft && !r.Mode(s1).twoStep ==> s2.live == s1.live)
            && (r.drafts == Some(true) && r.rec.published.Some? ==>
                  Restored(s2.live, r.PublishedBody(), r.rec.published.value))
  {
    var s1 := Run(s0, later);
    RestoreReaches(r, s1);
    BodyIsPart(r.rec.doc, r.schema, r.upload);
    if r.Mode(s1).status != "" {
      StatusIsPart(r.rec.doc, r.schema, r.upload, "draft");
    }
    var sp := if r.Mode(s1).twoStep && !r.SkipPublished(s1) then Save(s1, Request(r.PublishedBody(), false)) else s1;
    SaveRestores(sp, r.Body(s1), r.Mode(s1).draft, r.rec.doc);
    if r.rec.published.Some? {
      StatusIsPart(r.rec.published.value, r.schema, r.upload, "published");
      SaveRestores(s1, r.PublishedBody(), false, r.rec.published.value);
      SaveRestores(State(s1.live, s1.live), r.PublishedBody(), false, r.rec.published.value);
    }
  }

  /** A create stores every value sent. */
  lemma CreateRestores(body: Fields, draft: bool, captured: Fields)
    requires forall k :: k in body ==> k in captured && PartOf(body[k], captured[k])
    ensures Restored(Create(Request(body, draft)).newest, body, captured)
  {
    forall k | k in body
      ensures Carries(Create(Request(body, draft)).newest[k], body[k])
    {
      MergeCarries(Null, body[k]);
    }
  }

  /**
   A document that is gone comes back under its new id in the shape it had: every
   captured value sent is in the newest version, and a published state under a
   captured draft is live, with the draft over it.
   */
  lemma RecreateRoundTrip(s0: State, captureDrafts: bool, scrub: Fields -> Fields, r: Restore)
    requires r.rec == Capture(s0, captureDrafts, scrub) && r.flags == NO_FLAGS
    requires StatusOf(scrub(s0.newest)) == StatusOf(s0.newest) && StatusOf(scrub(s0.live)) == StatusOf(s0.live)
    ensures var s := r.Recreated(2);
            var body := RestoreBody(r.rec.doc, r.schema, r.upload);
            && Restored(s.newest, body, r.rec.doc)
            && (r.drafts == Some(true) && r.rec.published.Some? ==>
                  && Restored(s.live, r.PublishedBody(), r.rec.published.value)
                  && StatusOf(s.live) == "published" && StatusOf(s.newest) == "draft")
  {
    var body := RestoreBody(r.rec.doc, r.schema, r.upload);
    if r.drafts == Some(true) && r.rec.published.Some? {
      RecreateBoth(r, body);
    } else {
      assert r.Recreation().1.None? && r.Recreation().0.body == body;
      BodyIsPart(r.rec.doc, r.schema, r.upload);
      CreateRestores(body, r.Recreation().0.draft, r.rec.doc);
    }
  }

  lemma RecreateBoth(r: Restore, body: Fields)
    requires body == RestoreBody(r.rec.doc, r.schema, r.upload)
    requires r.flags == NO_FLAGS && r.drafts == Some(true) && r.rec.published.Some?
    requires StatusOf(r.rec.doc) == "draft" && StatusOf(r.rec.published.value) == "published"
    ensures var s := r.Recreated(2);
            && Restored(s.newest, body, r.rec.doc)
            && Restored(s.live, r.PublishedBody(), r.rec.published.value)
            && StatusOf(s.live) == "published" && StatusOf(s.newest) == "draft"
  {
    var first, top := r.PublishedBody(), body["_status" := Str("draft")];
    var created := Create(Request(first, false));
    assert r.Recreated(2) == Save(created, Request(top, true));
    StatusIsPart(r.rec.doc, r.schema, r.upload, "draft");
    StatusIsPart(r.rec.published.value, r.schema, r.upload, "published");
    CreateRestores(first, false, r.rec.published.value);
    SaveRestores(created, top, true, r.rec.doc);
    SavedStatus(created.newest, top);
  }

  /** The state a restore ends in. */
  lemma RestoreReaches(r: Restore, s: State)
    requires !Refused(r.flags, r.drafts)
    ensures var sp := if r.Mode(s).twoStep && !r.SkipPublished(s)
                      then Save(s, Request(r.PublishedBody(), false)) else s;
            Run(s, r.Requests(s)) == Save(sp, Request(r.Body(s), r.Mode(s).draft))
  {
    var last := Request(r.Body(s), r.Mode(s).draft);
    if r.Mode(s).twoStep && !r.SkipPublished(s) {
      var first := Request(r.PublishedBody(), false);
      assert r.Requests(s) == [first, last];
      TwoRequests(s, first, last);
    } else {
      assert r.Requests(s) == [last];
      TwoRequests(s, last, last);
    }
  }

  /** With --publish the restored document goes live as it is saved. */
  lemma PublishGoesLive(r: Restore, s: State)
    requires r.drafts == Some(true) && r.flags == Flags(false, true)
    ensures var t := Run(s, r.Requests(s));
            && t.live == t.newest && StatusOf(t.live) == "published"
            && t.newest == ApplyPatch(s.newest,
                                      RestoreBody(r.rec.doc, r.schema, r.upload)["_status" := Str("published")])
  {
    RestoreReaches(r, s);
    SavedStatus(s.newest, r.Body(s));
  }

  /** With --draft the live row stays as it is, and the backup becomes the newest version. */
  lemma DraftLeavesLive(r: Restore, s: State)
    requires r.drafts == Some(true) && r.flags == Flags(true, false)
    ensures var t := Run(s, r.Requests(s));
            && t.live == s.live && StatusOf(t.newest) == "draft"
            && t.newest == ApplyPatch(s.newest, RestoreBody(r.rec.doc, r.schema, r.upload)["_status" := Str("draft")])
  {
    RestoreReaches(r, s);
    SavedStatus(s.newest, r.Body(s));
  }

  /** Without a flag a backup of a draft alone is saved as one, and that is said when a live page is under it. */
  lemma DraftStaysDraft(r: Restore, s: State)
    requires r.drafts == Some(true) && r.flags == NO_FLAGS && r.rec.published.None? && StatusOf(r.rec.doc) == "draft"
    ensures Run(s, r.Requests(s)).live == s.live
    ensures r.Mode(s).asDraftWarn <==> StatusOf(s.live) == "published"
  {
    RestoreReaches(r, s);
  }

  /** A capture: the newest version and, under a draft, the published row; without drafts the live row alone. */
  lemma CaptureIs(s: State, scrub: Fields -> Fields)
    ensures Capture(s, false, scrub) == Record(scrub(s.live), None)
    ensures StatusOf(s.newest) == "draft" && StatusOf(s.live) == "published" ==>
              Capture(s, true, scrub) == Record(scrub(s.newest), Some(scrub(s.live)))
    ensures !(StatusOf(s.newest) == "draft" && StatusOf(s.live) == "published") ==>
              Capture(s, true, scrub) == Record(scrub(s.newest), None)
  {
  }

  /** In a restored document every scalar sent is back where rows like its own are stored, with the value captured. */
  lemma LeafRestored(doc: Fields, body: Fields, captured: Fields, k: string, p: Path)
    requires Restored(doc, body, captured) && k in body && StoredAt(body[k], p).Some?
    requires Lookup(body[k], p).Some? && Lookup(body[k], p).value.Scalar()
    ensures Lookup(doc[k], StoredAt(body[k], p).value) == Lookup(captured[k], p) == Lookup(body[k], p)
  {
    CarriedLeaf(doc[k], body[k], p);
    PartLeaf(body[k], captured[k], p);
  }

  /**
   Skipping step 1 of a two-step restore.  The live row holds the published state
   either way, though it need not be the same row; and the newest version ends up the
   same, provided the draft's body decides everything the published one does.
   */
  lemma SkippingIsSafe(r: Restore, s: State)
    requires !Refused(r.flags, r.drafts) && r.Mode(s).twoStep && r.SkipPublished(s)
    ensures Run(s, r.Requests(s)) == Run(s, [Request(r.Body(s), true)])
    ensures var skipped, full := Run(s, r.Requests(s)), BothSteps(r, s);
            && (forall k :: k in r.PublishedBody() && k != "id" ==>
                  && k in skipped.live && Carries(skipped.live[k], r.PublishedBody()[k])
                  && k in full.live && Carries(full.live[k], r.PublishedBody()[k]))
            && (CoversFields(r.Body(s), r.PublishedBody()) ==> full.newest == skipped.newest)
  {
    var first, last := Request(r.PublishedBody(), false), Request(r.Body(s), true);
    assert r.Requests(s) == [last];
    TwoRequests(s, first, last);
    SaveStoresBody(s.live, first.body);
    SaveStoresBody(s.newest, first.body);
    if CoversFields(last.body, first.body) {
      SaveOverwrites(s.newest, first.body, last.body);
    }
  }

  /** The two-step restore with its first step sent. */
  function BothSteps(r: Restore, s: State): State
    requires r.rec.published.Some?
  {
    Run(s, [Request(r.PublishedBody(), false), Request(r.Body(s), true)])
  }

  /** Skipping step 1 leaves the newest version as both steps would. */
  ghost predicate SkipKeepsNewest(r: Restore, s: State)
    requires r.rec.published.Some?
  {
    Run(s, r.Requests(s)).newest == BothSteps(r, s).newest
  }

  /**
   The exact condition for the newest version, in the two bodies alone: over a live
   row that lets step 1 be skipped, the newest version is the one both steps would
   leave, whatever it was, if and only if the draft's body decides everything the
   published one does.
   */
  lemma SkipKeepsNewestIff(r: Restore, live: Fields)
    requires !Refused(r.flags, r.drafts) && r.Mode(State(live, live)).twoStep && r.SkipPublished(State(live, live))
    requires forall k :: k in r.PublishedBody() ==> NoTwins(r.PublishedBody()[k])
    ensures (forall newest :: SkipKeepsNewest(r, State(live, newest)))
            <==> CoversFields(r.Body(State(live, live)), r.PublishedBody())
  {
    var first, last := r.PublishedBody(), r.Body(State(live, live));
    forall newest
      ensures SkipKeepsNewest(r, State(live, newest)) <==>
              ApplyPatch(ApplyPatch(newest, first), last) == ApplyPatch(newest, last)
    {
      SkipIsOneSave(r, State(live, newest));
    }
    if CoversFields(last, first) {
      forall newest
        ensures SkipKeepsNewest(r, State(live, newest))
      {
        SaveOverwrites(newest, first, last);
      }
    } else {
      var newest := TellingSave(first, last);
      assert !SkipKeepsNewest(r, State(live, newest));
    }
  }

  lemma SkipIsOneSave(r: Restore, s: State)
    requires !Refused(r.flags, r.drafts) && r.Mode(s).twoStep && r.SkipPublished(s)
    ensures SkipKeepsNewest(r, s) <==>
            ApplyPatch(ApplyPatch(s.newest, r.PublishedBody()), r.Body(s)) == ApplyPatch(s.newest, r.Body(s))
  {
    var first, last := Request(r.PublishedBody(), false), Request(r.Body(s), true);
    assert r.Requests(s) == [last];
    TwoRequests(s, first, last);
  }

  /**
   The exact condition for the whole outcome, known before anything is sent: the skip
   changes nothing if and only if the newest version and the live row agree on every
   key a body does not send and merge alike on every key it does, for the published
   body and for the draft's.  The live row needs the first of the two alone, and so
   does the whole when the draft's body decides everything the published one does.
   */
  lemma SkipChangesNothingIff(r: Restore, s: State)
    requires !Refused(r.flags, r.drafts) && r.Mode(s).twoStep && r.SkipPublished(s)
    ensures var skipped, full := Run(s, r.Requests(s)), BothSteps(r, s);
            && (skipped.live == full.live <==> MergeAlike(s.newest, s.live, r.PublishedBody()))
            && (skipped == full <==>
                  MergeAlike(s.newest, s.live, r.PublishedBody()) && MergeAlike(s.newest, s.live, r.Body(s)))
            && (CoversFields(r.Body(s), r.PublishedBody()) ==>
                  (skipped == full <==> MergeAlike(s.newest, s.live, r.PublishedBody())))
  {
    var first, last := r.PublishedBody(), r.Body(s);
    SkipEnds(r, s);
    SavedAlikeIff(s.newest, s.live, first);
    SavedAlikeIff(s.newest, s.live, last);
    if CoversFields(last, first) {
      SaveOverwrites(s.newest, first, last);
    }
  }

  /** Where the skipped and the full restore end. */
  lemma SkipEnds(r: Restore, s: State)
    requires !Refused(r.flags, r.drafts) && r.Mode(s).twoStep && r.SkipPublished(s)
    ensures Run(s, r.Requests(s)) == State(s.live, ApplyPatch(s.newest, r.Body(s)))
    ensures var after := ApplyPatch(s.newest, r.PublishedBody());
            BothSteps(r, s) == State(after, ApplyPatch(after, r.Body(s)))
    ensures ApplyPatch(s.live, r.PublishedBody()) == s.live
  {
    var first, last := Request(r.PublishedBody(), false), Request(r.Body(s), true);
    assert r.Requests(s) == [last];
    TwoRequests(s, first, last);
  }

  /** So no restore and no live row let step 1 be skipped safely: some newest version makes the live rows differ. */
  lemma SkipCanAlwaysDiffer(r: Restore, live: Fields) returns (newest: Fields)
    requires !Refused(r.flags, r.drafts) && r.Mode(State(live, live)).twoStep && r.SkipPublished(State(live, live))
    ensures var s := State(live, newest);
            Run(s, r.Requests(s)).live != BothSteps(r, s).live
  {
    var k := FreshKey(live.Keys + r.PublishedBody().Keys);
    newest := map[k := Null];
    SkipEnds(r, State(live, newest));
    assert k in ApplyPatch(newest, r.PublishedBody());
  }

  lemma TwoRequests(s: State, a: Request, b: Request)
    ensures Run(s, [b]) == Save(s, b) && Run(s, [a, b]) == Save(Save(s, a), b)
  {
    assert [b][1..] == [] && [a, b][1..] == [b];
    assert Run(Save(s, a), [b]) == Save(Save(s, a), b);
  }

  const LIVE: Fields := map["_status" := Str("published"), "a" := Num("2")]
  const PENDING: Fields := map["_status" := Str("draft"), "b" := Num("3")]

  /** A backup of a draft over a published state, restored over that state with another draft on it. */
  const OVER := State(LIVE, map["_status" := Str("draft"), "a" := Num("1")])
  const BACK := Restore(Record(PENDING, Some(LIVE)), NO_FLAGS, Some(true), None, false)

  /**
   A restore whose first step is skipped and that ends differently for it: a key that
   only the published body has keeps the newest version's own value.
   */
  lemma SkippingCanDiffer()
    ensures !Refused(BACK.flags, BACK.drafts) && BACK.Mode(OVER).twoStep && BACK.SkipPublished(OVER)
    ensures At(Run(OVER, BACK.Requests(OVER)).newest, "a") == Num("1") &&
            At(BothSteps(BACK, OVER).newest, "a") == Num("2")
  {
    BackBodies();
    LiveKept();
    assert BACK.Mode(OVER).twoStep && BACK.SkipPublished(OVER);
    EndsApart(OVER);
    TwoRequests(OVER, Request(LIVE, false), Request(PENDING, true));
    assert BACK.Requests(OVER) == [Request(PENDING, true)];
  }

  lemma EndsApart(s: State)
    requires At(s.newest, "a") == Num("1") && "a" in s.newest
    ensures At(Save(s, Request(PENDING, true)).newest, "a") == Num("1")
    ensures At(Save(Save(s, Request(LIVE, false)), Request(PENDING, true)).newest, "a") == Num("2")
  {
    assert ApplyPatch(s.newest, LIVE)["a"] == Num("2");
  }

  lemma BackBodies()
    ensures BACK.PublishedBody() == LIVE && BACK.Body(OVER) == PENDING
  {
    SentWhole(LIVE);
    SentWhole(PENDING);
  }

  lemma SentWhole(doc: Fields)
    requires doc.Keys <= {"_status", "a", "b"} && forall k :: k in doc ==> doc[k].Scalar() && doc[k] != Str(MASK)
    ensures RestoreBody(doc, None, false) == doc
  {
    forall k | k in doc
      ensures Kept(k, None, false)
    {
      KeptShort(k);
    }
    ScalarBody(doc);
  }

  lemma KeptShort(k: string)
    requires k in ["_status", "a", "b"]
    ensures Kept(k, None, false)
  {
    forall i | 0 <= i < |SERVER_OWNED|
      ensures SERVER_OWNED[i] != k
    {
      assert SERVER_OWNED[i][0] != k[0];
    }
  }

  lemma ScalarBody(doc: Fields)
    requires forall k :: k in doc ==> Kept(k, None, false) && doc[k].Scalar() && doc[k] != Str(MASK)
    ensures RestoreBody(doc, None, false) == doc
  {
  }

  lemma LiveKept()
    ensures ApplyPatch(LIVE, LIVE) == LIVE
  {
  }

  const OTHER: Fields := map["_status" := Str("draft"), "a" := Num("3")]

  /** The same published state under a key `b` that the backup does not hold, which the pending draft changed. */
  const AROUND := State(LIVE["b" := Num("9")], map["_status" := Str("draft"), "a" := Num("1"), "b" := Num("5")])
  const BACK_OTHER := Restore(Record(OTHER, Some(LIVE)), NO_FLAGS, Some(true), None, false)

  /**
   The live row can differ although both bodies send the same keys: the plain save of
   step 1 would have taken the pending draft's `b` live.
   */
  lemma SameKeysCanDiffer()
    ensures !Refused(BACK_OTHER.flags, BACK_OTHER.drafts) && BACK_OTHER.Mode(AROUND).twoStep
    ensures BACK_OTHER.SkipPublished(AROUND)
    ensures BACK_OTHER.Body(AROUND).Keys == BACK_OTHER.PublishedBody().Keys
    ensures CoversFields(BACK_OTHER.Body(AROUND), BACK_OTHER.PublishedBody())
    ensures At(Run(AROUND, BACK_OTHER.Requests(AROUND)).live, "b") == Num("9")
    ensures At(BothSteps(BACK_OTHER, AROUND).live, "b") == Num("5")
  {
    OtherBodies();
    KeptAround();
    assert BACK_OTHER.Mode(AROUND).twoStep && BACK_OTHER.SkipPublished(AROUND);
    OtherCovers();
    SkipEnds(BACK_OTHER, AROUND);
    KeepsPending(AROUND.newest);
  }

  lemma KeepsPending(newest: Fields)
    requires "b" in newest && newest["b"] == Num("5")
    ensures At(ApplyPatch(newest, LIVE), "b") == Num("5")
  {
  }

  lemma OtherBodies()
    ensures BACK_OTHER.PublishedBody() == LIVE && BACK_OTHER.Body(AROUND) == OTHER
  {
    SentWhole(LIVE);
    SentWhole(OTHER);
  }

  lemma OtherCovers()
    ensures OTHER.Keys == LIVE.Keys && CoversFields(OTHER, LIVE)
  {
  }

  lemma KeptAround()
    ensures ApplyPatch(LIVE["b" := Num("9")], LIVE) == LIVE["b" := Num("9")]
  {
  }

  /** The dry run of a two-step restore: the live row and the newest version it shows as the outcome. */
  function TwoStepPreview(stored: Fields, latest: Fields, pubBody: Fields, draftBody: Fields, skipPub: bool): State {
    var afterPub := if skipPub then latest else ApplyPatch(latest, pubBody);
    State(if skipPub then stored else afterPub, ApplyPatch(afterPub, draftBody))
  }

  lemma PreviewIsOutcome(r: Restore, s: State)
    requires !Refused(r.flags, r.drafts) && r.Mode(s).twoStep
    ensures Run(s, r.Requests(s)) == TwoStepPreview(s.live, s.newest, r.PublishedBody(), r.Body(s), r.SkipPublished(s))
  {
    var pub, body := r.PublishedBody(), r.Body(s);
    var first, last := Request(pub, false), Request(body, true);
    TwoRequests(s, first, last);
    PreviewOfSaves(s, pub, body);
    assert r.Requests(s) == if r.SkipPublished(s) then [last] else [first, last];
  }

  lemma PreviewOfSaves(s: State, pub: Fields, body: Fields)
    ensures Save(s, Request(body, true)) == TwoStepPreview(s.live, s.newest, pub, body, true)
    ensures Save(Save(s, Request(pub, false)), Request(body, true)) ==
            TwoStepPreview(s.live, s.newest, pub, body, false)
  {
  }

  // ------------------------------------------------------------------
  // A restore never unpublishes
  // ------------------------------------------------------------------

  /** The live row is published after every request of the restore. */
  ghost predicate StaysPublished(r: Restore, s: State) { PublishedThroughout(s, r.Requests(s)) }

  ghost predicate PublishedThroughout(s: State, requests: seq<Request>) {
    forall n :: 0 <= n <= |requests| ==> StatusOf(Run(s, requests[..n]).live) == "published"
  }

  /** The status a plain save of the backup leaves live. */
  function StatusSent(r: Restore, s: State): string {
    var body := RestoreBody(r.rec.doc, r.schema, r.upload);
    if "_status" in body then StatusOf(body) else StatusOf(s.newest)
  }

  /** What can be checked before the restore. */
  predicate Protected(r: Restore, s: State) {
    || (r.drafts == Some(true) &&
        (r.flags.asDraft || r.flags.publish || r.rec.published.Some? || StatusOf(r.rec.doc) == "draft"))
    || StatusSent(r, s) == "published"
  }

  lemma SavedStatus(current: Fields, body: Fields)
    ensures StatusOf(ApplyPatch(current, body)) == if "_status" in body then StatusOf(body) else StatusOf(current)
  {
  }

  lemma SavePublishes(s: State, q: Request)
    ensures StatusOf(Save(s, q).live) ==
            if q.draft then StatusOf(s.live) else if "_status" in q.body then StatusOf(q.body) else StatusOf(s.newest)
  {
    SavedStatus(s.newest, q.body);
  }

  lemma PublishedAfterOne(s: State, a: Request)
    ensures PublishedThroughout(s, [a]) <==> StatusOf(s.live) == "published" && StatusOf(Save(s, a).live) == "published"
  {
    TwoRequests(s, a, a);
    assert [a][..0] == [] && [a][..1] == [a];
    if PublishedThroughout(s, [a]) {
      assert StatusOf(Run(s, [a][..0]).live) == "published" && StatusOf(Run(s, [a][..1]).live) == "published";
    }
  }

  lemma PublishedAfterTwo(s: State, a: Request, b: Request)
    ensures PublishedThroughout(s, [a, b]) <==>
            && StatusOf(s.live) == "published" && StatusOf(Save(s, a).live) == "published"
            && StatusOf(Save(Save(s, a), b).live) == "published"
  {
    TwoRequests(s, a, b);
    TwoRequests(s, a, a);
    assert [a, b][..0] == [] && [a, b][..1] == [a] && [a, b][..2] == [a, b];
    if PublishedThroughout(s, [a, b]) {
      assert StatusOf(Run(s, [a, b][..0]).live) == "published";
      assert StatusOf(Run(s, [a, b][..1]).live) == "published";
      assert StatusOf(Run(s, [a, b][..2]).live) == "published";
    }
  }

  lemma StaysMeans(r: Restore, s: State)
    requires !Refused(r.flags, r.drafts) && StatusOf(s.live) == "published"
    ensures var reqs := r.Requests(s);
            StaysPublished(r, s) <==>
              && StatusOf(Save(s, reqs[0]).live) == "published"
              && (|reqs| == 2 ==> StatusOf(Save(Save(s, reqs[0]), reqs[1]).live) == "published")
  {
    var reqs := r.Requests(s);
    if |reqs| == 2 {
      assert reqs == [reqs[0], reqs[1]];
      PublishedAfterTwo(s, reqs[0], reqs[1]);
    } else {
      assert reqs == [reqs[0]];
      PublishedAfterOne(s, reqs[0]);
    }
  }

  /** A two-step restore writes the status `published` first and leaves the live row alone after that. */
  lemma TwoStepStays(r: Restore, s: State)
    requires !Refused(r.flags, r.drafts) && r.Mode(s).twoStep && StatusOf(s.live) == "published"
    ensures StaysPublished(r, s)
  {
    StaysMeans(r, s);
    SavePublishes(s, r.Requests(s)[0]);
  }

  lemma OneStepStaysIff(r: Restore, s: State)
    requires !Refused(r.flags, r.drafts) && !r.Mode(s).twoStep && StatusOf(s.live) == "published"
    ensures StaysPublished(r, s) <==>
            r.Mode(s).draft || r.Mode(s).status == "published" || StatusSent(r, s) == "published"
  {
    StaysMeans(r, s);
    SavePublishes(s, r.Requests(s)[0]);
  }

  /** A published document is published after every request of a restore exactly when this holds before it. */
  lemma NeverUnpublishesIff(r: Restore, s: State)
    requires !Refused(r.flags, r.drafts) && StatusOf(s.live) == "published"
    ensures StaysPublished(r, s) <==> Protected(r, s)
  {
    if r.Mode(s).twoStep {
      TwoStepStays(r, s);
    } else {
      OneStepStaysIff(r, s);
    }
  }

  /**
   So where drafts are known to be on, a backup whose body carries one of the two
   statuses never unpublishes, and neither does a flag.
   */
  lemma NeverUnpublishes(r: Restore, s: State)
    requires r.drafts == Some(true) && !Refused(r.flags, r.drafts) && StatusOf(s.live) == "published"
    requires r.flags != NO_FLAGS || StatusOf(RestoreBody(r.rec.doc, r.schema, r.upload)) in ["published", "draft"]
    ensures StaysPublished(r, s)
  {
    NeverUnpublishesIff(r, s);
    BodyIsPart(r.rec.doc, r.schema, r.upload);
  }

  /** Why the status is needed: a plain save over a pending draft takes the draft's status live. */
  lemma StatuslessBackupUnpublishes()
    ensures var s := State(map["_status" := Str("published")], map["_status" := Str("draft")]);
            var r := Restore(Record(map[], None), NO_FLAGS, Some(true), None, false);
            StatusOf(s.live) == "published" && !StaysPublished(r, s)
  {
    var s := State(map["_status" := Str("published")], map["_status" := Str("draft")]);
    var r := Restore(Record(map[], None), NO_FLAGS, Some(true), None, false);
    NeverUnpublishesIff(r, s);
  }

  /** Nor does --draft protect when the schema does not say whether the entity has drafts: the flag is dropped. */
  lemma UnknownDraftsUnpublish()
    ensures var s := State(map["_status" := Str("published")], map["_status" := Str("published")]);
            var r := Restore(Record(map["_status" := Str("draft")], None), Flags(true, false), None, None, false);
            !Refused(r.flags, r.drafts) && StatusOf(s.live) == "published" && !StaysPublished(r, s)
  {
    var s := State(map["_status" := Str("published")], map["_status" := Str("published")]);
    var r := Restore(Record(map["_status" := Str("draft")], None), Flags(true, false), None, None, false);
    var body := RestoreBody(r.rec.doc, None, false);
    assert "_status" in body && body["_status"] == Str("draft");
    NeverUnpublishesIff(r, s);
  }
}
