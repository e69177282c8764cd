/**
 What a PATCH leaves in a document (internal/docdiff/patch.go): the save both
 halves of backup and restore are about.

 A key the body leaves out keeps its stored value, objects merge key by key, an
 array of rows replaces the stored array but each row is merged with the stored
 row of the same id, and everything else is replaced as a whole.
 */
module Patch {
  import opened Wrappers
  import opened Json

  type Fields = map<string, Json>

  /** The root of rich text: a node of type "root" with a list of children. */
  predicate RootNode(j: Json) {
    && j.Obj? && "type" in j.fields && j.fields["type"] == Str("root")
    && "children" in j.fields && j.fields["children"].Arr?
  }

  /** A rich-text value: an object with such a `root`. */
  predicate EditorState(j: Json) { j.Obj? && "root" in j.fields && RootNode(j.fields["root"]) }

  /** An array of rows, not a list of scalars. */
  predicate HasObjectRow(items: seq<Json>) {
    exists i :: 0 <= i < |items| && items[i].Obj? && !EditorState(items[i])
  }

  datatype RowId = NoId | TextId(s: string) | NumberId(text: string)

  function RowIdOf(row: Json): RowId {
    if !row.Obj? || EditorState(row) || "id" !in row.fields then NoId else
      match row.fields["id"]
      case Str(s) => if s == "" then NoId else TextId(s)
      case Num(text) => NumberId(text)
      case _ => NoId
  }

  function BlockTypeOf(row: Json): Json {
    if row.Obj? && "blockType" in row.fields && row.fields["blockType"].Str? then row.fields["blockType"] else Null
  }

  /** The first row of an id; Null when there is none. */
  function RowOf(rows: seq<Json>, id: RowId): (r: Json)
    ensures r != Null && id != NoId ==> r.Obj? && !EditorState(r) && RowIdOf(r) == id
  {
    if rows == [] then Null else if RowIdOf(rows[0]) == id then rows[0] else RowOf(rows[1..], id)
  }

  /** A stored row of another block type is not merged. */
  function IfSameType(stored: Json, row: Json): Json {
    if BlockTypeOf(stored) != Null && BlockTypeOf(row) != Null && BlockTypeOf(stored) != BlockTypeOf(row)
    then Null else stored
  }

  /**
   The stored row a body row is merged with: the first of its id, unless its block
   type differs.  Null when there is none, which merges like an absent value.
   */
  function StoredRow(stored: seq<Json>, row: Json): (r: Json)
    ensures r != Null ==> r.Obj? && !EditorState(r)
  {
    if RowIdOf(row) == NoId then Null else IfSameType(RowOf(stored, RowIdOf(row)), row)
  }

  /** The stored fields a merged object starts from: none when the stored value is not a plain object. */
  function Base(cur: Json): Fields { if cur.Obj? && !EditorState(cur) then cur.fields else map[] }

  function At(fields: Fields, k: string): Json { if k in fields then fields[k] else Null }

  function Merge(cur: Json, v: Json): Json
    decreases v, 1
  {
    match v
    case Obj(sent) =>
      if EditorState(v) then v else
        Obj(Base(cur) + map k | k in sent :: Merge(At(Base(cur), k), sent[k]))
    case Arr(rows) =>
      if !HasObjectRow(rows) then v else Arr(MergeRows(if cur.Arr? then cur.items else [], rows))
    case _ => v
  }

  /** Rows that are not objects are stripped. */
  function MergeRows(stored: seq<Json>, rows: seq<Json>): seq<Json>
    decreases rows, 0
  {
    if rows == [] then [] else
      (if rows[0].Obj? then [Merge(StoredRow(stored, rows[0]), rows[0])] else []) + MergeRows(stored, rows[1..])
  }

  /** A body's own top-level id is ignored. */
  function ApplyPatch(current: Fields, body: Fields): Fields { Patched(current, body - {"id"}) }

  /** Key by key. */
  function Patched(base: Fields, sent: Fields): Fields { base + map k | k in sent :: Merge(At(base, k), sent[k]) }

  // ------------------------------------------------------------------
  // A save stores what was sent
  // ------------------------------------------------------------------

  function ObjectRows(rows: seq<Json>): (r: seq<Json>)
    ensures forall i :: 0 <= i < |r| ==> r[i].Obj? && r[i] in rows
  {
    if rows == [] then [] else (if rows[0].Obj? then [rows[0]] else []) + ObjectRows(rows[1..])
  }

  /** Everything sent is in the stored value; stored objects may hold more keys. */
  ghost predicate Carries(stored: Json, sent: Json)
    decreases sent
  {
    match sent
    case Obj(fields) =>
      if EditorState(sent) then stored == sent
      else stored.Obj? && forall k :: k in fields ==> k in stored.fields && Carries(stored.fields[k], fields[k])
    case Arr(rows) =>
      if !HasObjectRow(rows) then stored == sent
      else stored.Arr? && CarriesRows(stored.items, rows)
    case _ => stored == sent
  }

  ghost predicate CarriesRows(stored: seq<Json>, rows: seq<Json>)
    decreases rows
  {
    if rows == [] then stored == []
    else if !rows[0].Obj? then CarriesRows(stored, rows[1..])
    else stored != [] && Carries(stored[0], rows[0]) && CarriesRows(stored[1..], rows[1..])
  }

  lemma {:induction false} MergeCarries(cur: Json, v: Json)
    ensures Carries(Merge(cur, v), v)
    decreases v, 1
  {
    match v
    case Obj(sent) =>
      if !EditorState(v) {
        forall k | k in sent
          ensures Carries(Merge(At(Base(cur), k), sent[k]), sent[k])
        {
          MergeCarries(At(Base(cur), k), sent[k]);
        }
      }
    case Arr(rows) =>
      MergeRowsCarries(if cur.Arr? then cur.items else [], rows);
    case _ =>
  }

  lemma {:induction false} MergeRowsCarries(stored: seq<Json>, rows: seq<Json>)
    ensures CarriesRows(MergeRows(stored, rows), rows)
    decreases rows, 0
  {
    if rows != [] {
      MergeRowsCarries(stored, rows[1..]);
      if rows[0].Obj? {
        MergeCarries(StoredRow(stored, rows[0]), rows[0]);
        assert MergeRows(stored, rows)[1..] == MergeRows(stored, rows[1..]);
      } else {
        assert MergeRows(stored, rows) == MergeRows(stored, rows[1..]);
      }
    }
  }

  /** After a save every sent key but the id is stored as sent, and every other key is as it was. */
  lemma SaveStoresBody(current: Fields, body: Fields)
    ensures var r := ApplyPatch(current, body);
            && (forall k :: k in body && k != "id" ==> k in r && Carries(r[k], body[k]))
            && (forall k :: k !in body || k == "id" ==> (k in r <==> k in current) && At(r, k) == At(current, k))
  {
    forall k | k in body && k != "id"
      ensures Carries(ApplyPatch(current, body)[k], body[k])
    {
      MergeCarries(At(current, k), body[k]);
    }
  }

  /** A row of the given id, with one more field. */
  function RowWith(id: Json, k: string, v: Json): Json { Obj(map["id" := id, k := v]) }

  predicate PlainField(k: string) { k !in ["id", "root", "blockType"] }

  /** A row sent with the id of a stored one, text or number, keeps the fields it does not send. */
  lemma RowsMeet(id: Json, a: string, x: Json, b: string, y: Json)
    requires id.Num? || (id.Str? && id.s != "")
    requires x.Scalar() && y.Scalar() && a != b && PlainField(a) && PlainField(b)
    ensures Merge(Arr([RowWith(id, a, x)]), Arr([RowWith(id, b, y)])) == Arr([Obj(map["id" := id, a := x, b := y])])
  {
    var s, r := RowWith(id, a, x), RowWith(id, b, y);
    assert HasObjectRow([r]) by {
      assert [r][0] == r;
    }
    SameIdMeets(id, a, x, b, y);
    MergeOneRow([s], r);
    FieldsMeet(id, a, x, b, y);
  }

  lemma SameIdMeets(id: Json, a: string, x: Json, b: string, y: Json)
    requires (id.Num? || (id.Str? && id.s != "")) && PlainField(a) && PlainField(b)
    ensures StoredRow([RowWith(id, a, x)], RowWith(id, b, y)) == RowWith(id, a, x)
  {
    var s, r := RowWith(id, a, x), RowWith(id, b, y);
    assert !EditorState(s) && !EditorState(r) && RowIdOf(s) == RowIdOf(r) != NoId;
    assert RowOf([s], RowIdOf(r)) == s;
  }

  lemma FieldsMeet(id: Json, a: string, x: Json, b: string, y: Json)
    requires id.Scalar() && y.Scalar() && a != b && PlainField(a) && PlainField(b)
    ensures Merge(RowWith(id, a, x), RowWith(id, b, y)) == Obj(map["id" := id, a := x, b := y])
  {
    var s, r := RowWith(id, a, x), RowWith(id, b, y);
    assert !EditorState(s) && !EditorState(r);
    assert Merge(s, r).fields == map["id" := id, a := x, b := y];
  }

  /** A row with an id of its own keeps nothing of what was stored, whatever the other rows are. */
  lemma RowsPass(id: Json, other: Json, a: string, x: Json, b: string, y: Json)
    requires (id.Num? || id.Str?) && (other.Num? || other.Str?) && id != other
    requires x.Scalar() && y.Scalar() && PlainField(a) && PlainField(b)
    ensures Merge(Arr([RowWith(other, a, x)]), Arr([RowWith(id, b, y)])) == Arr([RowWith(id, b, y)])
  {
    var s, r := RowWith(other, a, x), RowWith(id, b, y);
    assert !EditorState(s) && !EditorState(r);
    assert HasObjectRow([r]) by {
      assert [r][0] == r;
    }
    OtherRow(s, r);
    MergeOneRow([s], r);
    assert Merge(Null, r).fields == r.fields;
  }

  lemma OtherRow(s: Json, r: Json)
    requires RowIdOf(r) == NoId || RowIdOf(s) != RowIdOf(r)
    ensures StoredRow([s], r) == Null
  {
    assert [s][1..] == [];
    assert RowOf([], RowIdOf(r)) == Null;
  }

  lemma MergeOneRow(stored: seq<Json>, r: Json)
    requires r.Obj?
    ensures MergeRows(stored, [r]) == [Merge(StoredRow(stored, r), r)]
  {
    assert [r][1..] == [];
  }

  /**
   Where the value sent at `p` is stored: rows that are not objects are stripped, so
   later rows move up.  None for a value inside a stripped row.
   */
  function StoredAt(sent: Json, p: Path): Option<Path>
    decreases |p|
  {
    if p == [] || Child(sent, p[0]).None? || EditorState(sent) || (sent.Arr? && !HasObjectRow(sent.items)) then Some(p)
    else if sent.Arr? && !sent.items[p[0].i].Obj? then None
    else
      var st := if sent.Arr? then Index(|ObjectRows(sent.items[..p[0].i])|) else p[0];
      match StoredAt(Child(sent, p[0]).value, p[1..])
      case None => None
      case Some(rest) => Some([st] + rest)
  }

  lemma {:induction false} CarriesRow(stored: seq<Json>, rows: seq<Json>, i: nat)
    requires CarriesRows(stored, rows) && i < |rows| && rows[i].Obj?
    ensures var n := |ObjectRows(rows[..i])|;
            n < |stored| && Carries(stored[n], rows[i])
  {
    if i > 0 {
      assert rows[..i][1..] == rows[1..][..i - 1];
      CarriesRow(if rows[0].Obj? then stored[1..] else stored, rows[1..], i - 1);
    }
  }

  /** Every scalar sent is stored, unless it lies in a row that is stripped. */
  lemma {:induction false} CarriedLeaf(stored: Json, sent: Json, p: Path)
    requires Carries(stored, sent) && StoredAt(sent, p).Some?
    requires Lookup(sent, p).Some? && Lookup(sent, p).value.Scalar()
    ensures Lookup(stored, StoredAt(sent, p).value) == Lookup(sent, p)
    decreases |p|
  {
    if p != [] {
      match sent
      case Obj(fields) =>
        if !EditorState(sent) {
          CarriedLeaf(stored.fields[p[0].key], fields[p[0].key], p[1..]);
        }
      case Arr(rows) =>
        if HasObjectRow(rows) {
          CarriesRow(stored.items, rows, p[0].i);
          CarriedLeaf(stored.items[|ObjectRows(rows[..p[0].i])|], rows[p[0].i], p[1..]);
        }
      case _ =>
    }
  }

  /** Arrays of rows hold nothing but rows, as the server stores them. */
  ghost predicate Clean(v: Json) {
    match v
    case Obj(fields) => EditorState(v) || forall k :: k in fields ==> Clean(fields[k])
    case Arr(rows) => HasObjectRow(rows) ==> forall i :: 0 <= i < |rows| ==> rows[i].Obj? && Clean(rows[i])
    case _ => true
  }

  lemma {:induction false} AllObjectRows(rows: seq<Json>)
    requires forall i :: 0 <= i < |rows| ==> rows[i].Obj?
    ensures ObjectRows(rows) == rows
  {
    if rows != [] {
      AllObjectRows(rows[1..]);
    }
  }

  /** Then nothing moves. */
  lemma {:induction false} CleanStaysInPlace(sent: Json, p: Path)
    requires Clean(sent)
    ensures StoredAt(sent, p) == Some(p)
    decreases |p|
  {
    if p != [] && Child(sent, p[0]).Some? && !EditorState(sent) && (sent.Arr? ==> HasObjectRow(sent.items)) {
      CleanStaysInPlace(Child(sent, p[0]).value, p[1..]);
      if sent.Arr? {
        AllObjectRows(sent.items[..p[0].i]);
        assert p[0] == Index(p[0].i);
      }
      assert [p[0]] + p[1..] == p;
    }
  }

  // ------------------------------------------------------------------
  // Saving over a save
  // ------------------------------------------------------------------

  function RowsOf(w: Json): seq<Json> { if w.Arr? then w.items else [] }

  /** Whatever row of this type is stored, `v` merges with it after `w` did if it would have before. */
  predicate SameTypes(v: Json, w: Json) {
    BlockTypeOf(w) == BlockTypeOf(v) || (w.Obj? && "blockType" !in w.fields)
  }

  /**
   An object whose `root` is half of a rich-text root, so that merged into an object
   with the other half it turns into rich text.
   */
  predicate CanTurn(w: Json) {
    && w.Obj? && "root" in w.fields && w.fields["root"].Obj? && !EditorState(w.fields["root"])
    && var root := w.fields["root"].fields;
       || ("type" in root && root["type"] == Str("root") && "children" !in root)
       || ("type" !in root && "children" in root && root["children"].Arr?)
  }

  predicate Plain(w: Json) { w.Obj? && !EditorState(w) && !CanTurn(w) }

  /**
   `v` decides everything `w` decides: wherever `v` merges an object, `w` merges one
   with no more keys, and wherever `v` merges a row, `w` has sent that row too.
   */
  ghost predicate Covers(v: Json, w: Json)
    decreases v, 0
  {
    match v
    case Obj(sent) =>
      EditorState(v) ||
      (Plain(w) && w.fields.Keys <= sent.Keys &&
       forall k :: k in w.fields ==> Covers(sent[k], w.fields[k]))
    case Arr(rows) =>
      !HasObjectRow(rows) || forall i :: 0 <= i < |rows| && RowIdOf(rows[i]) != NoId ==> CoversRow(rows[i], RowsOf(w))
    case _ => true
  }

  ghost predicate CoversRow(v: Json, ws: seq<Json>)
    decreases v, 1
  {
    var w := RowOf(ws, RowIdOf(v));
    w != Null && SameTypes(v, w) && Covers(v, w)
  }

  /** Such an object stays a plain object when merged. */
  lemma PlainMerge(cur: Json, w: Json)
    requires Plain(w)
    ensures var m := Merge(cur, w);
            m.Obj? && !EditorState(m) && Base(m) == Patched(Base(cur), w.fields)
  {
    assert !EditorState(Obj(Base(cur)));
    if "root" in w.fields {
      RootMerge(At(Base(cur), "root"), w.fields["root"]);
    }
  }

  lemma RootMerge(cur: Json, x: Json)
    requires !RootNode(x) && !RootNode(cur)
    requires !(x.Obj? && !EditorState(x) && "type" in x.fields && x.fields["type"] == Str("root") &&
             "children" !in x.fields)
    requires !(x.Obj? && !EditorState(x) && "type" !in x.fields && "children" in x.fields && x.fields["children"].Arr?)
    ensures !RootNode(Merge(cur, x))
  {
  }

  /** A merged row has the id and the block type of the row sent, or of the stored row where the row sent has none. */
  lemma MergedRowIdentity(cur: Json, w: Json)
    requires Plain(w) && RowIdOf(w) != NoId
    ensures RowIdOf(Merge(cur, w)) == RowIdOf(w)
    ensures BlockTypeOf(w) != Null ==> BlockTypeOf(Merge(cur, w)) == BlockTypeOf(w)
    ensures "blockType" !in w.fields ==> BlockTypeOf(Merge(cur, w)) == BlockTypeOf(Obj(Base(cur)))
    ensures "blockType" in w.fields && BlockTypeOf(w) == Null ==> BlockTypeOf(Merge(cur, w)) == Null
  {
    PlainMerge(cur, w);
  }

  /** A merged row has no id but that of the row sent. */
  lemma MergedId(stored: seq<Json>, w: Json)
    requires w.Obj?
    ensures var id := RowIdOf(Merge(StoredRow(stored, w), w));
            id == NoId || id == RowIdOf(w)
  {
    if !EditorState(w) && "id" in w.fields {
      var m := Merge(StoredRow(stored, w), w);
      assert m.fields["id"] == Merge(At(Base(StoredRow(stored, w)), "id"), w.fields["id"]);
    }
  }

  /** Among the merged rows, the first of an id is the first one sent, merged. */
  lemma {:induction false} MergedRow(stored: seq<Json>, ws: seq<Json>, id: RowId)
    requires id != NoId
    ensures var w, m := RowOf(ws, id), RowOf(MergeRows(stored, ws), id);
            && (w == Null ==> m == Null)
            && (w != Null && !CanTurn(w) ==> m == Merge(StoredRow(stored, w), w))
  {
    if ws != [] {
      MergedRow(stored, ws[1..], id);
      if ws[0].Obj? {
        var first := Merge(StoredRow(stored, ws[0]), ws[0]);
        MergedId(stored, ws[0]);
        assert MergeRows(stored, ws)[0] == first && MergeRows(stored, ws)[1..] == MergeRows(stored, ws[1..]);
        if RowIdOf(ws[0]) == id && !CanTurn(ws[0]) {
          MergedRowIdentity(StoredRow(stored, ws[0]), ws[0]);
        }
      } else {
        assert MergeRows(stored, ws) == MergeRows(stored, ws[1..]);
      }
    }
  }

  /** The rows an array value leaves, whatever it held. */
  lemma MergedRows(cur: Json, w: Json, id: RowId)
    requires id != NoId
    ensures var r, m := RowOf(RowsOf(w), id), RowOf(RowsOf(Merge(cur, w)), id);
            && (r == Null ==> m == Null)
            && (r != Null && !CanTurn(r) ==> m == Merge(StoredRow(RowsOf(cur), r), r))
  {
    if w.Arr? && HasObjectRow(w.items) {
      MergedRow(RowsOf(cur), w.items, id);
    } else if w.Arr? {
      NoRowOf(w.items, id);
    } else {
      assert RowsOf(Merge(cur, w)) == [];
    }
  }

  lemma {:induction false} NoRowOf(rows: seq<Json>, id: RowId)
    requires id != NoId && !HasObjectRow(rows)
    ensures RowOf(rows, id) == Null
  {
    if rows != [] {
      assert !(rows[0].Obj? && !EditorState(rows[0]));
      assert forall i :: 0 <= i < |rows[1..]| ==> rows[1..][i] == rows[i + 1];
      NoRowOf(rows[1..], id);
    }
  }

  /** Sent after `w`, the row `v` meets the stored row with `w` merged in, or, where it would have met none, none. */
  lemma RowMeets(stored: Json, v: Json, w: Json)
    requires Plain(w) && RowIdOf(w) != NoId && SameTypes(v, w)
    requires stored == Null || (stored.Obj? && !EditorState(stored))
    ensures var met, before := IfSameType(Merge(IfSameType(stored, w), w), v), IfSameType(stored, v);
            met == Merge(before, w) || (met == Null && before == Null)
  {
    MergedRowIdentity(IfSameType(stored, w), w);
    MergedRowIdentity(Null, w);
  }

  /**
   The overwrite law: saving `w` and then `v` over anything leaves what saving `v`
   alone leaves, whenever `v` decides everything `w` does.
   */
  lemma {:induction false} Overwrites(cur: Json, w: Json, v: Json)
    requires Covers(v, w)
    ensures Merge(Merge(cur, w), v) == Merge(cur, v)
    decreases v, 2
  {
    match v
    case Obj(sent) =>
      if !EditorState(v) {
        PlainMerge(cur, w);
        OverwritesFields(Base(cur), w.fields, v);
      }
    case Arr(rows) =>
      if HasObjectRow(rows) {
        OverwritesRows(cur, w, rows);
      }
    case _ =>
  }

  lemma {:induction false} OverwritesFields(base: Fields, w: Fields, v: Json)
    requires v.Obj? && w.Keys <= v.fields.Keys && forall k :: k in w ==> Covers(v.fields[k], w[k])
    ensures Patched(Patched(base, w), v.fields) == Patched(base, v.fields)
    decreases v, 0
  {
    forall k | k in v.fields
      ensures Merge(At(Patched(base, w), k), v.fields[k]) == Merge(At(base, k), v.fields[k])
    {
      if k in w {
        Overwrites(At(base, k), w[k], v.fields[k]);
      }
    }
    SameMerges(base, w, v.fields);
  }

  lemma SameMerges(base: Fields, w: Fields, sent: Fields)
    requires w.Keys <= sent.Keys
    requires forall k :: k in sent ==> Merge(At(Patched(base, w), k), sent[k]) == Merge(At(base, k), sent[k])
    ensures Patched(Patched(base, w), sent) == Patched(base, sent)
  {
  }

  lemma {:induction false} OverwritesRows(cur: Json, w: Json, vs: seq<Json>)
    requires forall i :: 0 <= i < |vs| && RowIdOf(vs[i]) != NoId ==> CoversRow(vs[i], RowsOf(w))
    ensures MergeRows(RowsOf(Merge(cur, w)), vs) == MergeRows(RowsOf(cur), vs)
    decreases vs, 0
  {
    if vs != [] {
      OverwritesRows(cur, w, vs[1..]);
      if RowIdOf(vs[0]) != NoId {
        OverwritesRow(cur, w, vs[0]);
      }
    }
  }

  lemma {:induction false} OverwritesRow(cur: Json, w: Json, v: Json)
    requires RowIdOf(v) != NoId && CoversRow(v, RowsOf(w))
    ensures Merge(StoredRow(RowsOf(Merge(cur, w)), v), v) == Merge(StoredRow(RowsOf(cur), v), v)
    decreases v, 3
  {
    var id := RowIdOf(v);
    var r := RowOf(RowsOf(w), id);
    MergedRows(cur, w, id);
    RowMeets(RowOf(RowsOf(cur), id), v, r);
    Overwrites(StoredRow(RowsOf(cur), v), r, v);
  }

  // ------------------------------------------------------------------
  // And only then
  // ------------------------------------------------------------------

  /** No row that can turn into rich text shares its id with a later row. */
  ghost predicate NoTwins(w: Json) {
    match w
    case Obj(fields) => EditorState(w) || forall k :: k in fields ==> NoTwins(fields[k])
    case Arr(items) =>
      && (forall i :: 0 <= i < |items| ==> NoTwins(items[i]))
      && (forall i, j :: 0 <= i < j < |items| && RowIdOf(items[i]) != NoId && CanTurn(items[i]) ==>
            RowIdOf(items[i]) != RowIdOf(items[j]))
    case _ => true
  }

  lemma {:induction false} RowHasNoTwins(rows: seq<Json>, id: RowId)
    requires id != NoId && forall i :: 0 <= i < |rows| ==> NoTwins(rows[i])
    ensures NoTwins(RowOf(rows, id))
  {
    if rows != [] && RowIdOf(rows[0]) != id {
      RowHasNoTwins(rows[1..], id);
    }
  }

  /** A name none of these keys have. */
  lemma {:induction false} FreshKey(keys: set<string>) returns (k: string)
    ensures k !in keys && k !in ["id", "root", "blockType", "type", "children"]
  {
    var used := keys + {"id", "root", "blockType", "type", "children"};
    k := LongerThanAll(used);
    assert k !in used;
  }

  lemma {:induction false} LongerThanAll(keys: set<string>) returns (k: string)
    ensures forall u :: u in keys ==> |u| < |k|
    decreases |keys|
  {
    if keys == {} {
      return "x";
    }
    var u :| u in keys;
    var rest := LongerThanAll(keys - {u});
    k := rest + u + "x";
  }

  /**
   A value that tells saving `v` from saving `w` and then `v`, wherever `v` leaves
   something to `w`.
   */
  lemma {:induction false} Telling(w: Json, v: Json) returns (cur: Json)
    requires NoTwins(w) && !Covers(v, w)
    ensures Merge(Merge(cur, w), v) != Merge(cur, v) && !RootNode(cur)
    decreases v, 3
  {
    match v
    case Obj(sent) =>
      if CanTurn(w) && !EditorState(w) {
        cur := TellingTurn(w, v);
      } else if !w.Obj? || EditorState(w) {
        cur := TellingByKey(w, v);
      } else {
        var base := TellingFields(w.fields, v, map[]);
        cur := Obj(base);
        PlainMerge(cur, w);
        assert !EditorState(cur);
      }
    case Arr(rows) =>
      var i :| 0 <= i < |rows| && RowIdOf(rows[i]) != NoId && !CoversRow(rows[i], RowsOf(w));
      var stored := TellingRow(w, rows[i]);
      cur := Arr(stored);
      if MergeRows(RowsOf(Merge(cur, w)), rows) == MergeRows(stored, rows) {
        SameRows(RowsOf(Merge(cur, w)), stored, rows, i);
      }
    case _ =>
  }

  /** `w` is no plain object, so what it is saved over is gone. */
  lemma TellingByKey(w: Json, v: Json) returns (cur: Json)
    requires v.Obj? && !EditorState(v) && (!w.Obj? || EditorState(w))
    ensures Merge(Merge(cur, w), v) != Merge(cur, v) && !RootNode(cur)
  {
    var k := FreshKey(v.fields.Keys);
    cur := Obj(map[k := Null]);
    assert k in Merge(cur, v).fields;
    assert Base(Merge(cur, w)) == map[];
  }

  /** The other half of the root `w` sends. */
  function OtherHalf(w: Json): Json
    requires CanTurn(w)
  {
    if "type" in w.fields["root"].fields then Obj(map["children" := Arr([])]) else Obj(map["type" := Str("root")])
  }

  /** Merged into an object with that half, `w` makes rich text, which a later save does not merge into. */
  lemma Turns(cur: Json, w: Json)
    requires CanTurn(w) && !EditorState(w)
    requires cur.Obj? && "root" in cur.fields && cur.fields["root"] == OtherHalf(w)
    ensures !EditorState(cur) && EditorState(Merge(cur, w))
  {
    var half, x := OtherHalf(w), w.fields["root"];
    var root := Merge(half, x);
    assert root.Obj? && Base(half) == half.fields;
    if "type" in x.fields {
      assert root.fields["type"] == Merge(At(half.fields, "type"), x.fields["type"]);
    } else {
      assert root.fields["children"] == Merge(At(half.fields, "children"), x.fields["children"]);
    }
    assert RootNode(root);
    assert Merge(cur, w).fields["root"] == root;
  }

  lemma TellingTurn(w: Json, v: Json) returns (cur: Json)
    requires v.Obj? && !EditorState(v) && CanTurn(w) && !EditorState(w)
    ensures Merge(Merge(cur, w), v) != Merge(cur, v) && !RootNode(cur)
  {
    var k := FreshKey(v.fields.Keys);
    cur := Obj(map["root" := OtherHalf(w), k := Null]);
    Turns(cur, w);
    assert k in Merge(cur, v).fields;
    assert Base(Merge(cur, w)) == map[];
  }

  /** The same for the fields of an object, over fields that hold the given ones. */
  lemma {:induction false} TellingFields(w: Fields, v: Json, held: Fields) returns (base: Fields)
    requires v.Obj? && !EditorState(v) && (forall k :: k in w ==> NoTwins(w[k]))
    requires !(w.Keys <= v.fields.Keys && forall k :: k in w ==> Covers(v.fields[k], w[k]))
    requires held.Keys <= {"id"} && forall k :: k in held ==> k in v.fields && v.fields[k].Scalar()
    ensures Patched(Patched(base, w), v.fields) != Patched(base, v.fields)
    ensures !EditorState(Obj(base)) && !RootNode(Obj(base))
    ensures base == held || Beside(base, held, v)
    decreases v, 0
  {
    if k :| k in w && k !in v.fields {
      base := held;
      MissingTells(w, v.fields, held, k);
      NotRich(held);
    } else {
      var k :| k in w && !Covers(v.fields[k], w[k]);
      var c := Telling(w[k], v.fields[k]);
      base := held[k := c];
      FieldTells(w, v.fields, base, k);
      NotRichBeside(held, k, c);
      assert k in v.fields && !v.fields[k].Scalar();
    }
  }

  /** Besides the fields held there is one more, which `v` merges. */
  ghost predicate Beside(base: Fields, held: Fields, v: Json)
    requires v.Obj?
  {
    exists k :: k in base && k !in held && k in v.fields && !v.fields[k].Scalar() && base == held[k := base[k]]
  }

  lemma MissingTells(w: Fields, v: Fields, base: Fields, k: string)
    requires k in w && k !in v && k !in base
    ensures Patched(Patched(base, w), v) != Patched(base, v)
  {
    assert k in Patched(Patched(base, w), v) && k !in Patched(base, v);
  }

  lemma FieldTells(w: Fields, v: Fields, base: Fields, k: string)
    requires k in w && k in v && k in base && Merge(Merge(base[k], w[k]), v[k]) != Merge(base[k], v[k])
    ensures Patched(Patched(base, w), v) != Patched(base, v)
  {
    assert Patched(Patched(base, w), v)[k] == Merge(Merge(base[k], w[k]), v[k]);
    assert Patched(base, v)[k] == Merge(base[k], v[k]);
  }

  /** An id, and one field beside it, make no rich text. */
  lemma NotRich(held: Fields)
    requires held.Keys <= {"id"}
    ensures !EditorState(Obj(held)) && !RootNode(Obj(held))
  {
  }

  lemma NotRichBeside(held: Fields, k: string, c: Json)
    requires held.Keys <= {"id"} && !RootNode(c)
    ensures !EditorState(Obj(held[k := c])) && !RootNode(Obj(held[k := c]))
  {
  }

  lemma {:induction false} SameRows(a: seq<Json>, b: seq<Json>, rows: seq<Json>, i: nat)
    requires MergeRows(a, rows) == MergeRows(b, rows) && i < |rows| && rows[i].Obj?
    ensures Merge(StoredRow(a, rows[i]), rows[i]) == Merge(StoredRow(b, rows[i]), rows[i])
  {
    MergeRowsHead(a, rows);
    MergeRowsHead(b, rows);
    if rows[0].Obj? {
      SameHeads(Merge(StoredRow(a, rows[0]), rows[0]), MergeRows(a, rows[1..]),
                Merge(StoredRow(b, rows[0]), rows[0]), MergeRows(b, rows[1..]));
    }
    if i > 0 {
      SameRows(a, b, rows[1..], i - 1);
    }
  }

  lemma MergeRowsHead(stored: seq<Json>, rows: seq<Json>)
    requires rows != []
    ensures MergeRows(stored, rows) ==
            if rows[0].Obj? then [Merge(StoredRow(stored, rows[0]), rows[0])] + MergeRows(stored, rows[1..])
            else MergeRows(stored, rows[1..])
  {
  }

  lemma SameHeads(x: Json, xs: seq<Json>, y: Json, ys: seq<Json>)
    requires [x] + xs == [y] + ys
    ensures x == y && xs == ys
  {
    assert ([x] + xs)[0] == x && ([y] + ys)[0] == y;
    assert ([x] + xs)[1..] == xs && ([y] + ys)[1..] == ys;
  }

  /** A stored row that `v` does not leave as it is after `w` was merged into it, for a row `w` did send. */
  ghost predicate Tells(stored: Json, v: Json, w: Json) {
    && stored.Obj? && !EditorState(stored) && RowIdOf(stored) == RowIdOf(v)
    && Merge(IfSameType(Merge(IfSameType(stored, w), w), v), v) != Merge(IfSameType(stored, v), v)
  }

  lemma {:induction false} TellingRow(w: Json, v: Json) returns (stored: seq<Json>)
    requires NoTwins(w) && RowIdOf(v) != NoId && !CoversRow(v, RowsOf(w))
    ensures Merge(StoredRow(RowsOf(Merge(Arr(stored), w)), v), v) != Merge(StoredRow(stored, v), v)
    decreases v, 2
  {
    var id := RowIdOf(v);
    var r := RowOf(RowsOf(w), id);
    var s: Json;
    if r == Null {
      s := TellingNew(v);
    } else {
      RowHasNoTwins(RowsOf(w), id);
      if CanTurn(r) {
        s := TellingTurnedRow(w, v, r);
      } else if !SameTypes(v, r) {
        s := TellingType(v, r);
      } else {
        s := TellingMerge(v, r);
      }
    }
    stored := [s];
    MergedRows(Arr(stored), w, id);
    assert RowOf(stored, id) == s;
  }

  /** A row that turned into rich text has no id any more. */
  lemma TellingTurnedRow(w: Json, v: Json, r: Json) returns (stored: Json)
    requires NoTwins(w) && RowIdOf(v) != NoId && r == RowOf(RowsOf(w), RowIdOf(v)) && r != Null && CanTurn(r)
    ensures RowOf([stored], RowIdOf(v)) == stored
    ensures Merge(StoredRow(RowsOf(Merge(Arr([stored]), w)), v), v) != Merge(StoredRow([stored], v), v)
  {
    var k := FreshKey(v.fields.Keys);
    stored := Obj(map["id" := v.fields["id"], "root" := OtherHalf(r), k := Null]);
    Turns(stored, r);
    HoldsKey(stored, v, k);
    LacksKey(v, k);
    assert RowIdOf(stored) == RowIdOf(v);
    RowTurned(stored, w, v, r);
  }

  lemma RowTurned(stored: Json, w: Json, v: Json, r: Json)
    requires NoTwins(w) && RowIdOf(v) != NoId && r == RowOf(RowsOf(w), RowIdOf(v)) && r != Null && CanTurn(r)
    requires stored.Obj? && RowIdOf(stored) == RowIdOf(v) && BlockTypeOf(stored) == Null &&
             EditorState(Merge(stored, r))
    ensures StoredRow([stored], v) == stored && StoredRow(RowsOf(Merge(Arr([stored]), w)), v) == Null
  {
    RowIsThere(w.items, RowIdOf(v));
    assert StoredRow([stored], r) == stored;
    TurnedAway([stored], w.items, RowIdOf(v));
  }

  lemma {:induction false} RowIsThere(rows: seq<Json>, id: RowId)
    requires id != NoId && RowOf(rows, id) != Null
    ensures HasObjectRow(rows)
  {
    if RowIdOf(rows[0]) == id {
      assert rows[0].Obj? && !EditorState(rows[0]);
    } else {
      RowIsThere(rows[1..], id);
      var i :| 0 <= i < |rows[1..]| && rows[1..][i].Obj? && !EditorState(rows[1..][i]);
      assert rows[i + 1] == rows[1..][i];
    }
  }

  lemma {:induction false} TurnedAway(stored: seq<Json>, ws: seq<Json>, id: RowId)
    requires id != NoId && RowOf(ws, id) != Null && CanTurn(RowOf(ws, id))
    requires EditorState(Merge(StoredRow(stored, RowOf(ws, id)), RowOf(ws, id)))
    requires forall i, j :: 0 <= i < j < |ws| && RowIdOf(ws[i]) != NoId && CanTurn(ws[i]) ==>
             RowIdOf(ws[i]) != RowIdOf(ws[j])
    ensures RowOf(MergeRows(stored, ws), id) == Null
  {
    if RowIdOf(ws[0]) == id {
      forall j | 0 <= j < |ws[1..]|
        ensures RowIdOf(ws[1..][j]) != id
      {
        assert ws[1..][j] == ws[j + 1];
      }
      NowhereElse(ws[1..], id);
      MergedRow(stored, ws[1..], id);
      MergeRowsHead(stored, ws);
    } else {
      TurnedAway(stored, ws[1..], id);
      MergeRowsHead(stored, ws);
      if ws[0].Obj? {
        MergedId(stored, ws[0]);
      }
    }
  }

  lemma {:induction false} NowhereElse(rows: seq<Json>, id: RowId)
    requires forall j :: 0 <= j < |rows| ==> RowIdOf(rows[j]) != id
    ensures RowOf(rows, id) == Null
  {
    if rows != [] {
      NowhereElse(rows[1..], id);
    }
  }

  /** A row `w` did not send is gone. */
  lemma TellingNew(v: Json) returns (stored: Json)
    requires RowIdOf(v) != NoId
    ensures stored.Obj? && RowIdOf(stored) == RowIdOf(v) && Merge(Null, v) != Merge(IfSameType(stored, v), v)
  {
    var k := FreshKey(v.fields.Keys);
    stored := Obj(map["id" := v.fields["id"], k := Null]);
    assert k in Merge(stored, v).fields && k !in Merge(Null, v).fields;
  }

  /** The two rows would be merged with stored rows of different types. */
  lemma TellingType(v: Json, w: Json) returns (stored: Json)
    requires RowIdOf(v) != NoId && RowIdOf(w) == RowIdOf(v) && Plain(w) && !SameTypes(v, w)
    ensures Tells(stored, v, w)
  {
    var k := FreshKey(v.fields.Keys + w.fields.Keys);
    var plain: Fields := map["id" := v.fields["id"], k := Null];
    if BlockTypeOf(v) == Null {
      stored := Obj(plain["blockType" := Str(BlockTypeOf(w).s + "x")]);
      assert |BlockTypeOf(w).s + "x"| == |BlockTypeOf(w).s| + 1;
      TypeOfWLost(stored, v, w, k);
    } else if BlockTypeOf(w) == Null {
      stored := Obj(plain["blockType" := Str(BlockTypeOf(v).s + "x")]);
      assert |BlockTypeOf(v).s + "x"| == |BlockTypeOf(v).s| + 1;
      TypeOfStoredLost(stored, v, w, k);
    } else {
      stored := Obj(plain);
      MergedRowIdentity(stored, w);
      HoldsKey(stored, v, k);
      LacksKey(v, k);
    }
  }

  lemma HoldsKey(stored: Json, w: Json, k: string)
    requires stored.Obj? && w.Obj? && !EditorState(stored) && !EditorState(w) && k in stored.fields && k !in w.fields
    ensures Merge(stored, w).Obj? && k in Merge(stored, w).fields
  {
  }

  lemma LacksKey(v: Json, k: string)
    requires v.Obj? && !EditorState(v) && k !in v.fields
    ensures Merge(Null, v).Obj? && k !in Merge(Null, v).fields
  {
  }

  /** `w` names a type the stored row does not have, `v` names none. */
  lemma TypeOfWLost(stored: Json, v: Json, w: Json, k: string)
    requires RowIdOf(v) != NoId && RowIdOf(w) == RowIdOf(v) && Plain(w) && BlockTypeOf(v) == Null
    requires stored.Obj? && !EditorState(stored) && IfSameType(stored, w) == Null
    requires k in stored.fields && k !in v.fields && k !in w.fields
    ensures Merge(IfSameType(Merge(IfSameType(stored, w), w), v), v) != Merge(IfSameType(stored, v), v)
  {
    PlainMerge(Null, w);
    LacksKey(w, k);
    HoldsKey(stored, v, k);
    assert k !in Merge(Merge(Null, w), v).fields;
  }

  /** `w` takes the type of the stored row away, which is not that of `v`. */
  lemma TypeOfStoredLost(stored: Json, v: Json, w: Json, k: string)
    requires RowIdOf(v) != NoId && RowIdOf(w) == RowIdOf(v) && Plain(w)
    requires BlockTypeOf(w) == Null && "blockType" in w.fields
    requires stored.Obj? && !EditorState(stored) && IfSameType(stored, v) == Null
    requires k in stored.fields && k !in v.fields && k !in w.fields
    ensures Merge(IfSameType(Merge(IfSameType(stored, w), w), v), v) != Merge(IfSameType(stored, v), v)
  {
    MergedRowIdentity(stored, w);
    PlainMerge(stored, w);
    HoldsKey(stored, w, k);
    HoldsKey(Merge(stored, w), v, k);
    LacksKey(v, k);
  }

  /** The two rows meet the same stored row, and `v` leaves something of `w`. */
  lemma {:induction false} TellingMerge(v: Json, w: Json) returns (stored: Json)
    requires RowIdOf(v) != NoId && RowIdOf(w) == RowIdOf(v) && Plain(w) && NoTwins(w) && SameTypes(v, w) &&
             !Covers(v, w)
    ensures Tells(stored, v, w)
    decreases v, 1
  {
    var held: Fields := map["id" := v.fields["id"]];
    var base := TellingFields(w.fields, v, held);
    stored := Obj(base);
    NoTypeBeside(base, held, v);
    SameMeets(base, v, w);
  }

  /** The one more field is no block type of which `v` has another. */
  lemma NoTypeBeside(base: Fields, held: Fields, v: Json)
    requires v.Obj? && held.Keys == {"id"} && (base == held || Beside(base, held, v))
    ensures "id" in base && base["id"] == held["id"]
    ensures BlockTypeOf(v) == Null || BlockTypeOf(Obj(base)) == Null
  {
  }

  lemma SameMeets(base: Fields, v: Json, w: Json)
    requires RowIdOf(v) != NoId && RowIdOf(w) == RowIdOf(v) && Plain(w) && SameTypes(v, w)
    requires !EditorState(Obj(base)) && "id" in base && base["id"] == v.fields["id"]
    requires BlockTypeOf(v) == Null || BlockTypeOf(Obj(base)) == Null
    requires Patched(Patched(base, w.fields), v.fields) != Patched(base, v.fields)
    ensures Tells(Obj(base), v, w)
  {
    RowMeets(Obj(base), v, w);
    PlainMerge(Obj(base), w);
  }

  /** The exact condition: `v` makes an earlier `w` irrelevant, whatever was stored, if and only if it covers it. */
  lemma OverwritesIff(w: Json, v: Json)
    requires NoTwins(w)
    ensures (forall cur :: Merge(Merge(cur, w), v) == Merge(cur, v)) <==> Covers(v, w)
  {
    if Covers(v, w) {
      forall cur
        ensures Merge(Merge(cur, w), v) == Merge(cur, v)
      {
        Overwrites(cur, w, v);
      }
    } else {
      var cur := Telling(w, v);
    }
  }

  /** The same of whole documents, whose own id is not sent. */
  ghost predicate CoversFields(v: Fields, w: Fields) {
    forall k :: k in w && k != "id" ==> k in v && Covers(v[k], w[k])
  }

  lemma SaveOverwrites(current: Fields, w: Fields, v: Fields)
    requires CoversFields(v, w)
    ensures ApplyPatch(ApplyPatch(current, w), v) == ApplyPatch(current, v)
  {
    OverwritesFields(current, w - {"id"}, Obj(v - {"id"}));
  }

  /** A save makes an earlier one irrelevant, whatever was stored, if and only if it covers it. */
  lemma SaveOverwritesIff(w: Fields, v: Fields)
    requires forall k :: k in w ==> NoTwins(w[k])
    ensures (forall current :: ApplyPatch(ApplyPatch(current, w), v) == ApplyPatch(current, v)) <==> CoversFields(v, w)
  {
    if CoversFields(v, w) {
      forall current
        ensures ApplyPatch(ApplyPatch(current, w), v) == ApplyPatch(current, v)
      {
        SaveOverwrites(current, w, v);
      }
    } else {
      var current := TellingSave(w, v);
    }
  }

  lemma TellingSave(w: Fields, v: Fields) returns (current: Fields)
    requires !CoversFields(v, w) && forall k :: k in w ==> NoTwins(w[k])
    ensures ApplyPatch(ApplyPatch(current, w), v) != ApplyPatch(current, v)
  {
    var k :| k in w && k != "id" && !(k in v && Covers(v[k], w[k]));
    if k !in v {
      current := map[];
      assert k in ApplyPatch(ApplyPatch(current, w), v) && k !in ApplyPatch(current, v);
    } else {
      var c := Telling(w[k], v[k]);
      current := map[k := c];
      assert ApplyPatch(ApplyPatch(current, w), v)[k] == Merge(Merge(c, w[k]), v[k]);
      assert ApplyPatch(current, v)[k] == Merge(c, v[k]);
    }
  }

  /** Two documents agree on every key that is not sent, and merge alike on every key that is. */
  ghost predicate MergeAlike(a: Fields, b: Fields, sent: Fields) {
    forall k ::
      if k in sent && k != "id" then Merge(At(a, k), sent[k]) == Merge(At(b, k), sent[k])
      else (k in a <==> k in b) && At(a, k) == At(b, k)
  }

  /** They become the same document by a save if and only if that is so. */
  lemma SavedAlikeIff(a: Fields, b: Fields, sent: Fields)
    ensures ApplyPatch(a, sent) == ApplyPatch(b, sent) <==> MergeAlike(a, b, sent)
  {
    var a', b' := ApplyPatch(a, sent), ApplyPatch(b, sent);
    forall k
      ensures k in a' <==> k in a || (k in sent && k != "id")
      ensures k in b' <==> k in b || (k in sent && k != "id")
      ensures At(a', k) == if k in sent && k != "id" then Merge(At(a, k), sent[k]) else At(a, k)
      ensures At(b', k) == if k in sent && k != "id" then Merge(At(b, k), sent[k]) else At(b, k)
    {
    }
    SameFieldsIff(a', b');
  }

  lemma SameFieldsIff(a: Fields, b: Fields)
    ensures a == b <==> forall k :: (k in a <==> k in b) && At(a, k) == At(b, k)
  {
    if forall k :: (k in a <==> k in b) && At(a, k) == At(b, k) {
      forall k | k in a
        ensures k in b && a[k] == b[k]
      {
        assert At(a, k) == At(b, k);
      }
      assert a.Keys == b.Keys;
    }
  }
}
