/**
 Pairing the ids a caller asked for with the documents a read returned
 (internal/cli/idmatch.go).
 */
module IdMatch {
  import opened Wrappers
  import opened Patch
  import Paths
  import EchoDiff

  // ------------------------------------------------------------------
  // Numeric ids
  // ------------------------------------------------------------------

  function TrimLeft(s: string): string { if s != "" && EchoDiff.IsSpace(s[0]) then TrimLeft(s[1..]) else s }

  function TrimRight(s: string): string {
    if s != "" && EchoDiff.IsSpace(s[|s| - 1]) then TrimRight(s[..|s| - 1]) else s
  }

  function TrimSpace(s: string): string { TrimRight(TrimLeft(s)) }

  function FormatInt(v: int): string { if v < 0 then "-" + Paths.Itoa(-v) else Paths.Itoa(v) }

  /** parseNumericID: the canonical decimal of an integer id. */
  function ParseNumericId(s: string): Option<string> {
    match Paths.Atoi(TrimSpace(s))
    case None => None
    case Some(v) => Some(FormatInt(v))
  }

  predicate Int64(v: int) { -0x8000_0000_0000_0000 <= v < 0x8000_0000_0000_0000 }

  lemma AtoiRange(s: string)
    ensures Paths.Atoi(s).Some? ==> Int64(Paths.Atoi(s).value)
  {
  }

  lemma NoSpaces(s: string)
    requires s != "" && !EchoDiff.IsSpace(s[0]) && !EchoDiff.IsSpace(s[|s| - 1])
    ensures TrimSpace(s) == s
  {
  }

  lemma AtoiFormat(v: int)
    requires Int64(v)
    ensures Paths.Atoi(FormatInt(v)) == Some(v)
  {
    if v >= 0 {
      Paths.AtoiItoa(v);
    } else {
      Paths.DigitsRoundTrip(-v);
      assert FormatInt(v)[1..] == Paths.Itoa(-v);
    }
  }

  /** The canonical decimal is canonical: parsing it again changes nothing. */
  lemma CanonicalIsStable(s: string)
    requires ParseNumericId(s).Some?
    ensures ParseNumericId(ParseNumericId(s).value) == ParseNumericId(s)
  {
    var v := Paths.Atoi(TrimSpace(s)).value;
    AtoiRange(TrimSpace(s));
    NoSpaces(FormatInt(v));
    AtoiFormat(v);
  }

  /** Two ids with the same canonical decimal name the same number, and only those do. */
  lemma CanonicalIffSameNumber(s: string, t: string)
    requires ParseNumericId(s).Some? && ParseNumericId(t).Some?
    ensures ParseNumericId(s) == ParseNumericId(t) <==> Paths.Atoi(TrimSpace(s)) == Paths.Atoi(TrimSpace(t))
  {
    AtoiRange(TrimSpace(s));
    AtoiRange(TrimSpace(t));
    AtoiFormat(Paths.Atoi(TrimSpace(s)).value);
    AtoiFormat(Paths.Atoi(TrimSpace(t)).value);
  }

  /** White space around an id and zeros in front of it do not matter. */
  lemma SpaceBefore(c: char, s: string)
    requires EchoDiff.IsSpace(c)
    ensures ParseNumericId([c] + s) == ParseNumericId(s)
  {
    assert ([c] + s)[1..] == s;
  }

  lemma SpaceAfter(s: string, c: char)
    requires EchoDiff.IsSpace(c)
    ensures ParseNumericId(s + [c]) == ParseNumericId(s)
  {
    TrimLeftSnoc(s, c);
    var t := TrimLeft(s);
    if t != "" {
      assert (t + [c])[..|t|] == t;
    }
  }

  lemma {:induction false} TrimLeftSnoc(s: string, c: char)
    requires EchoDiff.IsSpace(c)
    ensures TrimLeft(s + [c]) == if TrimLeft(s) == "" then "" else TrimLeft(s) + [c]
  {
    if s == "" {
      assert s + [c] == [c] && [c][1..] == "";
    } else {
      assert (s + [c])[1..] == s[1..] + [c];
      if EchoDiff.IsSpace(s[0]) {
        TrimLeftSnoc(s[1..], c);
      }
    }
  }

  lemma ZeroBefore(s: string)
    requires s != "" && Paths.ParseDigits(s).Some?
    ensures ParseNumericId("0" + s) == ParseNumericId(s)
  {
    AllDigits(s);
    ZeroDigits(s);
    NoSpaces(s);
    NoSpaces("0" + s);
    assert ("0" + s)[0] == '0' && ("0" + s)[|s|] == s[|s| - 1];
  }

  lemma {:induction false} AllDigits(s: string)
    requires Paths.ParseDigits(s).Some?
    ensures forall i :: 0 <= i < |s| ==> '0' <= s[i] <= '9'
  {
    if s != "" {
      AllDigits(s[..|s| - 1]);
    }
  }

  lemma {:induction false} ZeroDigits(s: string)
    ensures Paths.ParseDigits("0" + s) == Paths.ParseDigits(s)
  {
    if s == "" {
      assert ("0" + s)[..0] == "";
    } else {
      ZeroDigits(s[..|s| - 1]);
      assert ("0" + s)[..|s|] == "0" + s[..|s| - 1];
    }
  }

  // ------------------------------------------------------------------
  // The index
  // ------------------------------------------------------------------

  /** A document of a read: its id as the server prints it, and whether that is a JSON number. */
  datatype Doc = Doc(id: string, numeric: bool, content: Fields)

  datatype Pair = Pair(doc: Doc, key: string)

  /** Every number leads to an entry. */
  predicate Linked(exact: map<string, Doc>, numeric: map<string, string>) {
    forall n :: n in numeric ==> numeric[n] in exact
  }

  /** The document for a requested id, and the key it is stored under. */
  function Find(exact: map<string, Doc>, numeric: map<string, string>, id: string): Option<Pair>
    requires Linked(exact, numeric)
  {
    FindBy(exact, numeric, id, ParseNumericId(id))
  }

  /** The same, given the number the id is, if it is one. */
  function FindBy(exact: map<string, Doc>, numeric: map<string, string>, id: string,
                  number: Option<string>): Option<Pair>
    requires Linked(exact, numeric)
  {
    if id in exact then Some(Pair(exact[id], id))
    else if number.Some? && number.value in numeric then Some(Pair(exact[numeric[number.value]], numeric[number.value]))
    else None
  }

  /** An id that is found stays found as the index grows. */
  lemma FindGrows(exact: map<string, Doc>, numeric: map<string, string>, exact': map<string, Doc>,
                  numeric': map<string, string>, id: string)
    requires Linked(exact, numeric) && Linked(exact', numeric')
    requires exact.Keys <= exact'.Keys && numeric.Keys <= numeric'.Keys
    ensures Find(exact, numeric, id).Some? ==> Find(exact', numeric', id).Some?
  {
  }

  class DocsById {
    var exact: map<string, Doc>
    var numeric: map<string, string>

    ghost predicate Valid()
      reads this
    {
      Linked(exact, numeric)
    }

    constructor ()
      ensures Valid() && exact == map[] && numeric == map[]
    {
      exact, numeric := map[], map[];
    }

    method Add(doc: Doc)
      requires Valid()
      modifies this
      ensures Valid()
      ensures exact == old(exact)[doc.id := doc]
      ensures numeric == WithNumber(old(numeric), doc)
    {
      exact := exact[doc.id := doc];
      if doc.numeric {
        var n := ParseNumericId(doc.id);
        if n.Some? {
          numeric := numeric[n.value := doc.id];
        }
      }
    }

    /** Stores a document under an id of the caller's own. */
    method AddAs(id: string, doc: Doc)
      requires Valid()
      modifies this`exact
      ensures Valid() && exact == old(exact)[id := doc]
    {
      exact := exact[id := doc];
    }

    function Lookup(id: string): Option<Pair>
      requires Valid()
      reads this
    {
      Find(exact, numeric, id)
    }
  }

  // ------------------------------------------------------------------
  // What the server does with an id
  // ------------------------------------------------------------------

  /**
   One collection as the server addresses it: `canon` is its cast of an id in a
   path or a query, which maps every form of an id to the one it prints.
   */
  datatype Service = Service(canon: string -> string, numericIds: bool)
  {
    /** Printed ids stand for themselves; where ids are numbers, every form of a number means that number. */
    ghost predicate WellCast() {
      && (forall raw :: canon(canon(raw)) == canon(raw))
      && (numericIds ==> forall raw :: ParseNumericId(raw).Some? ==> canon(raw) == ParseNumericId(raw).value)
    }

    /** Ids the index can pair: printed as the server prints them, or any form of a number. */
    predicate Pairable(raw: string) {
      raw == canon(raw) || (numericIds && ParseNumericId(raw).Some?)
    }
  }

  /** The key an id is kept under: the decimal of a number where ids are numbers, the id as sent everywhere else. */
  function KeyOf(sv: Service, raw: string): string {
    match ParseNumericId(raw)
    case Some(n) => if sv.numericIds then n else raw
    case None => raw
  }

  /** Pairable are exactly the ids kept under the id the server prints. */
  lemma KeyIsPrintedIff(sv: Service, raw: string)
    requires sv.WellCast()
    ensures KeyOf(sv, raw) == sv.canon(raw) <==> sv.Pairable(raw)
    ensures sv.canon(KeyOf(sv, raw)) == sv.canon(raw)
    ensures KeyOf(sv, raw) == sv.canon(KeyOf(sv, raw)) || !sv.Pairable(KeyOf(sv, raw))
  {
    if sv.numericIds && ParseNumericId(raw).Some? {
      NumberIsCanonical(sv, raw);
    }
  }

  /** A text id is kept as sent. */
  lemma TextKey(sv: Service, raw: string)
    requires !sv.numericIds
    ensures KeyOf(sv, raw) == raw
  {
  }

  /** A key is its own key. */
  lemma KeyOfKey(sv: Service, key: string)
    requires sv.WellCast() && (key == sv.canon(key) || !sv.Pairable(key))
    ensures KeyOf(sv, key) == key
  {
  }

  /** An entry is a document of the server, under its printed id or under one that has no printed form here. */
  ghost predicate Entry(k: string, doc: Doc, sv: Service, docs: map<string, Fields>) {
    && sv.canon(k) in docs && doc.content == docs[sv.canon(k)] && doc.id == sv.canon(k)
    && (k == sv.canon(k) || !sv.Pairable(k))
  }

  ghost predicate Indexes(exact: map<string, Doc>, numeric: map<string, string>, sv: Service,
                          docs: map<string, Fields>) {
    && (forall k :: k in exact ==> Entry(k, exact[k], sv, docs))
    && (forall n :: n in numeric ==> sv.numericIds && numeric[n] == n && n in exact && n == sv.canon(n))
  }

  /** A document the server returns, under the id it prints. */
  ghost predicate Returned(doc: Doc, sv: Service, docs: map<string, Fields>) {
    doc.id in docs && docs[doc.id] == doc.content && sv.canon(doc.id) == doc.id && doc.numeric == sv.numericIds
  }

  /** The numeric side of the index after a document is added. */
  function WithNumber(numeric: map<string, string>, doc: Doc): map<string, string> {
    WithNumberBy(numeric, doc, ParseNumericId(doc.id))
  }

  function WithNumberBy(numeric: map<string, string>, doc: Doc, number: Option<string>): map<string, string> {
    if doc.numeric && number.Some? then numeric[number.value := doc.id] else numeric
  }

  lemma AddUnpairable(exact: map<string, Doc>, numeric: map<string, string>, sv: Service, docs: map<string, Fields>,
                      doc: Doc, id: string)
    requires Indexes(exact, numeric, sv, docs) && Returned(doc, sv, docs) && sv.canon(id) == doc.id && !sv.Pairable(id)
    ensures Indexes(exact[id := doc], numeric, sv, docs)
  {
    assert Entry(id, doc, sv, docs);
  }

  lemma AddEntry(exact: map<string, Doc>, numeric: map<string, string>, sv: Service, docs: map<string, Fields>,
                 doc: Doc)
    requires Indexes(exact, numeric, sv, docs) && Returned(doc, sv, docs)
    ensures Indexes(exact[doc.id := doc], numeric, sv, docs)
  {
    assert Entry(doc.id, doc, sv, docs);
  }

  lemma AddNumber(exact: map<string, Doc>, numeric: map<string, string>, sv: Service, docs: map<string, Fields>,
                  n: string)
    requires Indexes(exact, numeric, sv, docs) && sv.numericIds && n in exact && n == sv.canon(n)
    ensures Indexes(exact, numeric[n := n], sv, docs)
  {
  }

  lemma AddIndexes(exact: map<string, Doc>, numeric: map<string, string>, sv: Service, docs: map<string, Fields>,
                   doc: Doc)
    requires sv.WellCast() && Indexes(exact, numeric, sv, docs) && Returned(doc, sv, docs)
    ensures Indexes(exact[doc.id := doc], WithNumber(numeric, doc), sv, docs)
  {
    AddEntry(exact, numeric, sv, docs, doc);
    if doc.numeric && ParseNumericId(doc.id).Some? {
      AddNumber(exact[doc.id := doc], numeric, sv, docs, doc.id);
    }
  }

  /** The pair holds the document the server addresses with `raw`, under the key of `raw`. */
  ghost predicate Addressed(pair: Pair, sv: Service, docs: map<string, Fields>, raw: string) {
    && sv.canon(raw) in docs && pair.doc.content == docs[sv.canon(raw)]
    && pair.key == KeyOf(sv, raw)
  }

  /**
   Pairing is exact: what lookup returns for an id is the document the server
   addresses with it, and the key is that of the id, which is computed from the id
   alone.
   */
  lemma LookupIsAddressed(exact: map<string, Doc>, numeric: map<string, string>, sv: Service, docs: map<string, Fields>,
                          raw: string)
    requires Linked(exact, numeric) && sv.WellCast() && Indexes(exact, numeric, sv, docs)
    ensures Find(exact, numeric, raw).Some? ==> Addressed(Find(exact, numeric, raw).value, sv, docs, raw)
  {
    if raw in exact {
      assert Entry(raw, exact[raw], sv, docs);
      KeyOfKey(sv, raw);
    } else if Find(exact, numeric, raw).Some? {
      var n := ParseNumericId(raw).value;
      assert sv.canon(raw) == n && Entry(n, exact[n], sv, docs);
    }
  }

  lemma AddedIsFoundBy(exact: map<string, Doc>, numeric: map<string, string>, doc: Doc, raw: string,
                       number: Option<string>, docNumber: Option<string>)
    requires Linked(exact, numeric)
    ensures Linked(exact[doc.id := doc], WithNumberBy(numeric, doc, docNumber))
    ensures raw == doc.id || (doc.numeric && number == docNumber == Some(doc.id)) ==>
              FindBy(exact[doc.id := doc], WithNumberBy(numeric, doc, docNumber), raw, number).Some?
  {
  }

  /** A document just added is found under every pairable form of its id. */
  lemma AddedIsFound(exact: map<string, Doc>, numeric: map<string, string>, sv: Service, docs: map<string, Fields>,
                     doc: Doc, raw: string)
    requires Linked(exact, numeric) && sv.WellCast() && Returned(doc, sv, docs) && sv.canon(raw) == doc.id
    ensures Linked(exact[doc.id := doc], WithNumber(numeric, doc))
    ensures sv.Pairable(raw) ==> Find(exact[doc.id := doc], WithNumber(numeric, doc), raw).Some?
  {
    AddedIsFoundBy(exact, numeric, doc, raw, ParseNumericId(raw), ParseNumericId(doc.id));
    if sv.Pairable(raw) && raw != doc.id {
      NumberIsCanonical(sv, raw);
    }
  }

  lemma NumberIsCanonical(sv: Service, raw: string)
    requires sv.WellCast() && sv.numericIds && ParseNumericId(raw).Some?
    ensures ParseNumericId(raw) == Some(sv.canon(raw)) && ParseNumericId(sv.canon(raw)) == Some(sv.canon(raw))
  {
    CanonicalIsStable(raw);
  }

  /** Two forms of a string id are two documents: `0108` never finds `108`. */
  lemma TextIdsAreExact(exact: map<string, Doc>, numeric: map<string, string>, sv: Service, docs: map<string, Fields>,
                        raw: string)
    requires Linked(exact, numeric) && !sv.numericIds && Indexes(exact, numeric, sv, docs)
    ensures Find(exact, numeric, raw).Some? <==> raw in exact
  {
  }

  /**
   A form of an id that does not pair is indexed beside the printed one, so one
   document has two keys, and two backups, of which only one can find its
   published state.
   */
  lemma UnpairableHasItsOwnKey(exact: map<string, Doc>, numeric: map<string, string>, sv: Service,
                               docs: map<string, Fields>, doc: Doc, raw: string)
    requires Linked(exact, numeric) && Indexes(exact, numeric, sv, docs) && Returned(doc, sv, docs)
    requires sv.canon(raw) == doc.id && !sv.Pairable(raw)
    ensures var e := exact[doc.id := doc][raw := doc];
            && Indexes(e, numeric, sv, docs) && Linked(e, numeric)
            && Find(e, numeric, raw) == Some(Pair(doc, raw)) && Find(e, numeric, doc.id) == Some(Pair(doc, doc.id))
            && raw != doc.id
  {
    AddEntry(exact, numeric, sv, docs, doc);
    AddUnpairable(exact[doc.id := doc], numeric, sv, docs, doc, raw);
  }
}
