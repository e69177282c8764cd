/**
 The rules of the echo-diff in plain values (internal/cli/create.go): what is
 reported of one leaf, what counts as JSON text, and which paths are skipped.
 */
module EchoRules {
  import opened Wrappers
  import opened Json
  import opened Paths
  import opened EchoDiff

  // ------------------------------------------------------------------
  // One leaf
  // ------------------------------------------------------------------

  /** The whole report on a body of one leaf: dropped, changed, or nothing to say. */
  lemma OneLeafReport(skip: string -> bool, sent: Json, doc: Json, p: Path, r: Report)
    requires OnlyLeaf(sent, doc, p) && Textless(sent, doc) && Clean(p) && !skip(JoinPath(p))
    requires Reports(skip, sent, doc, r)
    ensures var s, x := JoinPath(p), Lookup(sent, p).value;
            match Lookup(doc, p)
            case None => r == Report({}, {JoinPath(FirstMissing(doc, p))}, map[s := x], map[], map[])
            case Some(y) => r == if y == x then SILENT else Report({}, {}, map[], map[s := x], map[s := y])
  {
    var s, x := JoinPath(p), Lookup(sent, p).value;
    var leaves := MadeFrom(skip, sent, doc, r);
    CleanNotEmpty(p);
    OnlyLeafAdds(sent, doc, p, leaves);
    LeafSays(skip, doc, p, x);
    OneJudged(s, x, Verdicts(skip, {}, doc));
  }

  lemma CleanNotEmpty(p: Path)
    requires Clean(p) && p != []
    ensures JoinPath(p) != "" && SplitPath(JoinPath(p)) == p
  {
    RoundTrip(p);
    RoundTrip([]);
    assert JoinPath([]) == "";
  }

  lemma LeafSays(skip: string -> bool, doc: Json, p: Path, x: Json)
    requires Clean(p) && p != [] && !skip(JoinPath(p))
    ensures Verdicts(skip, {}, doc)(JoinPath(p), x) ==
            match Lookup(doc, p)
            case None => Lost(JoinPath(FirstMissing(doc, p)))
            case Some(y) => if y == x then Quiet else Changed(y)
  {
    CleanNotEmpty(p);
    if Lookup(doc, p).None? {
      FirstMissingClean(doc, p);
    }
  }

  lemma OneJudged(s: string, x: Json, verdict: (string, Json) -> Verdict)
    ensures Judged(map[s := x], {}, verdict) ==
            match verdict(s, x)
            case Quiet => SILENT
            case Lost(missing) => Report({}, {missing}, map[s := x], map[], map[])
            case Changed(got) => Report({}, {}, map[], map[s := x], map[s := got])
  {
    JudgedOneMore(map[], {}, verdict, s, x);
    NothingJudged({}, verdict);
  }

  /** A field the server left out is reported as dropped, with the value sent. */
  lemma LeftOutIsDropped(skip: string -> bool, k: string, v: Json, r: Report)
    requires CleanKey(k) && v.Scalar() && !skip(k) && Reports(skip, Field(k, v), Obj(map[]), r)
    ensures r == Report({}, {k}, map[k := v], map[], map[])
  {
    FieldLeaf(k, v, Obj(map[]));
    FieldTextless(k, v, Obj(map[]));
    KeyPrints(k);
    OneLeafReport(skip, Field(k, v), Obj(map[]), [Key(k)], r);
    assert FirstMissing(Obj(map[]), [Key(k)]) == [Key(k)] by {
      assert [Key(k)][..1] == [Key(k)];
    }
  }

  /** A field that came back with another value is reported as normalized, with both. */
  lemma ChangeIsNormalized(skip: string -> bool, k: string, v: Json, w: Json, r: Report)
    requires CleanKey(k) && v.Scalar() && w != v && !skip(k) && Reports(skip, Field(k, v), Field(k, w), r)
    ensures r == Report({}, {}, map[], map[k := v], map[k := w])
  {
    FieldLeaf(k, v, Field(k, w));
    FieldTextless(k, v, Field(k, w));
    KeyPrints(k);
    assert Lookup(Field(k, w), [Key(k)]) == Some(w) by {
      assert [Key(k)][1..] == [];
    }
    OneLeafReport(skip, Field(k, v), Field(k, w), [Key(k)], r);
  }

  lemma FieldTextless(k: string, v: Json, doc: Json)
    requires v.Scalar() && doc.Obj?
    ensures Textless(Field(k, v), doc)
  {
    forall q
      ensures !TextAt(Field(k, v), doc, q)
    {
      if q != [] && Child(Field(k, v), q[0]).Some? {
        TextAtStep(Field(k, v), doc, q);
        ScalarTextless(v, EchoDiff.Beside(doc, q[0]), q[1..]);
      }
    }
  }

  /** A list item that came back with another value is reported too. */
  lemma ChangedItemIsNormalized(skip: string -> bool, k: string, v: Json, w: Json, r: Report)
    requires CleanKey(k) && v.Scalar() && w.Scalar() && w != v
    requires !skip(k + Printed(0)) && Reports(skip, Row(k, [v]), Row(k, [w]), r)
    ensures r == Report({}, {}, map[], map[k + Printed(0) := v], map[k + Printed(0) := w])
  {
    var sent, doc, p := Row(k, [v]), Row(k, [w]), [Key(k), Index(0)];
    assert v in multiset([v]) && v !in multiset([w]);
    RowLeaf(k, v, doc);
    RowTextless(k, v, w);
    KeyPrints(k);
    assert Lookup(doc, p) == Some(w) by {
      assert p[1..] == [Index(0)] && p[1..][1..] == [];
      assert Lookup(Arr([w]), p[1..]) == Some(w);
    }
    OneLeafReport(skip, sent, doc, p, r);
  }

  lemma RowTextless(k: string, v: Json, w: Json)
    requires v.Scalar()
    ensures Textless(Row(k, [v]), Row(k, [w]))
  {
    forall q
      ensures !TextAt(Row(k, [v]), Row(k, [w]), q)
    {
      if q != [] && Child(Row(k, [v]), q[0]).Some? {
        TextAtStep(Row(k, [v]), Row(k, [w]), q);
        if q[1..] != [] && Child(Arr([v]), q[1..][0]).Some? {
          TextAtStep(Arr([v]), Arr([w]), q[1..]);
          ScalarTextless(v, w, q[1..][1..]);
        }
      }
    }
  }

  // ------------------------------------------------------------------
  // JSON text
  // ------------------------------------------------------------------

  /** The first character that is not white space. */
  ghost predicate FirstVisible(s: string, c: char) {
    exists i :: 0 <= i < |s| && s[i] == c && forall j :: 0 <= j < i ==> IsSpace(s[j])
  }

  lemma {:induction false} OpensIff(s: string, c: char)
    ensures Opens(s, c) <==> FirstVisible(s, c)
  {
    if s != "" {
      OpensIff(s[1..], c);
      if FirstVisible(s[1..], c) && IsSpace(s[0]) {
        var i :| 0 <= i < |s[1..]| && s[1..][i] == c && forall j :: 0 <= j < i ==> IsSpace(s[1..][j]);
        assert s[i + 1] == c && forall j :: 0 <= j < i + 1 ==> IsSpace(s[j]) by {
          assert forall j :: 0 < j < i + 1 ==> s[j] == s[1..][j - 1];
        }
      }
      if FirstVisible(s, c) && s[0] != c {
        var i :| 0 <= i < |s| && s[i] == c && forall j :: 0 <= j < i ==> IsSpace(s[j]);
        assert s[1..][i - 1] == c && forall j :: 0 <= j < i - 1 ==> IsSpace(s[1..][j]);
      }
    }
  }

  /** A value is stored as text exactly when it is a container with content and its echo a string that opens one. */
  lemma TextIff(sent: Json, doc: Json, q: Path)
    ensures TextAt(sent, doc, q) <==>
            && Lookup(sent, q).Some? && Lookup(doc, q).Some? && Lookup(doc, q).value.Str?
            && match Lookup(sent, q).value
               case Obj(fields) => fields != map[] && FirstVisible(Lookup(doc, q).value.s, '{')
               case Arr(items) => items != [] && FirstVisible(Lookup(doc, q).value.s, '[')
               case _ => false
  {
    if Lookup(doc, q).Some? && Lookup(doc, q).value.Str? {
      OpensIff(Lookup(doc, q).value.s, '{');
      OpensIff(Lookup(doc, q).value.s, '[');
    }
  }

  /** An object that came back as its JSON text is reported as that, and nothing below it as lost or changed. */
  lemma TextIsReported(skip: string -> bool, k: string, fields: map<string, Json>, t: string, r: Report)
    requires CleanKey(k) && CleanBody(Obj(fields)) && fields != map[] && FirstVisible(t, '{') && !skip(k)
    requires Reports(skip, Field(k, Obj(fields)), Field(k, Str(t)), r)
    ensures k in r.stored && r.dropped == map[] && r.normalized == map[] && r.droppedPaths == {}
  {
    var sent, doc, q := Field(k, Obj(fields)), Field(k, Str(t)), [Key(k)];
    CleanReport(skip, sent, doc, r);
    KeyPrints(k);
    TextAtKey(k, Obj(fields), t);
    assert TextReported(skip, sent, doc, q);
    forall p | ScalarLeaf(sent, p)
      ensures Under(skip, sent, doc, p)
    {
      BelowKey(k, Obj(fields), p);
    }
    NothingBelowReported(skip, sent, doc, r);
  }

  lemma BelowKey(k: string, v: Json, p: Path)
    requires ScalarLeaf(Field(k, v), p)
    ensures p[..1] == [Key(k)]
  {
    assert Child(Field(k, v), p[0]).Some?;
  }

  lemma NothingBelowReported(skip: string -> bool, sent: Json, doc: Json, r: Report)
    requires Accounts(skip, sent, doc, r) && forall p :: ScalarLeaf(sent, p) ==> Under(skip, sent, doc, p)
    ensures r.dropped == map[] && r.normalized == map[] && r.droppedPaths == {}
  {
    forall p | ScalarLeaf(sent, p)
      ensures JoinPath(p) !in r.dropped && JoinPath(p) !in r.normalized && !ClassOf(skip, sent, doc, p).Dropped?
    {
      assert AccountsFor(skip, sent, doc, r, p);
      UnderIsQuiet(skip, sent, doc, r, p);
    }
    forall s
      ensures s !in r.dropped && s !in r.normalized
    {
      assert !LeafName(sent, s) ==> s !in r.dropped && s !in r.normalized;
    }
    forall m
      ensures m !in r.droppedPaths
    {
      assert !MissingName(skip, sent, doc, m);
    }
  }

  lemma UnderIsQuiet(skip: string -> bool, sent: Json, doc: Json, r: Report, p: Path)
    requires ScalarLeaf(sent, p) && Under(skip, sent, doc, p) && AccountsFor(skip, sent, doc, r, p)
    ensures JoinPath(p) !in r.dropped && JoinPath(p) !in r.normalized && !ClassOf(skip, sent, doc, p).Dropped?
  {
  }

  lemma TextAtKey(k: string, v: Json, t: string)
    requires v.Obj? && v.fields != map[] && FirstVisible(t, '{')
    ensures TextAt(Field(k, v), Field(k, Str(t)), [Key(k)])
  {
    var q := [Key(k)];
    assert q[0] == Key(k) && q[1..] == [];
    assert Child(Field(k, v), Key(k)) == Some(v) && Child(Field(k, Str(t)), Key(k)) == Some(Str(t));
    assert Lookup(v, []) == Some(v) && Lookup(Str(t), []) == Some(Str(t));
    TextIff(Field(k, v), Field(k, Str(t)), q);
  }

  // ------------------------------------------------------------------
  // The skip list
  // ------------------------------------------------------------------

  /** A printed path has a bracket exactly when it has an index. */
  lemma {:induction false} BracketIff(p: Path)
    requires Clean(p)
    ensures Without(JoinPath(p), '[') <==> forall i :: 0 <= i < |p| ==> p[i].Key?
    decreases |p|
  {
    if p != [] {
      var init, last := p[..|p| - 1], p[|p| - 1];
      assert p == init + [last];
      BracketIff(init);
      JoinSnoc(init, last);
      var b, u := JoinPath(init), JoinPath(p);
      if last.Index? {
        assert u[|b|] == '[';
      } else {
        SplitWithout(b, (if b != "" then "." else "") + last.key, u);
      }
    }
  }

  lemma SplitWithout(a: string, b: string, s: string)
    requires s == a + b
    ensures Without(s, '[') <==> Without(a, '[') && Without(b, '[')
  {
    if Without(s, '[') {
      assert forall i :: 0 <= i < |a| ==> s[i] == a[i];
      assert forall i :: 0 <= i < |b| ==> s[|a| + i] == b[i];
    }
  }

  predicate EndsInId(s: string) { |s| >= 3 && s[|s| - 3] == '.' && s[|s| - 2] == 'i' && s[|s| - 1] == 'd' }

  lemma SuffixIff(s: string)
    ensures |s| >= 3 && s[|s| - 3..] == ".id" <==> EndsInId(s)
  {
    if |s| >= 3 {
      assert s[|s| - 3..] == [s[|s| - 3], s[|s| - 2], s[|s| - 1]];
    }
  }

  lemma EndsInIdIff(p: Path)
    requires Clean(p) && p != [] && p[0].Key?
    ensures EndsInId(JoinPath(p)) <==> |p| > 1 && p[|p| - 1] == Key("id")
  {
    PrintedFrom(p);
    EndsFrom(p[..|p| - 1], p[|p| - 1], JoinPath(p[..|p| - 1]), JoinPath(p));
  }

  /** A print and the print of all steps but the last. */
  lemma PrintedFrom(p: Path)
    requires Clean(p) && p != []
    ensures var init, last := p[..|p| - 1], p[|p| - 1];
            && CleanStep(last) && (JoinPath(init) == "" <==> init == [])
            && JoinPath(p) == if last.Index? then JoinPath(init) + Printed(last.i)
                              else if JoinPath(init) != "" then JoinPath(init) + "." + last.key else last.key
  {
    var init, last := p[..|p| - 1], p[|p| - 1];
    assert p == init + [last];
    JoinSnoc(init, last);
    NotEmpty(init);
  }

  lemma NotEmpty(p: Path)
    requires Clean(p)
    ensures JoinPath(p) == "" <==> p == []
  {
    if p != [] {
      CleanNotEmpty(p);
    }
  }

  lemma EndsFrom(init: Path, last: Step, b: string, s: string)
    requires CleanStep(last) && (init == [] ==> last.Key?) && (b == "" <==> init == [])
    requires s == if last.Index? then b + Printed(last.i) else if b != "" then b + "." + last.key else last.key
    ensures EndsInId(s) <==> init != [] && last == Key("id")
  {
    if init == [] {
      OneNameEnds(last.key);
    } else {
      AppendedEnds(b, last);
    }
  }

  lemma OneNameEnds(k: string)
    requires CleanKey(k)
    ensures !EndsInId(k)
  {
  }

  lemma AppendedEnds(b: string, st: Step)
    requires CleanStep(st)
    ensures EndsInId(if st.Index? then b + Printed(st.i) else b + "." + st.key) <==> st == Key("id")
  {
    if st.Index? {
      var s := b + Printed(st.i);
      assert s[|s| - 1] == ']';
    } else {
      LastName(b, st.key);
    }
  }

  lemma LastName(b: string, k: string)
    requires CleanKey(k)
    ensures EndsInId(b + "." + k) <==> k == "id"
  {
    var s := b + "." + k;
    assert forall i :: 0 <= i < |k| ==> s[|b| + 1 + i] == k[i];
    assert s[|b|] == '.';
    if k == "id" {
      assert |s| == |b| + 3;
    }
    if EndsInId(s) {
      assert |k| == 2 by {
        assert |s| == |b| + 1 + |k|;
      }
      assert k == [k[0], k[1]];
    }
  }

  lemma UpToKeeps(s: string, c: char, u: string)
    ensures !Without(s, c) ==> UpTo(s + u, c) == UpTo(s, c)
    ensures Without(s, c) ==> UpTo(s, c) == s && UpTo(s + [c] + u, c) == s
  {
    CutNone(s, c);
    if Without(s, c) {
      CutIs(s, c, u);
    } else {
      CutAppend(s, c, u);
    }
  }

  /** rootOf reads the first key of a printed path. */
  lemma {:induction false} RootIs(p: Path)
    requires Clean(p) && p != [] && p[0].Key?
    ensures RootOf(JoinPath(p)) == p[0].key
    decreases |p|
  {
    var init, last := p[..|p| - 1], p[|p| - 1];
    assert p == init + [last];
    JoinSnoc(init, last);
    if |p| == 1 {
      assert init == [];
      RootOfName(last.key);
    } else {
      RootIs(init);
      CleanNotEmpty(init);
      RootAppends(JoinPath(init), last);
      Regroup(JoinPath(init), last);
    }
  }

  lemma Regroup(s: string, st: Step)
    ensures s + (if st.Key? then "." + st.key else Printed(st.i)) ==
            if st.Key? then s + "." + st.key else s + Printed(st.i)
  {
    assert st.Key? ==> s + ("." + st.key) == s + "." + st.key;
  }

  lemma RootOfName(k: string)
    requires CleanKey(k)
    ensures RootOf(k) == k
  {
    UpToKeeps(k, '[', "");
    UpToKeeps(k, '.', "");
  }

  lemma RootAppends(s: string, st: Step)
    requires CleanStep(st)
    ensures RootOf(s + if st.Key? then "." + st.key else Printed(st.i)) == RootOf(s)
  {
    var u := if st.Key? then "." + st.key else Printed(st.i);
    UpToKeeps(s, '[', u);
    if Without(s, '[') {
      if st.Index? {
        assert u == "[" + u[1..] && s + u == s + ['['] + u[1..];
        UpToKeeps(s, '[', u[1..]);
      } else {
        SplitWithout(s, u, s + u);
        assert Without(u, '[');
        UpToKeeps(s + u, '[', "");
        assert s + u == s + ['.'] + st.key;
        UpToKeeps(s, '.', u);
        UpToKeeps(s, '.', st.key);
      }
    }
  }

  /** A path that is just one field. */
  lemma PrintsAs(p: Path, k: string)
    requires Clean(p) && CleanKey(k)
    ensures JoinPath(p) == k <==> p == [Key(k)]
  {
    KeyPrints(k);
    if JoinPath(p) == k {
      JoinInjective(p, [Key(k)]);
    }
  }

  /** The `id` of a row, at any depth below a list. */
  ghost predicate RowIdPath(p: Path) {
    |p| > 1 && p[|p| - 1] == Key("id") && exists i :: 0 <= i < |p| && p[i].Index?
  }

  /** The value of a root field that came back as an object though none was sent, where its localization is unknown. */
  predicate LocaleMapUnder(cfg: EchoConfig, sent: Json, echoed: Json, root: string) {
    && root in cfg.unlearned && sent.Obj? && echoed.Obj? && root in sent.fields && root in echoed.fields
    && !sent.fields[root].Obj? && echoed.fields[root].Obj?
  }

  /**
   Exactly these paths are skipped: the four fields the server owns, the ids of rows,
   what the profile ignores, and locale maps.
   */
  lemma SkippedIff(cfg: EchoConfig, sent: Json, echoed: Json, p: Path)
    requires Clean(p) && p != [] && p[0].Key?
    ensures Skip(cfg, sent, echoed, JoinPath(p)) <==>
            || p in [[Key("id")], [Key("createdAt")], [Key("updatedAt")], [Key("_status")]]
            || RowIdPath(p)
            || (exists i :: 0 <= i < |cfg.ignore| && cfg.ignore[i] != "" && AtOrBelow(JoinPath(p), cfg.ignore[i]))
            || LocaleMapUnder(cfg, sent, echoed, p[0].key)
  {
    OwnedIff(p);
    RowIdIff(p);
    RootIs(p);
  }

  lemma OwnedIff(p: Path)
    requires Clean(p)
    ensures JoinPath(p) in ["id", "createdAt", "updatedAt", "_status"] <==>
            p in [[Key("id")], [Key("createdAt")], [Key("updatedAt")], [Key("_status")]]
  {
    PrintsAs(p, "id");
    PrintsAs(p, "createdAt");
    PrintsAs(p, "updatedAt");
    PrintsAs(p, "_status");
  }

  lemma RowIdIff(p: Path)
    requires Clean(p) && p != [] && p[0].Key?
    ensures var s := JoinPath(p);
            |s| >= 3 && s[|s| - 3..] == ".id" && !Without(s, '[') <==> RowIdPath(p)
  {
    SuffixIff(JoinPath(p));
    EndsInIdIff(p);
    BracketIff(p);
  }
}
