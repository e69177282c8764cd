/**
 The echo-diff (internal/cli/create.go): after a write, every scalar the body held
 is compared with the document the server returned.

 The claim is accounting: each scalar leaf of the body falls in exactly one class,
 the report lists exactly the leaves of the two classes worth a warning, and an
 echo that only adds keys is never reported.
 */
module EchoDiff {
  import opened Wrappers
  import opened Json
  import opened Paths

  // ------------------------------------------------------------------
  // The body and its echo, side by side
  // ------------------------------------------------------------------

  /** The echo beside a step of the body; nil where the echo has nothing. */
  function Beside(echoed: Json, st: Step): Json {
    match Child(echoed, st)
    case None => Null
    case Some(c) => c
  }

  function BesideAt(echoed: Json, p: Path): Json {
    match Lookup(echoed, p)
    case None => Null
    case Some(c) => c
  }

  /** A list the server returned with the same elements, in any order. */
  predicate ReorderedOnly(sent: seq<Json>, echoed: Json) {
    echoed.Arr? && |sent| > 0 && multiset(echoed.items) == multiset(sent)
  }

  /** Field names print cleanly, and no list is longer than an int counts. */
  predicate CleanBody(v: Json) {
    match v
    case Obj(fields) => forall k :: k in fields ==> CleanKey(k) && CleanBody(fields[k])
    case Arr(items) => |items| <= INT_LIMIT && forall i :: 0 <= i < |items| ==> CleanBody(items[i])
    case _ => true
  }

  lemma {:induction false} CleanPath(v: Json, p: Path)
    requires CleanBody(v) && Lookup(v, p).Some?
    ensures Clean(p) && CleanBody(Lookup(v, p).value)
    decreases |p|
  {
    if p != [] {
      var c := Child(v, p[0]).value;
      assert CleanStep(p[0]) && CleanBody(c);
      CleanPath(c, p[1..]);
    }
  }

  // ------------------------------------------------------------------
  // Leaves
  // ------------------------------------------------------------------

  predicate ScalarLeaf(sent: Json, p: Path) {
    p != [] && Lookup(sent, p).Some? && Lookup(sent, p).value.Scalar()
  }

  /** Inside a list that was at most reordered. */
  ghost predicate InReordered(sent: Json, echoed: Json, p: Path) {
    exists n :: 0 <= n < |p| && ReorderedAt(sent, echoed, p[..n])
  }

  predicate ReorderedAt(sent: Json, echoed: Json, q: Path) {
    && Lookup(sent, q).Some? && Lookup(sent, q).value.Arr?
    && ReorderedOnly(Lookup(sent, q).value.items, BesideAt(echoed, q))
  }

  /** The leaves collectLeaves visits, as it walks. */
  predicate Visited(v: Json, echoed: Json, p: Path)
    decreases |p|
  {
    if v.Scalar() then p == []
    else if v.Arr? && ReorderedOnly(v.items, echoed) then false
    else p != [] && Child(v, p[0]).Some? && Visited(Child(v, p[0]).value, Beside(echoed, p[0]), p[1..])
  }

  lemma {:induction false} VisitedExists(v: Json, echoed: Json, p: Path)
    requires Visited(v, echoed, p)
    ensures Lookup(v, p).Some? && Lookup(v, p).value.Scalar()
    decreases |p|
  {
    if p != [] {
      VisitedExists(Child(v, p[0]).value, Beside(echoed, p[0]), p[1..]);
    }
  }

  /** It visits exactly the scalars outside every reordered list. */
  lemma {:induction false} VisitedExact(v: Json, echoed: Json, p: Path)
    ensures Visited(v, echoed, p) <==>
            Lookup(v, p).Some? && Lookup(v, p).value.Scalar() && !InReordered(v, echoed, p)
    decreases |p|
  {
    if p != [] && Child(v, p[0]).Some? {
      VisitedExact(Child(v, p[0]).value, Beside(echoed, p[0]), p[1..]);
      InReorderedStep(v, echoed, p);
    }
  }

  lemma ReorderedAtStep(v: Json, echoed: Json, st: Step, q: Path)
    requires Child(v, st).Some?
    ensures ReorderedAt(v, echoed, [st] + q) <==> ReorderedAt(Child(v, st).value, Beside(echoed, st), q)
  {
    assert ([st] + q)[0] == st && ([st] + q)[1..] == q;
    if Child(echoed, st).None? {
      assert Lookup(Null, q).None? || q == [];
    }
  }

  lemma InReorderedStep(v: Json, echoed: Json, p: Path)
    requires p != [] && Child(v, p[0]).Some?
    ensures InReordered(v, echoed, p) <==>
            (v.Arr? && ReorderedOnly(v.items, echoed)) ||
            InReordered(Child(v, p[0]).value, Beside(echoed, p[0]), p[1..])
  {
    var c, e := Child(v, p[0]).value, Beside(echoed, p[0]);
    assert p[..0] == [];
    forall n | 0 <= n < |p| - 1
      ensures ReorderedAt(v, echoed, p[..n + 1]) <==> ReorderedAt(c, e, p[1..][..n])
    {
      assert p[..n + 1] == [p[0]] + p[1..][..n];
      ReorderedAtStep(v, echoed, p[0], p[1..][..n]);
    }
    if InReordered(c, e, p[1..]) {
      var n :| 0 <= n < |p| - 1 && ReorderedAt(c, e, p[1..][..n]);
      assert ReorderedAt(v, echoed, p[..n + 1]);
    }
    if InReordered(v, echoed, p) {
      var n :| 0 <= n < |p| && ReorderedAt(v, echoed, p[..n]);
      if n > 0 {
        assert ReorderedAt(v, echoed, p[..(n - 1) + 1]);
        assert ReorderedAt(c, e, p[1..][..n - 1]);
      }
    }
    assert ReorderedAt(v, echoed, p[..0]) <==> v.Arr? && ReorderedOnly(v.items, echoed);
  }

  /** Leaf `p` of a value at `at` prints as `s`. */
  ghost predicate NamedBy(v: Json, echoed: Json, at: Path, p: Path, s: string) {
    Visited(v, echoed, p) && JoinPath(at + p) == s && s != ""
  }

  ghost predicate Named(v: Json, echoed: Json, at: Path, s: string) { exists p :: NamedBy(v, echoed, at, p, s) }

  ghost predicate Valued(v: Json, echoed: Json, at: Path, s: string, x: Json) {
    exists p :: NamedBy(v, echoed, at, p, s) && Lookup(v, p) == Some(x)
  }

  /** Every name below `at` is added, with the value of a leaf that prints so, and nothing else changes. */
  ghost predicate Adds(before: map<string, Json>, after: map<string, Json>, v: Json, echoed: Json, at: Path) {
    && (forall s :: s in after <==> s in before || Named(v, echoed, at, s))
    && (forall s :: s in after ==>
          if Named(v, echoed, at, s) then Valued(v, echoed, at, s, after[s]) else s in before && after[s] == before[s])
  }

  /** Children already walked: the keys outside `todo`, the indices below `n`. */
  ghost predicate Walked(st: Step, todo: set<string>, n: nat) { if st.Key? then st.key !in todo else st.i < n }

  ghost predicate NamedSome(v: Json, echoed: Json, at: Path, todo: set<string>, n: nat, s: string) {
    exists p :: NamedBy(v, echoed, at, p, s) && p != [] && Walked(p[0], todo, n)
  }

  ghost predicate ValuedSome(v: Json, echoed: Json, at: Path, todo: set<string>, n: nat, s: string, x: Json) {
    exists p :: NamedBy(v, echoed, at, p, s) && p != [] && Walked(p[0], todo, n) && Lookup(v, p) == Some(x)
  }

  ghost predicate AddsSome(before: map<string, Json>, after: map<string, Json>, v: Json, echoed: Json, at: Path,
                           todo: set<string>, n: nat) {
    && (forall s :: s in after <==> s in before || NamedSome(v, echoed, at, todo, n, s))
    && (forall s :: s in after ==>
          if NamedSome(v, echoed, at, todo, n, s) then ValuedSome(v, echoed, at, todo, n, s, after[s])
          else s in before && after[s] == before[s])
  }

  ghost predicate Walkable(v: Json, echoed: Json) { !v.Scalar() && !(v.Arr? && ReorderedOnly(v.items, echoed)) }

  /** A leaf of a child is a leaf of the value, one step down, and prints alike. */
  lemma NamedDown(v: Json, echoed: Json, at: Path, st: Step, q: Path, s: string)
    requires Walkable(v, echoed) && Child(v, st).Some?
    ensures NamedBy(Child(v, st).value, Beside(echoed, st), at + [st], q, s) <==> NamedBy(v, echoed, at, [st] + q, s)
    ensures Lookup(v, [st] + q) == Lookup(Child(v, st).value, q)
  {
    assert ([st] + q)[0] == st && ([st] + q)[1..] == q;
    assert at + ([st] + q) == (at + [st]) + q;
  }

  /** Names of the children walked so far, and of one more. */
  lemma OneMoreName(v: Json, echoed: Json, at: Path, st: Step, todo: set<string>, todo': set<string>, n: nat, n': nat,
                    s: string)
    requires Walkable(v, echoed) && Child(v, st).Some?
    requires forall u: Step :: Walked(u, todo', n') <==> Walked(u, todo, n) || u == st
    ensures NamedSome(v, echoed, at, todo', n', s) <==>
            NamedSome(v, echoed, at, todo, n, s) || Named(Child(v, st).value, Beside(echoed, st), at + [st], s)
  {
    var c, e := Child(v, st).value, Beside(echoed, st);
    if NamedSome(v, echoed, at, todo', n', s) {
      var p :| NamedBy(v, echoed, at, p, s) && p != [] && Walked(p[0], todo', n');
      if p[0] == st {
        assert p == [st] + p[1..];
        NamedDown(v, echoed, at, st, p[1..], s);
      }
    }
    if Named(c, e, at + [st], s) {
      var q :| NamedBy(c, e, at + [st], q, s);
      NamedDown(v, echoed, at, st, q, s);
      assert ([st] + q)[0] == st;
    }
  }

  lemma OneMoreValue(v: Json, echoed: Json, at: Path, st: Step, todo: set<string>, todo': set<string>, n: nat, n': nat,
                     s: string, x: Json)
    requires Walkable(v, echoed) && Child(v, st).Some?
    requires forall u: Step :: Walked(u, todo', n') <==> Walked(u, todo, n) || u == st
    requires ValuedSome(v, echoed, at, todo, n, s, x) || Valued(Child(v, st).value, Beside(echoed, st), at + [st], s, x)
    ensures ValuedSome(v, echoed, at, todo', n', s, x)
  {
    var c, e := Child(v, st).value, Beside(echoed, st);
    if ValuedSome(v, echoed, at, todo, n, s, x) {
      var p :| NamedBy(v, echoed, at, p, s) && p != [] && Walked(p[0], todo, n) && Lookup(v, p) == Some(x);
      assert Walked(p[0], todo', n');
    } else {
      var q :| NamedBy(c, e, at + [st], q, s) && Lookup(c, q) == Some(x);
      NamedDown(v, echoed, at, st, q, s);
      assert ([st] + q)[0] == st;
    }
  }

  /** Walking one more child. */
  lemma AddsOne(before: map<string, Json>, mid: map<string, Json>, after: map<string, Json>, v: Json, echoed: Json,
                at: Path, st: Step, todo: set<string>, todo': set<string>, n: nat, n': nat)
    requires Walkable(v, echoed) && Child(v, st).Some?
    requires forall u: Step :: Walked(u, todo', n') <==> Walked(u, todo, n) || u == st
    requires AddsSome(before, mid, v, echoed, at, todo, n)
    requires Adds(mid, after, Child(v, st).value, Beside(echoed, st), at + [st])
    ensures AddsSome(before, after, v, echoed, at, todo', n')
  {
    var c, e := Child(v, st).value, Beside(echoed, st);
    forall s
      ensures NamedSome(v, echoed, at, todo', n', s) <==>
              NamedSome(v, echoed, at, todo, n, s) || Named(c, e, at + [st], s)
    {
      OneMoreName(v, echoed, at, st, todo, todo', n, n', s);
    }
    forall s | s in after && NamedSome(v, echoed, at, todo', n', s)
      ensures ValuedSome(v, echoed, at, todo', n', s, after[s])
    {
      OneMoreValue(v, echoed, at, st, todo, todo', n, n', s, after[s]);
    }
  }

  /** Before the first child, nothing is added. */
  lemma AddsNone(before: map<string, Json>, v: Json, echoed: Json, at: Path, todo: set<string>)
    requires Walkable(v, echoed) && (v.Obj? ==> todo == v.fields.Keys)
    ensures AddsSome(before, before, v, echoed, at, todo, 0)
  {
    forall p, s | NamedBy(v, echoed, at, p, s)
      ensures p != [] && !Walked(p[0], todo, 0)
    {
      assert p != [] && Child(v, p[0]).Some?;
    }
  }

  /** With no child left, the walk has added what lies below. */
  lemma AddsAll(before: map<string, Json>, after: map<string, Json>, v: Json, echoed: Json, at: Path, n: nat)
    requires Walkable(v, echoed) && (v.Arr? ==> n == |v.items|)
    requires AddsSome(before, after, v, echoed, at, {}, n)
    ensures Adds(before, after, v, echoed, at)
  {
    forall p, s | NamedBy(v, echoed, at, p, s)
      ensures p != [] && Walked(p[0], {}, n)
    {
      assert p != [] && Child(v, p[0]).Some?;
    }
    forall s
      ensures NamedSome(v, echoed, at, {}, n, s) <==> Named(v, echoed, at, s)
    {
    }
    forall s, x
      ensures ValuedSome(v, echoed, at, {}, n, s, x) <==> Valued(v, echoed, at, s, x)
    {
    }
  }

  /**
   collectLeaves: the scalars of `v`, under their printed paths.  Objects are walked
   in any order, so of two leaves that print alike either may stay.
   */
  method CollectLeaves(prefix: string, v: Json, echoed: Json, out0: map<string, Json>, ghost at: Path)
    returns (out: map<string, Json>)
    requires prefix == JoinPath(at)
    ensures Adds(out0, out, v, echoed, at)
    decreases v, 1
  {
    match v
    case Obj(_) => out := CollectFields(prefix, v, echoed, out0, at);
    case Arr(items) =>
      if ReorderedOnly(items, echoed) {
        return out0;
      }
      out := CollectItems(prefix, v, echoed, out0, at);
    case _ =>
      assert at + [] == at;
      out := if prefix != "" then out0[prefix := v] else out0;
      LeafAdds(out0, out, v, echoed, at);
  }

  lemma OneName(v: Json, echoed: Json, at: Path, s: string)
    requires v.Scalar()
    ensures Named(v, echoed, at, s) <==> s == JoinPath(at) && s != ""
    ensures Named(v, echoed, at, s) ==> Valued(v, echoed, at, s, v)
  {
    assert at + [] == at;
    if s == JoinPath(at) && s != "" {
      assert NamedBy(v, echoed, at, [], s) && Lookup(v, []) == Some(v);
    }
  }

  lemma LeafAdds(out0: map<string, Json>, out: map<string, Json>, v: Json, echoed: Json, at: Path)
    requires v.Scalar() && out == if JoinPath(at) != "" then out0[JoinPath(at) := v] else out0
    ensures Adds(out0, out, v, echoed, at)
  {
    forall s
      ensures Named(v, echoed, at, s) <==> s == JoinPath(at) && s != ""
      ensures Named(v, echoed, at, s) ==> Valued(v, echoed, at, s, v)
    {
      OneName(v, echoed, at, s);
    }
  }

  method CollectFields(prefix: string, v: Json, echoed: Json, out0: map<string, Json>, ghost at: Path)
    returns (out: map<string, Json>)
    requires prefix == JoinPath(at) && v.Obj?
    ensures Adds(out0, out, v, echoed, at)
    decreases v, 0
  {
    out := out0;
    var todo := v.fields.Keys;
    AddsNone(out0, v, echoed, at, todo);
    while todo != {}
      invariant todo <= v.fields.Keys
      invariant AddsSome(out0, out, v, echoed, at, todo, 0)
      decreases todo
    {
      var k :| k in todo;
      ghost var before := out;
      JoinSnoc(at, Key(k));
      var path := if prefix != "" then prefix + "." + k else k;
      out := CollectLeaves(path, v.fields[k], Beside(echoed, Key(k)), out, at + [Key(k)]);
      AddsOne(out0, before, out, v, echoed, at, Key(k), todo, todo - {k}, 0, 0);
      todo := todo - {k};
    }
    AddsAll(out0, out, v, echoed, at, 0);
  }

  method CollectItems(prefix: string, v: Json, echoed: Json, out0: map<string, Json>, ghost at: Path)
    returns (out: map<string, Json>)
    requires prefix == JoinPath(at) && v.Arr? && !ReorderedOnly(v.items, echoed)
    ensures Adds(out0, out, v, echoed, at)
    decreases v, 0
  {
    out := out0;
    AddsNone(out0, v, echoed, at, {});
    for i := 0 to |v.items|
      invariant AddsSome(out0, out, v, echoed, at, {}, i)
    {
      ghost var before := out;
      ItemPrints(prefix, at, i);
      out := CollectLeaves(prefix + Printed(i), v.items[i], Beside(echoed, Index(i)), out, at + [Index(i)]);
      AddsItem(out0, before, out, v, echoed, at, i);
    }
    AddsAll(out0, out, v, echoed, at, |v.items|);
  }

  lemma ItemPrints(prefix: string, at: Path, i: nat)
    requires prefix == JoinPath(at)
    ensures JoinPath(at + [Index(i)]) == prefix + Printed(i)
  {
    JoinSnoc(at, Index(i));
  }

  lemma AddsItem(before: map<string, Json>, mid: map<string, Json>, after: map<string, Json>, v: Json, echoed: Json,
                 at: Path, i: nat)
    requires v.Arr? && !ReorderedOnly(v.items, echoed) && i < |v.items|
    requires AddsSome(before, mid, v, echoed, at, {}, i)
    requires Adds(mid, after, v.items[i], Beside(echoed, Index(i)), at + [Index(i)])
    ensures AddsSome(before, after, v, echoed, at, {}, i + 1)
  {
    AddsOne(before, mid, after, v, echoed, at, Index(i), {}, {}, i, i + 1);
  }

  // ------------------------------------------------------------------
  // Values stored as text
  // ------------------------------------------------------------------

  predicate IsSpace(c: char) {
    c == ' ' || c == '\t' || c == '\n' || c == '\r' || c == '\U{B}' || c == '\U{C}' || c == '\U{85}' || c == '\U{A0}'
  }

  /** The first character behind leading white space is `open`. */
  predicate Opens(s: string, open: char) {
    s != "" && (s[0] == open || (IsSpace(s[0]) && Opens(s[1..], open)))
  }

  /** A non-empty object or list that came back as its JSON text. */
  predicate TextOf(v: Json, echoed: Json) {
    && echoed.Str?
    && ((v.Obj? && v.fields != map[] && Opens(echoed.s, '{')) || (v.Arr? && v.items != [] && Opens(echoed.s, '[')))
  }

  predicate TextAt(sent: Json, echoed: Json, q: Path) {
    Lookup(sent, q).Some? && TextOf(Lookup(sent, q).value, BesideAt(echoed, q))
  }

  lemma TextAtStep(v: Json, echoed: Json, p: Path)
    requires p != [] && Child(v, p[0]).Some?
    ensures TextAt(v, echoed, p) <==> TextAt(Child(v, p[0]).value, Beside(echoed, p[0]), p[1..])
  {
    if Child(echoed, p[0]).None? {
      assert Lookup(Null, p[1..]).None? || p[1..] == [];
    }
  }

  /** A container that came back as text, and its printed path. */
  ghost predicate TextBy(v: Json, echoed: Json, at: Path, p: Path, s: string) {
    TextAt(v, echoed, p) && JoinPath(at + p) == s && s != ""
  }

  ghost predicate TextNamed(v: Json, echoed: Json, at: Path, s: string) { exists p :: TextBy(v, echoed, at, p, s) }

  ghost predicate TextNamedSome(v: Json, echoed: Json, at: Path, todo: set<string>, n: nat, s: string) {
    exists p :: TextBy(v, echoed, at, p, s) && p != [] && Walked(p[0], todo, n)
  }

  lemma TextDown(v: Json, echoed: Json, at: Path, st: Step, q: Path, s: string)
    requires Child(v, st).Some?
    ensures TextBy(Child(v, st).value, Beside(echoed, st), at + [st], q, s) <==> TextBy(v, echoed, at, [st] + q, s)
  {
    assert ([st] + q)[0] == st && ([st] + q)[1..] == q;
    assert at + ([st] + q) == (at + [st]) + q;
    TextAtStep(v, echoed, [st] + q);
  }

  lemma OneMoreText(v: Json, echoed: Json, at: Path, st: Step, todo: set<string>, todo': set<string>, n: nat, n': nat,
                    s: string)
    requires Child(v, st).Some?
    requires forall u: Step :: Walked(u, todo', n') <==> Walked(u, todo, n) || u == st
    ensures TextNamedSome(v, echoed, at, todo', n', s) <==>
            TextNamedSome(v, echoed, at, todo, n, s) || TextNamed(Child(v, st).value, Beside(echoed, st), at + [st], s)
  {
    var c, e := Child(v, st).value, Beside(echoed, st);
    if TextNamedSome(v, echoed, at, todo', n', s) {
      var p :| TextBy(v, echoed, at, p, s) && p != [] && Walked(p[0], todo', n');
      if p[0] == st {
        assert p == [st] + p[1..];
        TextDown(v, echoed, at, st, p[1..], s);
      }
    }
    if TextNamed(c, e, at + [st], s) {
      var q :| TextBy(c, e, at + [st], q, s);
      TextDown(v, echoed, at, st, q, s);
      assert ([st] + q)[0] == st;
    }
  }

  /** Nothing below a value that came back as text came back as text. */
  lemma NoTextBelow(v: Json, echoed: Json, p: Path)
    requires echoed.Str? && p != []
    ensures !TextAt(v, echoed, p)
  {
    assert Child(echoed, p[0]).None?;
  }

  lemma TextHere(v: Json, echoed: Json, at: Path, s: string)
    requires TextOf(v, echoed) && JoinPath(at) != ""
    ensures TextNamed(v, echoed, at, s) <==> s == JoinPath(at)
  {
    assert at + [] == at && Lookup(v, []) == Some(v) && Lookup(echoed, []) == Some(echoed);
    assert TextBy(v, echoed, at, [], JoinPath(at));
    if TextNamed(v, echoed, at, s) {
      var p :| TextBy(v, echoed, at, p, s);
      assert p == [] by {
        if p != [] {
          NoTextBelow(v, echoed, p);
        }
      }
    }
  }

  lemma TextAll(v: Json, echoed: Json, at: Path, n: nat, s: string)
    requires (v.Arr? ==> n == |v.items|) && !(TextOf(v, echoed) && JoinPath(at) != "")
    ensures TextNamedSome(v, echoed, at, {}, n, s) <==> TextNamed(v, echoed, at, s)
  {
    if TextNamed(v, echoed, at, s) {
      var p :| TextBy(v, echoed, at, p, s);
      assert at + [] == at && Lookup(v, []) == Some(v) && Lookup(echoed, []) == Some(echoed);
      assert p != [];
      assert Child(v, p[0]).Some?;
    }
  }

  lemma TextNone(v: Json, echoed: Json, at: Path, todo: set<string>, s: string)
    requires v.Obj? ==> todo == v.fields.Keys
    ensures !TextNamedSome(v, echoed, at, todo, 0, s)
  {
    forall p | TextBy(v, echoed, at, p, s) && p != []
      ensures !Walked(p[0], todo, 0)
    {
      assert Child(v, p[0]).Some?;
    }
  }

  /** `out` adds to `out0` the names of the children walked. */
  ghost predicate TextsSome(out0: set<string>, out: set<string>, v: Json, echoed: Json, at: Path, todo: set<string>,
                            n: nat) {
    forall s :: s in out <==> s in out0 || TextNamedSome(v, echoed, at, todo, n, s)
  }

  ghost predicate Texts(out0: set<string>, out: set<string>, v: Json, echoed: Json, at: Path) {
    forall s :: s in out <==> s in out0 || TextNamed(v, echoed, at, s)
  }

  lemma TextsNone(out0: set<string>, v: Json, echoed: Json, at: Path, todo: set<string>)
    requires v.Obj? ==> todo == v.fields.Keys
    ensures TextsSome(out0, out0, v, echoed, at, todo, 0)
  {
    forall s
      ensures !TextNamedSome(v, echoed, at, todo, 0, s)
    {
      TextNone(v, echoed, at, todo, s);
    }
  }

  lemma TextsOne(out0: set<string>, mid: set<string>, out: set<string>, v: Json, echoed: Json, at: Path, st: Step,
                 todo: set<string>, todo': set<string>, n: nat, n': nat)
    requires Child(v, st).Some?
    requires forall u: Step :: Walked(u, todo', n') <==> Walked(u, todo, n) || u == st
    requires TextsSome(out0, mid, v, echoed, at, todo, n)
    requires Texts(mid, out, Child(v, st).value, Beside(echoed, st), at + [st])
    ensures TextsSome(out0, out, v, echoed, at, todo', n')
  {
    forall s
      ensures TextNamedSome(v, echoed, at, todo', n', s) <==>
              TextNamedSome(v, echoed, at, todo, n, s)
              || TextNamed(Child(v, st).value, Beside(echoed, st), at + [st], s)
    {
      OneMoreText(v, echoed, at, st, todo, todo', n, n', s);
    }
  }

  lemma TextsAll(out0: set<string>, out: set<string>, v: Json, echoed: Json, at: Path, n: nat)
    requires (v.Arr? ==> n == |v.items|) && !(TextOf(v, echoed) && JoinPath(at) != "")
    requires TextsSome(out0, out, v, echoed, at, {}, n)
    ensures Texts(out0, out, v, echoed, at)
  {
    forall s
      ensures TextNamedSome(v, echoed, at, {}, n, s) <==> TextNamed(v, echoed, at, s)
    {
      TextAll(v, echoed, at, n, s);
    }
  }

  /** stringifiedPaths. */
  method StringifiedPaths(prefix: string, v: Json, echoed: Json, out0: set<string>,
                          ghost at: Path)
    returns (out: set<string>)
    requires prefix == JoinPath(at)
    ensures Texts(out0, out, v, echoed, at)
    decreases v, 1
  {
    if prefix != "" && TextOf(v, echoed) {
      forall s
        ensures TextNamed(v, echoed, at, s) <==> s == prefix
      {
        TextHere(v, echoed, at, s);
      }
      return out0 + {prefix};
    }
    if v.Obj? {
      out := StringifiedFields(prefix, v, echoed, out0, at);
    } else if v.Arr? {
      out := StringifiedItems(prefix, v, echoed, out0, at);
    } else {
      out := out0;
      TextsNone(out0, v, echoed, at, {});
      TextsAll(out0, out, v, echoed, at, 0);
    }
  }

  method StringifiedFields(prefix: string, v: Json, echoed: Json, out0: set<string>,
                           ghost at: Path)
    returns (out: set<string>)
    requires prefix == JoinPath(at) && v.Obj? && !(prefix != "" && TextOf(v, echoed))
    ensures Texts(out0, out, v, echoed, at)
    decreases v, 0
  {
    out := out0;
    var todo := v.fields.Keys;
    TextsNone(out0, v, echoed, at, todo);
    while todo != {}
      invariant todo <= v.fields.Keys
      invariant TextsSome(out0, out, v, echoed, at, todo, 0)
      decreases todo
    {
      var k :| k in todo;
      ghost var before := out;
      JoinSnoc(at, Key(k));
      var path := if prefix != "" then prefix + "." + k else k;
      out := StringifiedPaths(path, v.fields[k], Beside(echoed, Key(k)), out, at + [Key(k)]);
      TextsOne(out0, before, out, v, echoed, at, Key(k), todo, todo - {k}, 0, 0);
      todo := todo - {k};
    }
    TextsAll(out0, out, v, echoed, at, 0);
  }

  method StringifiedItems(prefix: string, v: Json, echoed: Json, out0: set<string>,
                          ghost at: Path)
    returns (out: set<string>)
    requires prefix == JoinPath(at) && v.Arr? && !(prefix != "" && TextOf(v, echoed))
    ensures Texts(out0, out, v, echoed, at)
    decreases v, 0
  {
    out := out0;
    TextsNone(out0, v, echoed, at, {});
    for i := 0 to |v.items|
      invariant TextsSome(out0, out, v, echoed, at, {}, i)
    {
      ghost var before := out;
      ItemPrints(prefix, at, i);
      out := StringifiedPaths(prefix + Printed(i), v.items[i], Beside(echoed, Index(i)), out, at + [Index(i)]);
      TextsOne(out0, before, out, v, echoed, at, Index(i), {}, {}, i, i + 1);
    }
    TextsAll(out0, out, v, echoed, at, |v.items|);
  }

  // ------------------------------------------------------------------
  // The skip list
  // ------------------------------------------------------------------

  /**
   `unlearned` are the schema's root fields whose `localized` was never learned
   (none without a schema); `ignore` is the profile's list, trimmed.
   */
  datatype EchoConfig = EchoConfig(disabled: bool, localeAll: bool, unlearned: set<string>, ignore: seq<string>)

  function UpTo(s: string, c: char): string {
    match CutAt(s, c)
    case NoCut => s
    case Cut(a, _) => a
  }

  function RootOf(path: string): string { UpTo(UpTo(path, '['), '.') }

  /** localeMappedRoots: a scalar or list was sent and an object came back. */
  predicate LocaleMapped(cfg: EchoConfig, sent: Json, echoed: Json, root: string) {
    && root in cfg.unlearned
    && sent.Obj? && root in sent.fields && !sent.fields[root].Obj?
    && echoed.Obj? && root in echoed.fields && echoed.fields[root].Obj?
  }

  /** skipEchoPath. */
  predicate Skip(cfg: EchoConfig, sent: Json, echoed: Json, path: string) {
    || path == "id" || path == "createdAt" || path == "updatedAt" || path == "_status"
    || (|path| >= 3 && path[|path| - 3..] == ".id" && !Without(path, '['))
    || (exists i :: 0 <= i < |cfg.ignore| && cfg.ignore[i] != "" && AtOrBelow(path, cfg.ignore[i]))
    || LocaleMapped(cfg, sent, echoed, RootOf(path))
  }

  // ------------------------------------------------------------------
  // Classes of leaves, and the report
  // ------------------------------------------------------------------

  datatype Class = Reordered | Skipped | UnderText | Dropped | Equal | Normalized

  /** Below a value reported as stored text. */
  ghost predicate Under(skip: string -> bool, sent: Json, doc: Json, p: Path) {
    exists n :: 0 < n <= |p| && TextReported(skip, sent, doc, p[..n])
  }

  predicate TextReported(skip: string -> bool, sent: Json, doc: Json, q: Path) {
    q != [] && TextAt(sent, doc, q) && !skip(JoinPath(q))
  }

  /** The one class of a scalar leaf; `skip` is the skip list, asked of the printed path. */
  ghost function ClassOf(skip: string -> bool, sent: Json, doc: Json, p: Path): Class {
    if InReordered(sent, doc, p) then Reordered
    else if skip(JoinPath(p)) then Skipped
    else if Under(skip, sent, doc, p) then UnderText
    else if Lookup(doc, p).None? then Dropped
    else if Lookup(doc, p) == Lookup(sent, p) then Equal
    else Normalized
  }

  /** Paths are the printed ones. */
  datatype Report = Report(
    stored: set<string>,
    droppedPaths: set<string>,
    dropped: map<string, Json>,
    normalized: map<string, Json>,
    returned: map<string, Json>)

  const SILENT := Report({}, {}, map[], map[], map[])

  // ------------------------------------------------------------------
  // echoDiff
  // ------------------------------------------------------------------

  function ReadBack(doc: Json, path: string): Option<Json> { Lookup(doc, SplitPath(path)) }

  /** underString: the printed path lies at or below a stored one. */
  predicate UnderStored(path: string, stored: set<string>) { exists s :: s in stored && AtOrBelow(path, s) }

  predicate Exempt(skip: string -> bool, stored: set<string>, path: string) { skip(path) || UnderStored(path, stored) }

  /** What is said about one collected leaf. */
  datatype Verdict = Quiet | Lost(missing: string) | Changed(got: Json)

  function VerdictOf(skip: string -> bool, stored: set<string>, doc: Json, path: string, value: Json): Verdict {
    if Exempt(skip, stored, path) then Quiet else
      match ReadBack(doc, path)
      case None => Lost(FirstMissingName(doc, path))
      case Some(got) => if got == value then Quiet else Changed(got)
  }

  /** The report, given the verdict on every leaf. */
  function Judged(leaves: map<string, Json>, stored: set<string>, verdict: (string, Json) -> Verdict): Report {
    Report(stored,
           set s | s in leaves && verdict(s, leaves[s]).Lost? :: verdict(s, leaves[s]).missing,
           map s | s in leaves && verdict(s, leaves[s]).Lost? :: leaves[s],
           map s | s in leaves && verdict(s, leaves[s]).Changed? :: leaves[s],
           map s | s in leaves && verdict(s, leaves[s]).Changed? :: verdict(s, leaves[s]).got)
  }

  /** Whether and how one leaf is reported. */
  method Judge(skip: string -> bool, stored: set<string>, doc: Json, path: string, value: Json) returns (v: Verdict)
    ensures v == VerdictOf(skip, stored, doc, path, value)
  {
    if skip(path) || UnderStored(path, stored) {
      return Quiet;
    }
    var got := LookupPath(doc, path);
    if got.None? {
      var missing := FirstMissingPrefix(doc, path);
      return Lost(missing);
    }
    v := if got.value == value then Quiet else Changed(got.value);
  }

  function Noted(r: Report, path: string, value: Json, v: Verdict): Report {
    match v
    case Quiet => r
    case Lost(missing) => r.(dropped := r.dropped[path := value], droppedPaths := r.droppedPaths + {missing})
    case Changed(got) => r.(normalized := r.normalized[path := value], returned := r.returned[path := got])
  }

  lemma JudgedOneMore(done: map<string, Json>, stored: set<string>, verdict: (string, Json) -> Verdict, path: string,
                      value: Json)
    requires path !in done
    ensures Judged(done[path := value], stored, verdict) ==
            Noted(Judged(done, stored, verdict), path, value, verdict(path, value))
  {
    PrefixesOneMore(done, stored, verdict, path, value);
    ListsOneMore(done, stored, verdict, path, value);
  }

  lemma ListsOneMore(done: map<string, Json>, stored: set<string>, verdict: (string, Json) -> Verdict, path: string,
                     value: Json)
    requires path !in done
    ensures var a, b := Judged(done, stored, verdict), Judged(done[path := value], stored, verdict);
            var v := verdict(path, value);
            && b.dropped == (if v.Lost? then a.dropped[path := value] else a.dropped)
            && b.normalized == (if v.Changed? then a.normalized[path := value] else a.normalized)
            && b.returned == (if v.Changed? then a.returned[path := v.got] else a.returned)
  {
  }

  lemma PrefixesOneMore(done: map<string, Json>, stored: set<string>, verdict: (string, Json) -> Verdict, path: string,
                        value: Json)
    requires path !in done
    ensures Judged(done[path := value], stored, verdict).droppedPaths ==
            Judged(done, stored, verdict).droppedPaths
            + if verdict(path, value).Lost? then {verdict(path, value).missing} else {}
  {
    var more := done[path := value];
    forall m | m in Judged(done, stored, verdict).droppedPaths
      ensures m in Judged(more, stored, verdict).droppedPaths
    {
      var s :| s in done && verdict(s, done[s]).Lost? && m == verdict(s, done[s]).missing;
      assert s in more && verdict(s, more[s]).Lost?;
    }
    if verdict(path, value).Lost? {
      assert path in more && verdict(path, more[path]).Lost?;
    }
  }

  function Verdicts(skip: string -> bool, stored: set<string>, doc: Json): (string, Json) -> Verdict {
    (path, value) => VerdictOf(skip, stored, doc, path, value)
  }

  ghost predicate TextsStored(skip: string -> bool, sent: Json, doc: Json, stored: set<string>) {
    forall s :: s in stored <==> TextNamed(sent, doc, [], s) && !skip(s)
  }

  /** What a report is about: the collected leaves, each under its printed path, and the values stored as text. */
  ghost predicate Reports(skip: string -> bool, sent: Json, doc: Json, r: Report) {
    && TextsStored(skip, sent, doc, r.stored)
    && exists leaves ::
         Adds(map[], leaves, sent, doc, []) && r == Judged(leaves, r.stored, Verdicts(skip, r.stored, doc))
  }

  /** The report, for a given skip list. */
  method Reported(skip: string -> bool, sent: Json, doc: Json) returns (r: Report)
    ensures Reports(skip, sent, doc, r)
  {
    var leaves := CollectLeaves("", sent, doc, map[], []);
    var stored := StoredAsText(skip, sent, doc);
    r := JudgeAll(skip, stored, doc, leaves);
  }

  method StoredAsText(skip: string -> bool, sent: Json, doc: Json) returns (stored: set<string>)
    ensures TextsStored(skip, sent, doc, stored)
  {
    var texts := StringifiedPaths("", sent, doc, {}, []);
    stored := set s | s in texts && !skip(s);
  }

  /** The loop over the collected leaves, in any order. */
  method JudgeAll(skip: string -> bool, stored: set<string>, doc: Json, leaves: map<string, Json>) returns (r: Report)
    ensures r == Judged(leaves, stored, Verdicts(skip, stored, doc))
  {
    r := SILENT.(stored := stored);
    var todo := leaves.Keys;
    ghost var verdict := Verdicts(skip, stored, doc);
    NothingJudged(stored, verdict);
    ghost var done: map<string, Json> := map[];
    while todo != {}
      invariant todo <= leaves.Keys && done == leaves - todo
      invariant r == Judged(done, stored, verdict)
      decreases todo
    {
      var s :| s in todo;
      var v := Judge(skip, stored, doc, s, leaves[s]);
      JudgedOneMore(done, stored, verdict, s, leaves[s]);
      r := Noted(r, s, leaves[s], v);
      done := done[s := leaves[s]];
      todo := todo - {s};
    }
    assert done == leaves;
  }

  lemma NothingJudged(stored: set<string>, verdict: (string, Json) -> Verdict)
    ensures Judged(map[], stored, verdict) == SILENT.(stored := stored)
  {
  }

  /**
   echoDiff.  What the report means, leaf by leaf, is CleanReport below; this holds
   for every body.
   */
  method EchoDiff(cfg: EchoConfig, sent: Json, doc: Option<Json>) returns (r: Report)
    requires sent.Obj?
    ensures cfg.disabled || cfg.localeAll || sent.fields == map[] || doc.None? ==> r == SILENT
    ensures !(cfg.disabled || cfg.localeAll || sent.fields == map[] || doc.None?) ==>
              Reports(path => Skip(cfg, sent, doc.value, path), sent, doc.value, r)
  {
    if cfg.disabled || cfg.localeAll || sent.fields == map[] || doc.None? {
      return SILENT;
    }
    var skip := (path: string) => Skip(cfg, sent, doc.value, path);
    r := Reported(skip, sent, doc.value);
  }

  // ------------------------------------------------------------------
  // Every leaf is accounted for
  // ------------------------------------------------------------------

  /** The report says of every leaf which class it is in, what was sent and what came back. */
  ghost predicate AccountsFor(skip: string -> bool, sent: Json, doc: Json, r: Report, p: Path)
    requires ScalarLeaf(sent, p)
  {
    SaysOf(r, JoinPath(p), Lookup(sent, p).value, ClassOf(skip, sent, doc, p), doc, p)
  }

  ghost predicate SaysOf(r: Report, s: string, value: Json, c: Class, doc: Json, p: Path) {
    && (s in r.dropped <==> c.Dropped?) && (s in r.normalized <==> c.Normalized?)
    && (c.Dropped? ==> r.dropped[s] == value && JoinPath(FirstMissing(doc, p)) in r.droppedPaths)
    && (c.Normalized? ==> r.normalized[s] == value && s in r.returned && Some(r.returned[s]) == Lookup(doc, p))
  }

  /** The report lists the classes of the leaves and nothing else. */
  ghost predicate Accounts(skip: string -> bool, sent: Json, doc: Json, r: Report) {
    && (forall s :: s in r.stored <==> exists q :: TextReported(skip, sent, doc, q) && JoinPath(q) == s)
    && (forall p :: ScalarLeaf(sent, p) ==> AccountsFor(skip, sent, doc, r, p))
    && (forall s :: s in r.dropped || s in r.normalized ==> LeafName(sent, s))
    && r.returned.Keys == r.normalized.Keys
    && (forall m :: m in r.droppedPaths ==> MissingName(skip, sent, doc, m))
  }

  ghost predicate LeafName(sent: Json, s: string) { exists p :: ScalarLeaf(sent, p) && JoinPath(p) == s }

  ghost predicate MissingName(skip: string -> bool, sent: Json, doc: Json, m: string) {
    exists p :: ScalarLeaf(sent, p) && ClassOf(skip, sent, doc, p).Dropped? && m == JoinPath(FirstMissing(doc, p))
  }

  /** A leaf of a clean body is collected under a path of its own, with its own value. */
  lemma CleanLeaf(sent: Json, doc: Json, leaves: map<string, Json>, p: Path)
    requires CleanBody(sent) && Adds(map[], leaves, sent, doc, []) && ScalarLeaf(sent, p)
    ensures JoinPath(p) in leaves <==> !InReordered(sent, doc, p)
    ensures JoinPath(p) in leaves ==> Lookup(sent, p) == Some(leaves[JoinPath(p)])
  {
    var s := JoinPath(p);
    CleanName(sent, p);
    VisitedExact(sent, doc, p);
    assert [] + p == p;
    if s in leaves {
      var q := CollectedIsLeaf(sent, doc, leaves, s);
    } else {
      assert !NamedBy(sent, doc, [], p, s);
    }
  }

  /** What is collected is a leaf. */
  lemma CollectedIsLeaf(sent: Json, doc: Json, leaves: map<string, Json>, s: string) returns (p: Path)
    requires CleanBody(sent) && Adds(map[], leaves, sent, doc, []) && s in leaves
    ensures ScalarLeaf(sent, p) && JoinPath(p) == s && SplitPath(s) == p && !InReordered(sent, doc, p)
    ensures Lookup(sent, p) == Some(leaves[s])
  {
    p :| NamedBy(sent, doc, [], p, s) && Lookup(sent, p) == Some(leaves[s]);
    assert [] + p == p;
    VisitedExact(sent, doc, p);
    CleanName(sent, p);
    assert p != [] by {
      assert JoinPath([]) == "";
    }
  }

  /** In a clean body a path and its print determine each other. */
  lemma CleanName(sent: Json, p: Path)
    requires CleanBody(sent) && Lookup(sent, p).Some?
    ensures Clean(p) && SplitPath(JoinPath(p)) == p && (JoinPath(p) == "" <==> p == [])
  {
    CleanPath(sent, p);
    JoinReads(p);
  }

  ghost predicate StoredExactly(skip: string -> bool, sent: Json, doc: Json, stored: set<string>) {
    forall s :: s in stored <==> exists q :: TextReported(skip, sent, doc, q) && JoinPath(q) == s
  }

  lemma CleanText(skip: string -> bool, sent: Json, doc: Json, q: Path)
    requires CleanBody(sent)
    ensures TextReported(skip, sent, doc, q) <==> TextBy(sent, doc, [], q, JoinPath(q)) && !skip(JoinPath(q))
  {
    assert [] + q == q;
    if Lookup(sent, q).Some? {
      CleanName(sent, q);
    }
  }

  lemma CleanTexts(skip: string -> bool, sent: Json, doc: Json, stored: set<string>)
    requires CleanBody(sent) && TextsStored(skip, sent, doc, stored)
    ensures StoredExactly(skip, sent, doc, stored)
  {
    forall s
      ensures s in stored <==> exists q :: TextReported(skip, sent, doc, q) && JoinPath(q) == s
    {
      if s in stored {
        var q :| TextBy(sent, doc, [], q, s);
        assert [] + q == q;
        CleanText(skip, sent, doc, q);
      }
      if q :| TextReported(skip, sent, doc, q) && JoinPath(q) == s {
        CleanText(skip, sent, doc, q);
        assert TextNamed(sent, doc, [], s);
      }
    }
  }

  /** Asked of printed paths, underString is the question about prefixes. */
  lemma UnderPrinted(skip: string -> bool, sent: Json, doc: Json, p: Path, stored: set<string>)
    requires CleanBody(sent) && Lookup(sent, p).Some? && StoredExactly(skip, sent, doc, stored)
    ensures UnderStored(JoinPath(p), stored) <==> Under(skip, sent, doc, p)
  {
    if UnderStored(JoinPath(p), stored) {
      var s :| s in stored && AtOrBelow(JoinPath(p), s);
      var q :| TextReported(skip, sent, doc, q) && JoinPath(q) == s;
      UnderOne(skip, sent, doc, p, q);
    }
    if Under(skip, sent, doc, p) {
      var n :| 0 < n <= |p| && TextReported(skip, sent, doc, p[..n]);
      PrefixPrinted(sent, p, p[..n]);
      assert JoinPath(p[..n]) in stored;
    }
  }

  lemma UnderOne(skip: string -> bool, sent: Json, doc: Json, p: Path, q: Path)
    requires CleanBody(sent) && Lookup(sent, p).Some? && TextReported(skip, sent, doc, q)
    requires AtOrBelow(JoinPath(p), JoinPath(q))
    ensures Under(skip, sent, doc, p)
  {
    PrefixPrinted(sent, p, q);
    assert p[..|q|] == q;
  }

  lemma PrefixPrinted(sent: Json, p: Path, q: Path)
    requires CleanBody(sent) && Lookup(sent, p).Some? && Lookup(sent, q).Some? && q != []
    ensures AtOrBelow(JoinPath(p), JoinPath(q)) <==> q <= p
  {
    CleanPath(sent, p);
    CleanPath(sent, q);
    AtOrBelowIsPrefix(p, q);
  }

  /** The verdict on a leaf of a clean body is its class. */
  ghost predicate VerdictFits(v: Verdict, c: Class, doc: Json, p: Path) {
    && (v.Lost? <==> c.Dropped?) && (v.Changed? <==> c.Normalized?)
    && (v.Lost? ==> v.missing == JoinPath(FirstMissing(doc, p)))
    && (v.Changed? ==> Some(v.got) == Lookup(doc, p))
  }

  lemma LeafVerdict(skip: string -> bool, sent: Json, doc: Json, stored: set<string>, p: Path)
    requires CleanBody(sent) && ScalarLeaf(sent, p) && StoredExactly(skip, sent, doc, stored) &&
             !InReordered(sent, doc, p)
    ensures VerdictFits(VerdictOf(skip, stored, doc, JoinPath(p), Lookup(sent, p).value),
                        ClassOf(skip, sent, doc, p), doc, p)
  {
    CleanName(sent, p);
    UnderPrinted(skip, sent, doc, p, stored);
    FirstMissingClean(doc, p);
    VerdictGiven(skip, stored, doc, JoinPath(p), Lookup(sent, p).value, ClassOf(skip, sent, doc, p), p);
  }

  /** The verdict, given what the printed path reads as and whether it is exempt. */
  lemma VerdictGiven(skip: string -> bool, stored: set<string>, doc: Json, s: string, value: Json, c: Class, p: Path)
    requires ReadBack(doc, s) == Lookup(doc, p)
    requires Lookup(doc, p).None? ==> FirstMissingName(doc, s) == JoinPath(FirstMissing(doc, p))
    requires c == if skip(s) then Skipped else if UnderStored(s, stored) then UnderText
                  else if Lookup(doc, p).None? then Dropped
                  else if Lookup(doc, p) == Some(value) then Equal else Normalized
    ensures VerdictFits(VerdictOf(skip, stored, doc, s, value), c, doc, p)
  {
  }

  lemma LeafAccounted(skip: string -> bool, sent: Json, doc: Json, r: Report, leaves: map<string, Json>, p: Path)
    requires CleanBody(sent) && ScalarLeaf(sent, p) && Adds(map[], leaves, sent, doc, [])
    requires StoredExactly(skip, sent, doc, r.stored) && r == Judged(leaves, r.stored, Verdicts(skip, r.stored, doc))
    ensures AccountsFor(skip, sent, doc, r, p)
  {
    CleanLeaf(sent, doc, leaves, p);
    var s := JoinPath(p);
    if InReordered(sent, doc, p) {
      NotCollected(r, leaves, Verdicts(skip, r.stored, doc), s, Lookup(sent, p).value, doc, p);
    } else {
      LeafVerdict(skip, sent, doc, r.stored, p);
      NotedFits(r, leaves, Verdicts(skip, r.stored, doc), s, ClassOf(skip, sent, doc, p), doc, p);
    }
  }

  lemma NotCollected(r: Report, leaves: map<string, Json>, verdict: (string, Json) -> Verdict, s: string, value: Json,
                     doc: Json, p: Path)
    requires r == Judged(leaves, r.stored, verdict) && s !in leaves
    ensures SaysOf(r, s, value, Reordered, doc, p)
  {
  }

  lemma NotedFits(r: Report, leaves: map<string, Json>, verdict: (string, Json) -> Verdict, s: string, c: Class,
                  doc: Json, p: Path)
    requires r == Judged(leaves, r.stored, verdict) && s in leaves && VerdictFits(verdict(s, leaves[s]), c, doc, p)
    ensures SaysOf(r, s, leaves[s], c, doc, p)
  {
  }

  /**
   The accounting.  In a body whose names print cleanly every scalar leaf falls in
   exactly one class, the report lists exactly the leaves of the two classes worth
   a warning, each with what was sent and what came back, the shortest missing
   prefix of every dropped one, and the values that were stored as text.
   */
  lemma CleanReport(skip: string -> bool, sent: Json, doc: Json, r: Report)
    requires CleanBody(sent) && Reports(skip, sent, doc, r)
    ensures Accounts(skip, sent, doc, r)
  {
    var leaves :| Adds(map[], leaves, sent, doc, []) && r == Judged(leaves, r.stored, Verdicts(skip, r.stored, doc));
    CleanTexts(skip, sent, doc, r.stored);
    forall p | ScalarLeaf(sent, p)
      ensures AccountsFor(skip, sent, doc, r, p)
    {
      LeafAccounted(skip, sent, doc, r, leaves, p);
    }
    forall s | s in r.dropped || s in r.normalized
      ensures LeafName(sent, s)
    {
      var p := CollectedIsLeaf(sent, doc, leaves, s);
    }
    forall m | m in r.droppedPaths
      ensures MissingName(skip, sent, doc, m)
    {
      DroppedPrefix(skip, sent, doc, r, leaves, m);
    }
  }

  lemma DroppedPrefix(skip: string -> bool, sent: Json, doc: Json, r: Report, leaves: map<string, Json>, m: string)
    requires CleanBody(sent) && Adds(map[], leaves, sent, doc, []) && StoredExactly(skip, sent, doc, r.stored)
    requires r == Judged(leaves, r.stored, Verdicts(skip, r.stored, doc)) && m in r.droppedPaths
    ensures MissingName(skip, sent, doc, m)
  {
    var verdict := Verdicts(skip, r.stored, doc);
    var s :| s in leaves && verdict(s, leaves[s]).Lost? && m == verdict(s, leaves[s]).missing;
    var p := CollectedIsLeaf(sent, doc, leaves, s);
    CleanLeaf(sent, doc, leaves, p);
    LeafVerdict(skip, sent, doc, r.stored, p);
  }

  // ------------------------------------------------------------------
  // What a silent report means
  // ------------------------------------------------------------------

  /** Inside a list that came back with the same items, counted, in any order. */
  ghost predicate InPermuted(sent: Json, doc: Json, p: Path) {
    exists n :: 0 <= n < |p| && PermutedAt(sent, doc, p[..n])
  }

  predicate PermutedAt(sent: Json, doc: Json, q: Path) {
    && Lookup(sent, q).Some? && Lookup(sent, q).value.Arr? && Lookup(doc, q).Some? && Lookup(doc, q).value.Arr?
    && multiset(Lookup(doc, q).value.items) == multiset(Lookup(sent, q).value.items)
  }

  lemma ReorderedIff(sent: Json, doc: Json, p: Path)
    requires Lookup(sent, p).Some?
    ensures InReordered(sent, doc, p) <==> InPermuted(sent, doc, p)
  {
    forall n | 0 <= n < |p|
      ensures ReorderedAt(sent, doc, p[..n]) <==> PermutedAt(sent, doc, p[..n])
    {
      OnTheWay(sent, p, n);
      ReorderedAtIff(sent, doc, p[..n], p[n]);
    }
  }

  lemma OnTheWay(sent: Json, p: Path, n: nat)
    requires Lookup(sent, p).Some? && n < |p|
    ensures Lookup(sent, p[..n]).Some? && Child(Lookup(sent, p[..n]).value, p[n]).Some?
  {
    assert p[..n + 1] == p[..n] + [p[n]];
    LookupPrefix(sent, p, n + 1);
    LookupSnoc(sent, p[..n], p[n]);
  }

  lemma ReorderedAtIff(sent: Json, doc: Json, q: Path, st: Step)
    requires Lookup(sent, q).Some? && Child(Lookup(sent, q).value, st).Some?
    ensures ReorderedAt(sent, doc, q) <==> PermutedAt(sent, doc, q)
  {
  }

  /** No warning: every scalar sent is in the echo, or in a list that was at most permuted, or exempt by rule. */
  lemma SilentMeansStored(skip: string -> bool, sent: Json, doc: Json, r: Report, p: Path)
    requires CleanBody(sent) && Reports(skip, sent, doc, r) && r == SILENT && ScalarLeaf(sent, p)
    ensures Lookup(doc, p) == Lookup(sent, p)
            || InPermuted(sent, doc, p)
            || skip(JoinPath(p))
  {
    ReorderedIff(sent, doc, p);
    CleanReport(skip, sent, doc, r);
    forall q
      ensures !TextReported(skip, sent, doc, q)
    {
      assert JoinPath(q) !in r.stored;
    }
    assert AccountsFor(skip, sent, doc, r, p);
    NothingUnder(skip, sent, doc, p);
  }

  /** And a list that was permuted is never reported, wherever it is. */
  lemma PermutedIsQuiet(skip: string -> bool, sent: Json, doc: Json, r: Report, p: Path)
    requires CleanBody(sent) && Reports(skip, sent, doc, r) && ScalarLeaf(sent, p) && InPermuted(sent, doc, p)
    ensures JoinPath(p) !in r.dropped && JoinPath(p) !in r.normalized
  {
    ReorderedIff(sent, doc, p);
    CleanReport(skip, sent, doc, r);
    assert AccountsFor(skip, sent, doc, r, p);
  }

  lemma NothingUnder(skip: string -> bool, sent: Json, doc: Json, p: Path)
    requires forall q :: !TextReported(skip, sent, doc, q)
    ensures !Under(skip, sent, doc, p)
  {
  }

  /** An echo that only adds keys yields no warning at all. */
  lemma AddedKeysAreSilent(skip: string -> bool, sent: Json, doc: Json, r: Report)
    requires CleanBody(sent) && PartOf(sent, doc) && Reports(skip, sent, doc, r)
    ensures r == SILENT
  {
    CleanReport(skip, sent, doc, r);
    NoText(skip, sent, doc, r.stored);
    NoLoss(skip, sent, doc, r);
    assert r.returned.Keys == {};
    assert r.droppedPaths == {};
  }

  lemma LeafKept(skip: string -> bool, sent: Json, doc: Json, p: Path)
    requires PartOf(sent, doc) && ScalarLeaf(sent, p)
    ensures !ClassOf(skip, sent, doc, p).Dropped? && !ClassOf(skip, sent, doc, p).Normalized?
  {
    PartAt(sent, doc, p);
  }

  lemma NoLoss(skip: string -> bool, sent: Json, doc: Json, r: Report)
    requires PartOf(sent, doc) && Accounts(skip, sent, doc, r)
    ensures r.dropped == map[] && r.normalized == map[] && r.droppedPaths == {}
  {
    forall p | ScalarLeaf(sent, p)
      ensures !ClassOf(skip, sent, doc, p).Dropped? && !ClassOf(skip, sent, doc, p).Normalized?
      ensures JoinPath(p) !in r.dropped && JoinPath(p) !in r.normalized
    {
      LeafKept(skip, sent, doc, p);
      assert AccountsFor(skip, sent, doc, r, p);
    }
    forall s
      ensures s !in r.dropped && s !in r.normalized && s !in r.droppedPaths
    {
      assert !LeafName(sent, s) ==> s !in r.dropped && s !in r.normalized;
    }
  }

  /** Nothing came back as text. */
  ghost predicate Textless(sent: Json, doc: Json) { forall q :: !TextAt(sent, doc, q) }

  lemma NoText(skip: string -> bool, sent: Json, doc: Json, stored: set<string>)
    requires PartOf(sent, doc)
    ensures Textless(sent, doc) && (TextsStored(skip, sent, doc, stored) <==> stored == {})
  {
    forall q | Lookup(sent, q).Some?
      ensures !TextAt(sent, doc, q)
    {
      PartAt(sent, doc, q);
    }
    NoneStored(skip, sent, doc, stored);
  }

  lemma NoneStored(skip: string -> bool, sent: Json, doc: Json, stored: set<string>)
    requires Textless(sent, doc)
    ensures TextsStored(skip, sent, doc, stored) <==> stored == {}
  {
    assert forall s :: !TextNamed(sent, doc, [], s);
  }

  // ------------------------------------------------------------------
  // When a kept value is reported all the same
  // ------------------------------------------------------------------

  /** The printed name of a leaf, read back, finds the leaf's own value. */
  predicate ReadsBack(sent: Json, doc: Json, p: Path) { ReadBack(doc, JoinPath(p)) == Lookup(sent, p) }

  /** A leaf the report has something to say about, unless its name reads back. */
  predicate Examined(skip: string -> bool, sent: Json, doc: Json, p: Path) {
    Visited(sent, doc, p) && JoinPath(p) != "" && !skip(JoinPath(p))
  }

  /**
   The exact condition, for any body: an echo that only adds keys yields no warning,
   whichever order the objects are walked in, if and only if the name of every
   examined leaf reads back.
   */
  lemma AddedKeysSilentIff(skip: string -> bool, sent: Json, doc: Json, some: Report)
    requires PartOf(sent, doc) && Reports(skip, sent, doc, some)
    ensures (forall r :: Reports(skip, sent, doc, r) ==> r == SILENT)
            <==> (forall p :: Examined(skip, sent, doc, p) ==> ReadsBack(sent, doc, p))
  {
    if p :| Examined(skip, sent, doc, p) && !ReadsBack(sent, doc, p) {
      var r := Misread(skip, sent, doc, some, p);
    } else {
      forall r | Reports(skip, sent, doc, r)
        ensures r == SILENT
      {
        AllReadBack(skip, sent, doc, r);
      }
    }
  }

  /** The leaves a report was made from, where nothing was stored as text. */
  lemma MadeFrom(skip: string -> bool, sent: Json, doc: Json, r: Report) returns (leaves: map<string, Json>)
    requires Textless(sent, doc) && Reports(skip, sent, doc, r)
    ensures Adds(map[], leaves, sent, doc, []) && r == Judged(leaves, {}, Verdicts(skip, {}, doc))
  {
    NoneStored(skip, sent, doc, r.stored);
    leaves :| Adds(map[], leaves, sent, doc, []) && r == Judged(leaves, {}, Verdicts(skip, {}, doc));
  }

  lemma LeafQuiet(skip: string -> bool, sent: Json, doc: Json, leaves: map<string, Json>, s: string)
    requires Adds(map[], leaves, sent, doc, []) && s in leaves
    requires forall p :: Examined(skip, sent, doc, p) ==> ReadsBack(sent, doc, p)
    ensures skip(s) || ReadBack(doc, s) == Some(leaves[s])
  {
    var p :| NamedBy(sent, doc, [], p, s) && Lookup(sent, p) == Some(leaves[s]);
    assert [] + p == p;
    assert !skip(s) ==> Examined(skip, sent, doc, p);
  }

  lemma QuietVerdict(skip: string -> bool, doc: Json, s: string, value: Json)
    ensures Verdicts(skip, {}, doc)(s, value).Quiet? <==> skip(s) || ReadBack(doc, s) == Some(value)
  {
  }

  lemma AllReadBack(skip: string -> bool, sent: Json, doc: Json, r: Report)
    requires PartOf(sent, doc) && Reports(skip, sent, doc, r)
    requires forall p :: Examined(skip, sent, doc, p) ==> ReadsBack(sent, doc, p)
    ensures r == SILENT
  {
    NoText(skip, sent, doc, r.stored);
    var leaves := MadeFrom(skip, sent, doc, r);
    var verdict := Verdicts(skip, {}, doc);
    forall s | s in leaves
      ensures verdict(s, leaves[s]).Quiet?
    {
      LeafQuiet(skip, sent, doc, leaves, s);
      QuietVerdict(skip, doc, s, leaves[s]);
    }
    AllQuiet(leaves, verdict);
  }

  lemma AllQuiet(leaves: map<string, Json>, verdict: (string, Json) -> Verdict)
    requires forall s :: s in leaves ==> verdict(s, leaves[s]).Quiet?
    ensures Judged(leaves, {}, verdict) == SILENT
  {
  }

  /** Of the leaves that print alike, any one may be the one that is judged. */
  lemma Misread(skip: string -> bool, sent: Json, doc: Json, some: Report, p: Path) returns (r: Report)
    requires PartOf(sent, doc) && Reports(skip, sent, doc, some)
    requires Examined(skip, sent, doc, p) && !ReadsBack(sent, doc, p)
    ensures Reports(skip, sent, doc, r) && (JoinPath(p) in r.dropped || JoinPath(p) in r.normalized)
  {
    NoText(skip, sent, doc, some.stored);
    var leaves := MadeFrom(skip, sent, doc, some);
    var s := JoinPath(p);
    VisitedExists(sent, doc, p);
    var chosen := Chosen(sent, doc, leaves, p);
    r := Judged(chosen, {}, Verdicts(skip, {}, doc));
    NoText(skip, sent, doc, r.stored);
    QuietVerdict(skip, doc, s, chosen[s]);
    NotQuiet(chosen, Verdicts(skip, {}, doc), s);
  }

  /** The walk may have come to `p` last. */
  lemma Chosen(sent: Json, doc: Json, leaves: map<string, Json>, p: Path) returns (chosen: map<string, Json>)
    requires Adds(map[], leaves, sent, doc, []) && Visited(sent, doc, p) && JoinPath(p) != ""
    ensures Adds(map[], chosen, sent, doc, []) && JoinPath(p) in chosen && Some(chosen[JoinPath(p)]) == Lookup(sent, p)
  {
    var s := JoinPath(p);
    VisitedExists(sent, doc, p);
    var value := Lookup(sent, p).value;
    assert [] + p == p;
    assert NamedBy(sent, doc, [], p, s);
    assert Valued(sent, doc, [], s, value);
    chosen := leaves[s := value];
  }

  lemma NotQuiet(leaves: map<string, Json>, verdict: (string, Json) -> Verdict, s: string)
    requires s in leaves
    ensures var r := Judged(leaves, {}, verdict);
            verdict(s, leaves[s]).Quiet? <==> !(s in r.dropped || s in r.normalized)
  {
  }

  // ------------------------------------------------------------------
  // Exactly which names the accounting holds for
  // ------------------------------------------------------------------

  /** A body whose fields have the given names. */
  predicate BodyOver(v: Json, names: set<string>) {
    match v
    case Obj(fields) => forall k :: k in fields ==> k in names && BodyOver(fields[k], names)
    case Arr(items) => |items| <= INT_LIMIT && forall i :: 0 <= i < |items| ==> BodyOver(items[i], names)
    case _ => true
  }

  lemma {:induction false} BodyOverClean(v: Json, names: set<string>)
    requires BodyOver(v, names) && forall k :: k in names ==> CleanKey(k)
    ensures CleanBody(v)
  {
    match v
    case Obj(fields) =>
      forall k | k in fields
        ensures CleanBody(fields[k])
      {
        BodyOverClean(fields[k], names);
      }
    case Arr(items) =>
      forall i | 0 <= i < |items|
        ensures CleanBody(items[i])
      {
        BodyOverClean(items[i], names);
      }
    case _ =>
  }

  /** Every report on a body over these names is the true account of it. */
  ghost predicate Accountable(names: set<string>) {
    forall skip: string -> bool, sent: Json, doc: Json, r: Report ::
      sent.Obj? && BodyOver(sent, names) && Reports(skip, sent, doc, r) ==> Accounts(skip, sent, doc, r)
  }

  /** The report accounts for every body over a set of names if and only if every one of them is clean. */
  lemma AccountsIffClean(names: set<string>)
    ensures Accountable(names) <==> (forall k :: k in names ==> CleanKey(k))
  {
    if k :| k in names && !CleanKey(k) {
      var sent, doc, r := Unaccounted(k);
      BodyOverMore(sent, {k}, names);
    } else {
      forall skip, sent, doc, r | BodyOver(sent, names) && Reports(skip, sent, doc, r)
        ensures Accounts(skip, sent, doc, r)
      {
        BodyOverClean(sent, names);
        CleanReport(skip, sent, doc, r);
      }
    }
  }

  lemma {:induction false} BodyOverMore(v: Json, names: set<string>, more: set<string>)
    requires BodyOver(v, names) && names <= more
    ensures BodyOver(v, more)
  {
    match v
    case Obj(fields) =>
      forall k | k in fields
        ensures BodyOver(fields[k], more)
      {
        BodyOverMore(fields[k], names, more);
      }
    case Arr(items) =>
      forall i | 0 <= i < |items|
        ensures BodyOver(items[i], more)
      {
        BodyOverMore(items[i], names, more);
      }
    case _ =>
  }

  const SKIPS_NOTHING: string -> bool := (path: string) => false

  function Field(k: string, v: Json): Json { Obj(map[k := v]) }

  function Row(k: string, items: seq<Json>): Json { Field(k, Arr(items)) }

  /** The one leaf of a body. */
  ghost predicate OnlyLeaf(sent: Json, doc: Json, p: Path) {
    && ScalarLeaf(sent, p)
    && forall q :: Visited(sent, doc, q) <==> q == p
  }

  lemma FieldLeaf(k: string, v: Json, doc: Json)
    requires v.Scalar()
    ensures OnlyLeaf(Field(k, v), doc, [Key(k)]) && Lookup(Field(k, v), [Key(k)]) == Some(v)
  {
    var p := [Key(k)];
    assert p[0] == Key(k) && p[1..] == [] && Child(Field(k, v), Key(k)) == Some(v);
    forall q
      ensures Visited(Field(k, v), doc, q) <==> q == p
    {
      if q != [] && Child(Field(k, v), q[0]).Some? {
        assert q[0] == Key(k) && (q[1..] == [] <==> q == p);
      }
    }
  }

  lemma RowLeaf(k: string, v: Json, doc: Json)
    requires v.Scalar() && !ReorderedOnly([v], Beside(doc, Key(k)))
    ensures OnlyLeaf(Row(k, [v]), doc, [Key(k), Index(0)]) && Lookup(Row(k, [v]), [Key(k), Index(0)]) == Some(v)
  {
    var sent, p, row := Row(k, [v]), [Key(k), Index(0)], Arr([v]);
    assert p[0] == Key(k) && p[1..] == [Index(0)] && Child(sent, Key(k)) == Some(row);
    assert p[1..][0] == Index(0) && p[1..][1..] == [] && Child(row, Index(0)) == Some(v);
    assert Lookup(row, p[1..]) == Some(v);
    forall q
      ensures Visited(sent, doc, q) <==> q == p
    {
      RowLeafOnly(k, v, doc, q);
    }
  }

  lemma RowLeafOnly(k: string, v: Json, doc: Json, q: Path)
    requires v.Scalar() && !ReorderedOnly([v], Beside(doc, Key(k)))
    ensures Visited(Row(k, [v]), doc, q) <==> q == [Key(k), Index(0)]
  {
    var p, e := [Key(k), Index(0)], Beside(doc, Key(k));
    if q != [] && q[0] == Key(k) {
      assert Visited(Row(k, [v]), doc, q) <==> Visited(Arr([v]), e, q[1..]);
      if |q| > 1 {
        assert q[1..][1..] == q[2..];
        assert Visited(Arr([v]), e, q[1..]) <==> q[1] == Index(0) && q[2..] == [];
      }
      assert q == p <==> |q| == 2 && q[1] == Index(0);
    }
  }

  lemma OnlyLeafNamed(sent: Json, doc: Json, p: Path, s: string, x: Json)
    requires OnlyLeaf(sent, doc, p)
    ensures Named(sent, doc, [], s) <==> s == JoinPath(p) && s != ""
    ensures Valued(sent, doc, [], s, x) <==> s == JoinPath(p) && s != "" && Lookup(sent, p) == Some(x)
  {
    assert [] + p == p;
    if s == JoinPath(p) && s != "" {
      assert NamedBy(sent, doc, [], p, s);
    }
  }

  lemma OnlyLeafAdds(sent: Json, doc: Json, p: Path, leaves: map<string, Json>)
    requires OnlyLeaf(sent, doc, p)
    ensures Adds(map[], leaves, sent, doc, []) <==>
            leaves == if JoinPath(p) == "" then map[] else map[JoinPath(p) := Lookup(sent, p).value]
  {
    forall s, x
      ensures Named(sent, doc, [], s) <==> s == JoinPath(p) && s != ""
      ensures Valued(sent, doc, [], s, x) <==> s == JoinPath(p) && s != "" && Lookup(sent, p) == Some(x)
    {
      OnlyLeafNamed(sent, doc, p, s, x);
    }
    AddsOnlyOne(sent, doc, leaves, JoinPath(p), Lookup(sent, p).value);
  }

  lemma AddsOnlyOne(sent: Json, doc: Json, leaves: map<string, Json>, name: string, value: Json)
    requires forall s :: Named(sent, doc, [], s) <==> s == name && s != ""
    requires forall s, x :: Valued(sent, doc, [], s, x) <==> s == name && s != "" && value == x
    ensures Adds(map[], leaves, sent, doc, []) <==> leaves == if name == "" then map[] else map[name := value]
  {
  }

  /** The one leaf came back with its value, and nothing came back as text. */
  ghost predicate OnlyLeafKept(sent: Json, doc: Json, p: Path) {
    OnlyLeaf(sent, doc, p) && Lookup(doc, p) == Lookup(sent, p) && Textless(sent, doc)
  }

  /** A kept leaf that does not read back is reported, and so the account is false. */
  lemma OnlyLeafMisread(sent: Json, doc: Json, p: Path, r: Report)
    requires OnlyLeafKept(sent, doc, p) && JoinPath(p) != "" && !ReadsBack(sent, doc, p)
    requires Reports(SKIPS_NOTHING, sent, doc, r)
    ensures JoinPath(p) in r.dropped || JoinPath(p) in r.normalized
    ensures !Accounts(SKIPS_NOTHING, sent, doc, r)
  {
    OnlyLeafReported(SKIPS_NOTHING, sent, doc, p, r);
    if Accounts(SKIPS_NOTHING, sent, doc, r) {
      KeptClass(sent, doc, p, r);
    }
  }

  lemma OnlyLeafReported(skip: string -> bool, sent: Json, doc: Json, p: Path, r: Report)
    requires OnlyLeafKept(sent, doc, p) && JoinPath(p) != "" && !ReadsBack(sent, doc, p)
    requires !skip(JoinPath(p)) && Reports(skip, sent, doc, r)
    ensures JoinPath(p) in r.dropped || JoinPath(p) in r.normalized
  {
    var leaves := MadeFrom(skip, sent, doc, r);
    OnlyLeafAdds(sent, doc, p, leaves);
    QuietVerdict(skip, doc, JoinPath(p), leaves[JoinPath(p)]);
    NotQuiet(leaves, Verdicts(skip, {}, doc), JoinPath(p));
  }

  lemma KeptClass(sent: Json, doc: Json, p: Path, r: Report)
    requires ScalarLeaf(sent, p) && Lookup(doc, p) == Lookup(sent, p) && Accounts(SKIPS_NOTHING, sent, doc, r)
    ensures JoinPath(p) !in r.dropped && JoinPath(p) !in r.normalized
  {
    assert AccountsFor(SKIPS_NOTHING, sent, doc, r, p);
  }

  lemma OnlyLeafReport(sent: Json, doc: Json, p: Path) returns (r: Report)
    requires OnlyLeaf(sent, doc, p) && Textless(sent, doc)
    ensures Reports(SKIPS_NOTHING, sent, doc, r)
  {
    var leaves := if JoinPath(p) == "" then map[] else map[JoinPath(p) := Lookup(sent, p).value];
    OnlyLeafAdds(sent, doc, p, leaves);
    NoneStored(SKIPS_NOTHING, sent, doc, {});
    r := Judged(leaves, {}, Verdicts(SKIPS_NOTHING, {}, doc));
  }

  lemma FieldKept(k: string, v: Json)
    requires v.Scalar()
    ensures OnlyLeafKept(Field(k, v), Field(k, v), [Key(k)])
  {
    FieldLeaf(k, v, Field(k, v));
    NoText(SKIPS_NOTHING, Field(k, v), Field(k, v), {});
  }

  lemma ScalarTextless(v: Json, echoed: Json, q: Path)
    requires v.Scalar()
    ensures !TextAt(v, echoed, q)
  {
    assert q != [] ==> Child(v, q[0]).None?;
  }

  lemma RowKept(k: string, v: Json, w: Json)
    requires v.Scalar()
    ensures OnlyLeafKept(Row(k, [v]), Row(k, [v, w]), [Key(k), Index(0)])
  {
    var sent, doc, p := Row(k, [v]), Row(k, [v, w]), [Key(k), Index(0)];
    assert |multiset([v, w])| == 2 && |multiset([v])| == 1;
    RowLeaf(k, v, doc);
    assert p[1..] == [Index(0)] && p[1..][1..] == [];
    assert Lookup(Arr([v, w]), p[1..]) == Some(v);
    forall q
      ensures !TextAt(sent, doc, q)
    {
      if q != [] && Child(sent, q[0]).Some? {
        TextAtStep(sent, doc, q);
        if q[1..] != [] && Child(Arr([v]), q[1..][0]).Some? {
          TextAtStep(Arr([v]), Arr([v, w]), q[1..]);
          ScalarTextless(v, v, q[1..][1..]);
        }
      }
    }
  }

  /** A name with a dot in it is read as several steps: {"a.b": v} echoed unchanged is reported. */
  lemma DottedNameIsMisread(k: string, v: Json, r: Report)
    requires v.Scalar() && !Without(k, '.') && Reports(SKIPS_NOTHING, Field(k, v), Field(k, v), r)
    ensures k in r.dropped || k in r.normalized
    ensures !Accounts(SKIPS_NOTHING, Field(k, v), Field(k, v), r)
  {
    FieldKept(k, v);
    KeyPrints(k);
    DottedNotRead(k);
    NotThere(Field(k, v), k, SplitPath(k));
    OnlyLeafMisread(Field(k, v), Field(k, v), [Key(k)], r);
  }

  /** In a value with one field, a path that does not start with its name leads nowhere. */
  lemma NotThere(v: Json, k: string, read: Path)
    requires v.Obj? && v.fields.Keys == {k} && (read != [] ==> read[0] != Key(k))
    ensures Lookup(v, read) == if read == [] then Some(v) else None
  {
  }

  /** A name with a bracket in it: {"a[0]": [v]} with a row added to the list is reported. */
  lemma BracketedNameIsMisread(k: string, v: Json, w: Json, r: Report)
    requires v.Scalar() && Without(k, '.') && !Without(k, '[') && Reports(SKIPS_NOTHING, Row(k, [v]), Row(k, [v, w]), r)
    ensures k + Printed(0) in r.dropped || k + Printed(0) in r.normalized
    ensures !Accounts(SKIPS_NOTHING, Row(k, [v]), Row(k, [v, w]), r)
  {
    RowKept(k, v, w);
    KeyPrints(k);
    BracketedNotRead(k);
    NotThere(Row(k, [v, w]), k, SplitPath(k + Printed(0)));
    OnlyLeafMisread(Row(k, [v]), Row(k, [v, w]), [Key(k), Index(0)], r);
  }

  /** The loss of a value at the root under the empty name is never reported. */
  lemma EmptyNameIsMissed(v: Json, r: Report)
    requires v.Scalar()
    ensures Reports(SKIPS_NOTHING, Field("", v), Obj(map[]), r) <==> r == SILENT
    ensures !Accounts(SKIPS_NOTHING, Field("", v), Obj(map[]), SILENT)
  {
    var sent, doc, p := Field("", v), Obj(map[]), [Key("")];
    FieldLeaf("", v, doc);
    KeyPrints("");
    forall q
      ensures !TextAt(sent, doc, q)
    {
      if q != [] && Child(sent, q[0]).Some? {
        assert Child(doc, q[0]).None?;
      }
    }
    NoneStored(SKIPS_NOTHING, sent, doc, r.stored);
    OnlyLeafAdds(sent, doc, p, map[]);
    NothingJudged({}, Verdicts(SKIPS_NOTHING, {}, doc));
    forall leaves
      ensures Adds(map[], leaves, sent, doc, []) <==> leaves == map[]
    {
      OnlyLeafAdds(sent, doc, p, leaves);
    }
    assert !ReorderedAt(sent, doc, p[..0]) && Lookup(doc, p).None?;
    assert ClassOf(SKIPS_NOTHING, sent, doc, p).Dropped?;
    assert !AccountsFor(SKIPS_NOTHING, sent, doc, SILENT, p);
  }

  /** A body, its echo, and a report that misjudges the body's one leaf. */
  lemma Unaccounted(k: string) returns (sent: Json, doc: Json, r: Report)
    requires !CleanKey(k)
    ensures sent.Obj? && BodyOver(sent, {k})
    ensures Reports(SKIPS_NOTHING, sent, doc, r) && !Accounts(SKIPS_NOTHING, sent, doc, r)
  {
    if k == "" {
      sent, doc, r := Field("", Null), Obj(map[]), SILENT;
      EmptyNameIsMissed(Null, r);
    } else if !Without(k, '.') {
      sent, doc := Field(k, Null), Field(k, Null);
      FieldKept(k, Null);
      r := OnlyLeafReport(sent, doc, [Key(k)]);
      DottedNameIsMisread(k, Null, r);
    } else {
      sent, doc := Row(k, [Null]), Row(k, [Null, Null]);
      RowKept(k, Null, Null);
      r := OnlyLeafReport(sent, doc, [Key(k), Index(0)]);
      BracketedNameIsMisread(k, Null, Null, r);
    }
  }
}
