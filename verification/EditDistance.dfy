/**
 The edit distance behind "did you mean" (levenshtein, internal/apierr/diagnose.go):
 a dynamic program over two rows.

 It is specified by edit scripts.  Dist is the recurrence the rows follow; it is
 proved to be the least cost of any script, and from that a metric.
 */
module EditDistance {
  import opened Wrappers

  // ------------------------------------------------------------------
  // Edit scripts
  // ------------------------------------------------------------------

  datatype Edit = Keep | Substitute(c: char) | Insert(c: char) | Delete

  type Script = seq<Edit>

  /** The text a script makes of `a`; None when it does not fit `a`. */
  function Apply(s: Script, a: string): Option<string> {
    if s == [] then (if a == "" then Some("") else None)
    else
      var init := s[..|s| - 1];
      match s[|s| - 1]
      case Keep => if a == "" then None else Append(Apply(init, Front(a)), [Back(a)])
      case Substitute(c) => if a == "" then None else Append(Apply(init, Front(a)), [c])
      case Insert(c) => Append(Apply(init, a), [c])
      case Delete => if a == "" then None else Apply(init, Front(a))
  }

  function Append(t: Option<string>, u: string): Option<string> {
    match t
    case None => None
    case Some(x) => Some(x + u)
  }

  /** Keeping is free, every other edit costs one. */
  function Cost(s: Script): nat {
    if s == [] then 0 else Cost(s[..|s| - 1]) + if s[|s| - 1].Keep? then 0 else 1
  }

  function Front(a: string): string
    requires a != ""
  {
    a[..|a| - 1]
  }

  function Back(a: string): char
    requires a != ""
  {
    a[|a| - 1]
  }

  // ------------------------------------------------------------------
  // The recurrence
  // ------------------------------------------------------------------

  function MinInt(a: nat, b: nat): nat { if a < b then a else b }

  function Dist(a: string, b: string): nat
    decreases |a| + |b|
  {
    if a == "" then |b|
    else if b == "" then |a|
    else
      MinInt(MinInt(Dist(a, Front(b)) + 1, Dist(Front(a), b) + 1),
             Dist(Front(a), Front(b)) + if Back(a) == Back(b) then 0 else 1)
  }

  /** The distance of two prefixes: cell (i, j) of the table. */
  function Cell(a: string, b: string, i: nat, j: nat): nat
    requires i <= |a| && j <= |b|
  {
    Dist(a[..i], b[..j])
  }

  lemma CellStep(a: string, b: string, i: nat, j: nat)
    requires 1 <= i <= |a| && 1 <= j <= |b|
    ensures Cell(a, b, i, j) ==
            MinInt(MinInt(Cell(a, b, i, j - 1) + 1, Cell(a, b, i - 1, j) + 1),
                   Cell(a, b, i - 1, j - 1) + if a[i - 1] == b[j - 1] then 0 else 1)
  {
    assert a[..i] == a[..i - 1] + [a[i - 1]] && b[..j] == b[..j - 1] + [b[j - 1]];
    DistSnoc(a[..i - 1], a[i - 1], b[..j - 1], b[j - 1]);
  }

  lemma DistSnoc(p: string, x: char, q: string, y: char)
    ensures Dist(p + [x], q + [y]) ==
            MinInt(MinInt(Dist(p + [x], q) + 1, Dist(p, q + [y]) + 1), Dist(p, q) + if x == y then 0 else 1)
  {
    assert Front(p + [x]) == p && Front(q + [y]) == q;
  }

  lemma CellEdges(a: string, b: string, i: nat, j: nat)
    requires i <= |a| && j <= |b|
    ensures Cell(a, b, 0, j) == j && Cell(a, b, i, 0) == i && Cell(a, b, |a|, |b|) == Dist(a, b)
  {
    assert a[..|a|] == a && b[..|b|] == b;
  }

  /** Row `i` of the table. */
  ghost predicate IsRow(a: string, b: string, i: nat, row: seq<nat>)
    requires i <= |a|
  {
    |row| == |b| + 1 && forall j :: 0 <= j <= |b| ==> row[j] == Cell(a, b, i, j)
  }

  /** levenshtein: two rows, filled left to right and swapped. */
  method Levenshtein(a: string, b: string) returns (d: nat)
    ensures d == Dist(a, b)
  {
    if |a| == 0 {
      return |b|;
    }
    if |b| == 0 {
      return |a|;
    }
    var prev := new nat[|b| + 1](j => j);
    var cur := new nat[|b| + 1](j => 0);
    forall j | 0 <= j <= |b|
      ensures prev[j] == Cell(a, b, 0, j)
    {
      CellEdges(a, b, 0, j);
    }
    for i := 1 to |a| + 1
      invariant prev != cur && cur.Length == |b| + 1 && fresh(prev) && fresh(cur)
      invariant IsRow(a, b, i - 1, prev[..])
    {
      FillRow(a, b, i, prev, cur);
      prev, cur := cur, prev;
    }
    CellEdges(a, b, 0, 0);
    return prev[|b|];
  }

  /** The inner loop: one row from the row above it. */
  method FillRow(a: string, b: string, i: nat, prev: array<nat>, cur: array<nat>)
    requires 1 <= i <= |a| && prev != cur && cur.Length == |b| + 1
    requires IsRow(a, b, i - 1, prev[..])
    modifies cur
    ensures IsRow(a, b, i, cur[..])
  {
    CellEdges(a, b, i, 0);
    cur[0] := i;
    for j := 1 to |b| + 1
      invariant forall k :: 0 <= k < j ==> cur[k] == Cell(a, b, i, k)
    {
      assert prev[..][j] == prev[j] && prev[..][j - 1] == prev[j - 1];
      var cost := 1;
      if a[i - 1] == b[j - 1] {
        cost := 0;
      }
      CellStep(a, b, i, j);
      cur[j] := MinInt(MinInt(cur[j - 1] + 1, prev[j] + 1), prev[j - 1] + cost);
    }
  }

  // ------------------------------------------------------------------
  // Dist is the least cost
  // ------------------------------------------------------------------

  lemma SnocScript(s: Script, e: Edit)
    ensures (s + [e])[..|s + [e]| - 1] == s && (s + [e])[|s + [e]| - 1] == e
    ensures Cost(s + [e]) == Cost(s) + if e.Keep? then 0 else 1
  {
  }

  /** One more edit at the end. */
  lemma ApplySnoc(s: Script, e: Edit, a: string)
    ensures Apply(s + [e], a) ==
            if e.Insert? then Append(Apply(s, a), [e.c])
            else if a == "" then None
            else if e.Delete? then Apply(s, Front(a))
            else Append(Apply(s, Front(a)), [if e.Keep? then Back(a) else e.c])
  {
    SnocScript(s, e);
  }

  /** A best script. */
  lemma {:induction false} BestScript(a: string, b: string) returns (s: Script)
    ensures Apply(s, a) == Some(b) && Cost(s) == Dist(a, b)
    decreases |a| + |b|
  {
    if a == "" && b == "" {
      return [];
    }
    assert b != "" ==> b == Front(b) + [Back(b)];
    if a == "" || (b != "" && Dist(a, b) == Dist(a, Front(b)) + 1) {
      var t := BestScript(a, Front(b));
      ApplySnoc(t, Insert(Back(b)), a);
      SnocScript(t, Insert(Back(b)));
      return t + [Insert(Back(b))];
    }
    if b == "" || Dist(a, b) == Dist(Front(a), b) + 1 {
      var t := BestScript(Front(a), b);
      ApplySnoc(t, Delete, a);
      SnocScript(t, Delete);
      return t + [Delete];
    }
    var t := BestScript(Front(a), Front(b));
    var e := if Back(a) == Back(b) then Keep else Substitute(Back(b));
    ApplySnoc(t, e, a);
    SnocScript(t, e);
    return t + [e];
  }

  /** The recurrence never does better than one more edit would allow. */
  lemma DistStep(a: string, b: string)
    ensures a != "" ==> Dist(a, b) <= Dist(Front(a), b) + 1
    ensures b != "" ==> Dist(a, b) <= Dist(a, Front(b)) + 1
    ensures a != "" && b != "" ==> Dist(a, b) <= Dist(Front(a), Front(b)) + if Back(a) == Back(b) then 0 else 1
  {
  }

  /** No script that makes `b` of `a` is cheaper than Dist. */
  lemma {:induction false} NoCheaperScript(s: Script, a: string, b: string)
    requires Apply(s, a) == Some(b)
    ensures Dist(a, b) <= Cost(s)
    decreases |s|
  {
    if s != [] {
      var init, e := s[..|s| - 1], s[|s| - 1];
      assert s == init + [e];
      ApplySnoc(init, e, a);
      SnocScript(init, e);
      DistStep(a, b);
      if e.Insert? {
        assert b != "" && Front(b) == Apply(init, a).value;
        NoCheaperScript(init, a, Front(b));
      } else if e.Delete? {
        NoCheaperScript(init, Front(a), b);
      } else {
        assert b != "" && Front(b) == Apply(init, Front(a)).value;
        NoCheaperScript(init, Front(a), Front(b));
      }
    }
  }

  ghost predicate Makes(s: Script, a: string, b: string) { Apply(s, a) == Some(b) }

  /** Exactness: Dist is the minimum cost over all scripts from `a` to `b`. */
  lemma Exact(a: string, b: string)
    ensures exists s :: Makes(s, a, b) && Cost(s) == Dist(a, b)
    ensures forall s :: Makes(s, a, b) ==> Dist(a, b) <= Cost(s)
  {
    var s := BestScript(a, b);
    assert Makes(s, a, b);
    forall t | Makes(t, a, b)
      ensures Dist(a, b) <= Cost(t)
    {
      NoCheaperScript(t, a, b);
    }
  }

  // ------------------------------------------------------------------
  // A metric
  // ------------------------------------------------------------------

  lemma {:induction false} Symmetric(a: string, b: string)
    ensures Dist(a, b) == Dist(b, a)
    decreases |a| + |b|
  {
    if a != "" && b != "" {
      Symmetric(a, Front(b));
      Symmetric(Front(a), b);
      Symmetric(Front(a), Front(b));
    }
  }

  lemma {:induction false} ZeroIffEqual(a: string, b: string)
    ensures Dist(a, b) == 0 <==> a == b
    decreases |a| + |b|
  {
    if a != "" && b != "" {
      ZeroIffEqual(Front(a), Front(b));
      assert a == Front(a) + [Back(a)] && b == Front(b) + [Back(b)];
      assert a == b ==> Front(a) == Front(b) && Back(a) == Back(b);
    }
  }

  /** The distance lies between the difference of the lengths and the longer length. */
  lemma {:induction false} Bounds(a: string, b: string)
    ensures |a| - |b| <= Dist(a, b) && |b| - |a| <= Dist(a, b)
    ensures Dist(a, b) <= if |a| < |b| then |b| else |a|
    decreases |a| + |b|
  {
    if a != "" && b != "" {
      Bounds(a, Front(b));
      Bounds(Front(a), b);
      Bounds(Front(a), Front(b));
    }
  }

  /** What one edit followed by another comes to, on one character. */
  function Fuse(e: Edit, f: Edit): Option<Edit> {
    match f
    case Keep => Some(e)
    case Substitute(c) => Some(if e.Insert? then Insert(c) else Substitute(c))
    case _ => if e.Insert? then None else Some(Delete)
  }

  /** Two scripts in a row can be done as one that costs no more. */
  lemma {:induction false} Compose(s: Script, t: Script, a: string, b: string, c: string) returns (u: Script)
    requires Apply(s, a) == Some(b) && Apply(t, b) == Some(c)
    ensures Apply(u, a) == Some(c) && Cost(u) <= Cost(s) + Cost(t)
    decreases |s| + |t|
  {
    if t != [] && t[|t| - 1].Insert? {
      u := ComposeInsert(s, t, a, b, c);
    } else if s != [] && s[|s| - 1].Delete? {
      u := ComposeDelete(s, t, a, b, c);
    } else if s == [] {
      assert b == "";
      return [];
    } else {
      u := ComposeBoth(s, t, a, b, c);
    }
  }

  lemma {:induction false} ComposeInsert(s: Script, t: Script, a: string, b: string, c: string) returns (u: Script)
    requires Apply(s, a) == Some(b) && Apply(t, b) == Some(c) && t != [] && t[|t| - 1].Insert?
    ensures Apply(u, a) == Some(c) && Cost(u) <= Cost(s) + Cost(t)
    decreases |s| + |t|, 0
  {
    var init, e := t[..|t| - 1], t[|t| - 1];
    assert t == init + [e];
    ApplySnoc(init, e, b);
    SnocScript(init, e);
    var v := Compose(s, init, a, b, Apply(init, b).value);
    ApplySnoc(v, e, a);
    SnocScript(v, e);
    return v + [e];
  }

  lemma {:induction false} ComposeDelete(s: Script, t: Script, a: string, b: string, c: string) returns (u: Script)
    requires Apply(s, a) == Some(b) && Apply(t, b) == Some(c) && s != [] && s[|s| - 1].Delete?
    ensures Apply(u, a) == Some(c) && Cost(u) <= Cost(s) + Cost(t)
    decreases |s| + |t|, 0
  {
    var init := s[..|s| - 1];
    assert s == init + [Delete];
    ApplySnoc(init, Delete, a);
    SnocScript(init, Delete);
    var v := Compose(init, t, Front(a), b, c);
    ApplySnoc(v, Delete, a);
    SnocScript(v, Delete);
    return v + [Delete];
  }

  /** The first script makes the last character that the second one reads. */
  lemma {:induction false} ComposeBoth(s: Script, t: Script, a: string, b: string, c: string) returns (u: Script)
    requires Apply(s, a) == Some(b) && Apply(t, b) == Some(c)
    requires s != [] && !s[|s| - 1].Delete? && (t == [] || !t[|t| - 1].Insert?)
    ensures Apply(u, a) == Some(c) && Cost(u) <= Cost(s) + Cost(t)
    decreases |s| + |t|, 0
  {
    var s', e := s[..|s| - 1], s[|s| - 1];
    assert s == s' + [e];
    ApplySnoc(s', e, a);
    SnocScript(s', e);
    assert b != "";
    var t', f := t[..|t| - 1], t[|t| - 1];
    assert t == t' + [f];
    ApplySnoc(t', f, b);
    SnocScript(t', f);
    var a' := if e.Insert? then a else Front(a);
    assert Front(b) == Apply(s', a').value;
    var v := Compose(s', t', a', Front(b), Apply(t', Front(b)).value);
    match Fuse(e, f)
    case None => return v;
    case Some(g) =>
      ApplySnoc(v, g, a);
      SnocScript(v, g);
      return v + [g];
  }

  lemma Triangle(a: string, b: string, c: string)
    ensures Dist(a, c) <= Dist(a, b) + Dist(b, c)
  {
    var s := BestScript(a, b);
    var t := BestScript(b, c);
    var u := Compose(s, t, a, b, c);
    NoCheaperScript(u, a, c);
  }
}
