/**
 Required-path reporting (stillMissing and missingRequired,
 internal/cli/create.go).

 A required path names keys only; it runs through arrays silently.  Its concrete
 instances in a document have one index step for every array that is crossed.
 The report is proved to be exactly the instances whose value is absent or empty.
 */
module Required {
  import opened Wrappers
  import opened Json
  import opened Paths

  predicate IsEmptyValue(v: Json) {
    match v
    case Null => true
    case Str(s) => s == ""
    case Arr(items) => items == []
    case Obj(fields) => fields == map[]
    case _ => false
  }

  // ------------------------------------------------------------------
  // What should be reported
  // ------------------------------------------------------------------

  /** The keys a path names, without its indices. */
  function KeysOf(p: Path): seq<string> {
    if p == [] then [] else (if p[0].Key? then [p[0].key] else []) + KeysOf(p[1..])
  }

  /**
   `p` is a concrete instance of the required path `keys` in `doc`: it names those
   keys in order, has an index step exactly where the document has an array, each
   index is one of that array's rows, and it ends with a key.
   */
  ghost predicate Instance(doc: Json, keys: seq<string>, p: Path) {
    && KeysOf(p) == keys
    && (p != [] ==> p[|p| - 1].Key?)
    && StepsFit(doc, p)
  }

  ghost predicate StepsFit(doc: Json, p: Path) {
    forall n :: 0 <= n < |p| ==> StepFits(doc, p[..n], p[n])
  }

  predicate StepFits(doc: Json, q: Path, st: Step) {
    var at := Lookup(doc, q);
    if at.Some? && at.value.Arr? then st.Index? && st.i < |at.value.items| else st.Key?
  }

  /** Its value is absent or empty. */
  predicate Unfilled(doc: Json, p: Path) {
    Lookup(doc, p).None? || Lookup(doc, p).value in [Null, Str(""), Arr([]), Obj(map[])]
  }

  // ------------------------------------------------------------------
  // The walk
  // ------------------------------------------------------------------

  function NamePath(keys: seq<string>): Path
    ensures |NamePath(keys)| == |keys|
  {
    if keys == [] then [] else [Key(keys[0])] + NamePath(keys[1..])
  }

  /** missingRequired, as the list of paths it appends. */
  function Missing(cur: Json, keys: seq<string>): seq<Path>
    decreases cur, |keys|, 0
  {
    if keys == [] then (if IsEmptyValue(cur) then [[]] else [])
    else
      match cur
      case Obj(fields) =>
        if keys[0] !in fields then [NamePath(keys)]
        else Behind(Key(keys[0]), Missing(fields[keys[0]], keys[1..]))
      case Arr(items) => MissingRows(cur, keys, |items|)
      case _ => [NamePath(keys)]
  }

  /** The first `n` rows of an array, in order. */
  function MissingRows(cur: Json, keys: seq<string>, n: nat): seq<Path>
    requires cur.Arr? && n <= |cur.items| && keys != []
    decreases cur, |keys|, 0, n
  {
    if n == 0 then [] else MissingRows(cur, keys, n - 1) + Behind(Index(n - 1), Missing(cur.items[n - 1], keys))
  }

  function Behind(st: Step, ps: seq<Path>): (r: seq<Path>)
    ensures |r| == |ps|
    ensures forall i :: 0 <= i < |ps| ==> r[i] == [st] + ps[i]
  {
    if ps == [] then [] else [[st] + ps[0]] + Behind(st, ps[1..])
  }

  // ------------------------------------------------------------------
  // The walk finds exactly the unfilled instances
  // ------------------------------------------------------------------

  lemma StepFitsBelow(doc: Json, st: Step, q: Path, next: Step)
    requires Child(doc, st).Some?
    ensures StepFits(doc, [st] + q, next) <==> StepFits(Child(doc, st).value, q, next)
  {
    assert ([st] + q)[0] == st && ([st] + q)[1..] == q;
  }

  lemma StepsFitStep(doc: Json, p: Path)
    requires p != [] && Child(doc, p[0]).Some?
    ensures StepsFit(doc, p) <==> StepFits(doc, [], p[0]) && StepsFit(Child(doc, p[0]).value, p[1..])
  {
    var c := Child(doc, p[0]).value;
    assert p[..0] == [];
    forall n | 0 <= n < |p| - 1
      ensures StepFits(doc, p[..n + 1], p[n + 1]) <==> StepFits(c, p[1..][..n], p[1..][n])
    {
      assert p[..n + 1] == [p[0]] + p[1..][..n];
      StepFitsBelow(doc, p[0], p[1..][..n], p[n + 1]);
    }
    if StepsFit(doc, p) {
      assert StepFits(doc, p[..0], p[0]);
      forall n | 0 <= n < |p[1..]|
        ensures StepFits(c, p[1..][..n], p[1..][n])
      {
        assert StepFits(doc, p[..n + 1], p[n + 1]);
      }
    }
    if StepFits(doc, [], p[0]) && StepsFit(c, p[1..]) {
      forall n | 0 <= n < |p|
        ensures StepFits(doc, p[..n], p[n])
      {
        if n > 0 {
          assert StepFits(c, p[1..][..n - 1], p[1..][n - 1]);
          assert StepFits(doc, p[..(n - 1) + 1], p[(n - 1) + 1]);
        }
      }
    }
  }

  /** An instance goes on, below its first step, as an instance there. */
  lemma InstanceStep(doc: Json, keys: seq<string>, p: Path)
    requires p != [] && Child(doc, p[0]).Some? && StepFits(doc, [], p[0])
    requires |p| > 1 || p[0].Key?
    ensures Instance(doc, keys, p) <==>
            if p[0].Key? then keys != [] && keys[0] == p[0].key && Instance(Child(doc, p[0]).value, keys[1..], p[1..])
            else p[1..] != [] && Instance(Child(doc, p[0]).value, keys, p[1..])
  {
    StepsFitStep(doc, p);
    if |p| > 1 {
      assert p[1..][|p[1..]| - 1] == p[|p| - 1];
    }
    if p[0].Key? {
      assert KeysOf(p) == [p[0].key] + KeysOf(p[1..]);
      assert keys != [] ==> keys == [keys[0]] + keys[1..];
      assert KeysOf(p)[0] == p[0].key && KeysOf(p)[1..] == KeysOf(p[1..]);
    } else {
      assert KeysOf(p) == KeysOf(p[1..]);
    }
  }

  lemma {:induction false} KeyLastIsNamed(p: Path)
    requires p != [] && p[|p| - 1].Key?
    ensures KeysOf(p) != []
  {
    if p[0].Index? {
      KeyLastIsNamed(p[1..]);
    }
  }

  /** Where nothing is an array any more, the only instance is the names themselves. */
  lemma {:induction false} OnlyNames(keys: seq<string>, p: Path)
    ensures p == NamePath(keys) <==> KeysOf(p) == keys && forall n :: 0 <= n < |p| ==> p[n].Key?
    decreases |p|
  {
    if p == [] {
    } else if p[0].Key? {
      if keys != [] {
        OnlyNames(keys[1..], p[1..]);
        assert p == [p[0]] + p[1..];
        assert KeysOf(p) == [p[0].key] + KeysOf(p[1..]);
        assert keys == [keys[0]] + keys[1..];
        assert (forall n :: 0 <= n < |p| ==> p[n].Key?) <==> (forall n :: 0 <= n < |p[1..]| ==> p[1..][n].Key?) by {
          assert forall n :: 0 < n < |p| ==> p[n] == p[1..][n - 1];
        }
      }
    } else {
      assert keys != [] ==> NamePath(keys)[0].Key?;
    }
  }

  lemma DeadEnd(doc: Json, keys: seq<string>, p: Path)
    requires keys != [] && !doc.Arr? && Child(doc, Key(keys[0])).None?
    ensures Instance(doc, keys, p) <==> p == NamePath(keys)
    ensures p == NamePath(keys) ==> Unfilled(doc, p)
  {
    OnlyNames(keys, p);
    if p != [] && p[0] == Key(keys[0]) {
      forall n | 0 < n <= |p|
        ensures Lookup(doc, p[..n]).None?
      {
        assert p[..n][0] == p[0];
      }
      assert p[..|p|] == p;
      assert p[..0] == [];
      if Instance(doc, keys, p) {
        forall n | 0 <= n < |p|
          ensures p[n].Key?
        {
          assert StepFits(doc, p[..n], p[n]);
        }
      }
      if p == NamePath(keys) {
        forall n | 0 <= n < |p|
          ensures StepFits(doc, p[..n], p[n])
        {
          assert n > 0 ==> Lookup(doc, p[..n]).None?;
        }
      }
    } else if Instance(doc, keys, p) {
      FirstIsNamed(doc, keys, p);
    }
  }

  /** Outside an array, an instance starts with the first name. */
  lemma FirstIsNamed(doc: Json, keys: seq<string>, p: Path)
    requires keys != [] && !doc.Arr? && Instance(doc, keys, p)
    ensures p != [] && p[0] == Key(keys[0])
  {
    assert p != [];
    assert StepFits(doc, p[..0], p[0]) && p[..0] == [];
  }

  lemma BehindMember(st: Step, ps: seq<Path>, p: Path)
    ensures p in Behind(st, ps) <==> p != [] && p[0] == st && p[1..] in ps
  {
    var r := Behind(st, ps);
    if p in r {
      var i :| 0 <= i < |r| && r[i] == p;
      assert p == [st] + ps[i] && p[1..] == ps[i];
    }
    if p != [] && p[0] == st && p[1..] in ps {
      var i :| 0 <= i < |ps| && ps[i] == p[1..];
      assert r[i] == [st] + p[1..] == p;
    }
  }

  lemma UnfilledBelow(doc: Json, p: Path)
    requires p != [] && Child(doc, p[0]).Some?
    ensures Unfilled(doc, p) <==> Unfilled(Child(doc, p[0]).value, p[1..])
  {
  }

  lemma {:induction false} RowsMember(cur: Json, keys: seq<string>, n: nat, p: Path)
    requires cur.Arr? && n <= |cur.items| && keys != []
    ensures p in MissingRows(cur, keys, n) <==>
            p != [] && p[0].Index? && p[0].i < n && p[1..] in Missing(cur.items[p[0].i], keys)
  {
    if n > 0 {
      RowsMember(cur, keys, n - 1, p);
      BehindMember(Index(n - 1), Missing(cur.items[n - 1], keys), p);
    }
  }

  /**
   Exactness: the walk reports a path if and only if it is an instance of the
   required path in this document and its value there is absent or empty.
   */
  lemma {:induction false} MissingExact(cur: Json, keys: seq<string>, p: Path)
    ensures p in Missing(cur, keys) <==> Instance(cur, keys, p) && Unfilled(cur, p)
    decreases |p|
  {
    if keys == [] {
      if p != [] && p[|p| - 1].Key? {
        KeyLastIsNamed(p);
      }
      assert Lookup(cur, []) == Some(cur);
    } else if cur.Obj? && keys[0] in cur.fields {
      MissingInField(cur, keys, p);
    } else if cur.Arr? {
      MissingInRow(cur, keys, p);
    } else {
      DeadEnd(cur, keys, p);
    }
  }

  lemma MissingInField(cur: Json, keys: seq<string>, p: Path)
    requires keys != [] && cur.Obj? && keys[0] in cur.fields
    ensures p in Missing(cur, keys) <==> Instance(cur, keys, p) && Unfilled(cur, p)
    decreases |p|, 0
  {
    BehindMember(Key(keys[0]), Missing(cur.fields[keys[0]], keys[1..]), p);
    if p != [] && p[0] == Key(keys[0]) {
      MissingExact(cur.fields[keys[0]], keys[1..], p[1..]);
      InstanceStep(cur, keys, p);
      UnfilledBelow(cur, p);
    } else if Instance(cur, keys, p) {
      FirstIsNamed(cur, keys, p);
    }
  }

  lemma MissingInRow(cur: Json, keys: seq<string>, p: Path)
    requires keys != [] && cur.Arr?
    ensures p in Missing(cur, keys) <==> Instance(cur, keys, p) && Unfilled(cur, p)
    decreases |p|, 0
  {
    RowsMember(cur, keys, |cur.items|, p);
    if p != [] && p[0].Index? && p[0].i < |cur.items| {
      MissingExact(cur.items[p[0].i], keys, p[1..]);
      if |p| > 1 {
        InstanceStep(cur, keys, p);
      } else {
        assert p[1..] == [] && KeysOf(p[1..]) == [];
      }
      UnfilledBelow(cur, p);
    } else if Instance(cur, keys, p) {
      FirstIsRow(cur, keys, p);
    }
  }

  /** In an array, an instance starts with one of its rows. */
  lemma FirstIsRow(cur: Json, keys: seq<string>, p: Path)
    requires keys != [] && cur.Arr? && Instance(cur, keys, p)
    ensures p != [] && p[0].Index? && p[0].i < |cur.items|
  {
    assert p != [];
    assert StepFits(cur, p[..0], p[0]) && p[..0] == [];
  }

  predicate NoDuplicates(ps: seq<Path>) {
    forall i, j :: 0 <= i < j < |ps| ==> ps[i] != ps[j]
  }

  lemma BehindDistinct(st: Step, ps: seq<Path>)
    requires NoDuplicates(ps)
    ensures NoDuplicates(Behind(st, ps))
  {
    var r := Behind(st, ps);
    forall i, j | 0 <= i < j < |r|
      ensures r[i] != r[j]
    {
      assert r[i][1..] == ps[i] && r[j][1..] == ps[j];
    }
  }

  /** No instance is reported twice. */
  lemma {:induction false} MissingDistinct(cur: Json, keys: seq<string>)
    ensures NoDuplicates(Missing(cur, keys))
    decreases cur, |keys|, 0
  {
    if keys != [] {
      if cur.Obj? && keys[0] in cur.fields {
        MissingDistinct(cur.fields[keys[0]], keys[1..]);
        BehindDistinct(Key(keys[0]), Missing(cur.fields[keys[0]], keys[1..]));
      } else if cur.Arr? {
        RowsDistinct(cur, keys, |cur.items|);
      }
    }
  }

  lemma {:induction false} RowsDistinct(cur: Json, keys: seq<string>, n: nat)
    requires cur.Arr? && n <= |cur.items| && keys != []
    ensures NoDuplicates(MissingRows(cur, keys, n))
    decreases cur, |keys|, 0, n
  {
    if n > 0 {
      RowsDistinct(cur, keys, n - 1);
      MissingDistinct(cur.items[n - 1], keys);
      BehindDistinct(Index(n - 1), Missing(cur.items[n - 1], keys));
      RowApart(cur, keys, n - 1);
      ApartConcat(MissingRows(cur, keys, n - 1), Behind(Index(n - 1), Missing(cur.items[n - 1], keys)));
    }
  }

  lemma RowApart(cur: Json, keys: seq<string>, n: nat)
    requires cur.Arr? && n < |cur.items| && keys != []
    ensures forall p :: p in MissingRows(cur, keys, n) ==> p !in Behind(Index(n), Missing(cur.items[n], keys))
  {
    forall p | p in MissingRows(cur, keys, n)
      ensures p !in Behind(Index(n), Missing(cur.items[n], keys))
    {
      RowsMember(cur, keys, n, p);
      BehindMember(Index(n), Missing(cur.items[n], keys), p);
    }
  }

  lemma ApartConcat(a: seq<Path>, b: seq<Path>)
    requires NoDuplicates(a) && NoDuplicates(b) && forall p :: p in a ==> p !in b
    ensures NoDuplicates(a + b)
  {
    var c := a + b;
    forall i, j | 0 <= i < j < |c|
      ensures c[i] != c[j]
    {
      if i < |a| <= j {
        assert c[i] in a && c[j] == b[j - |a|] && c[j] in b;
      }
    }
  }

  /** Nothing is reported below an empty array. */
  lemma EmptyArrayIsVacuous(doc: Json, keys: seq<string>, q: Path, p: Path)
    requires Lookup(doc, q) == Some(Arr([])) && q < p
    ensures p !in Missing(doc, keys)
  {
    MissingExact(doc, keys, p);
    BelowArray(doc, keys, q, p);
  }

  lemma BelowArray(doc: Json, keys: seq<string>, q: Path, p: Path)
    requires q < p && Lookup(doc, q).Some? && Lookup(doc, q).value.Arr?
    ensures Instance(doc, keys, p) ==> p[|q|].Index? && p[|q|].i < |Lookup(doc, q).value.items|
  {
    if Instance(doc, keys, p) {
      assert StepFits(doc, p[..|q|], p[|q|]) && p[..|q|] == q;
    }
  }

  // ------------------------------------------------------------------
  // The code, on printed paths
  // ------------------------------------------------------------------

  /** strings.Join(keys, "."). */
  function JoinDots(keys: seq<string>): string {
    if keys == [] then "" else if |keys| == 1 then keys[0] else JoinDots(keys[..|keys| - 1]) + "." + keys[|keys| - 1]
  }

  function PrintAll(at: Path, ps: seq<Path>): seq<string> {
    seq(|ps|, i requires 0 <= i < |ps| => JoinPath(at + ps[i]))
  }

  predicate Nonempty(keys: seq<string>) { "" !in keys }

  lemma {:induction false} NamePathSnoc(keys: seq<string>, k: string)
    ensures NamePath(keys + [k]) == NamePath(keys) + [Key(k)]
  {
    if keys != [] {
      assert (keys + [k])[0] == keys[0] && (keys + [k])[1..] == keys[1..] + [k];
      NamePathSnoc(keys[1..], k);
    } else {
      assert ([] + [k])[1..] == [];
    }
  }

  /** rest(): the prefix, a dot where there is one, and the names. */
  function Rest(prefix: string, keys: seq<string>): string {
    if prefix == "" then JoinDots(keys) else if keys == [] then prefix else prefix + "." + JoinDots(keys)
  }

  lemma DotAssoc(a: string, b: string, c: string)
    ensures a + "." + (b + "." + c) == a + "." + b + "." + c
  {
  }

  lemma RestSnoc(prefix: string, init: seq<string>, k: string)
    ensures Rest(prefix, init + [k]) ==
            if init == [] then (if prefix == "" then k else prefix + "." + k) else Rest(prefix, init) + "." + k
  {
    assert (init + [k])[..|init|] == init;
    if init == [] {
      assert [] + [k] == [k];
    } else {
      DotAssoc(prefix, JoinDots(init), k);
    }
  }

  lemma {:induction false} RestPrints(at: Path, keys: seq<string>)
    requires keys != [] && Nonempty(keys)
    ensures JoinPath(at + NamePath(keys)) == Rest(JoinPath(at), keys)
    ensures Rest(JoinPath(at), keys) != ""
    decreases |keys|
  {
    var init, k := keys[..|keys| - 1], keys[|keys| - 1];
    assert keys == init + [k] && k != "";
    RestSnoc(JoinPath(at), init, k);
    NamePathSnoc(init, k);
    assert at + NamePath(keys) == (at + NamePath(init)) + [Key(k)];
    JoinSnoc(at + NamePath(init), Key(k));
    if init == [] {
      assert at + NamePath(init) == at;
    } else {
      RestPrints(at, init);
    }
  }

  lemma PrintOne(at: Path, p: Path)
    ensures PrintAll(at, [p]) == [JoinPath(at + p)]
  {
  }

  lemma PrintConcat(at: Path, a: seq<Path>, b: seq<Path>)
    ensures PrintAll(at, a + b) == PrintAll(at, a) + PrintAll(at, b)
  {
  }

  lemma PrintBehind(at: Path, st: Step, ps: seq<Path>)
    ensures PrintAll(at, Behind(st, ps)) == PrintAll(at + [st], ps)
  {
    forall i | 0 <= i < |ps|
      ensures PrintAll(at, Behind(st, ps))[i] == PrintAll(at + [st], ps)[i]
    {
      assert at + ([st] + ps[i]) == (at + [st]) + ps[i];
    }
  }

  lemma Assoc(a: seq<string>, b: seq<string>, c: seq<string>)
    ensures (a + b) + c == a + (b + c)
  {
  }

  lemma RowPrints(at: Path, cur: Json, keys: seq<string>, i: nat)
    requires cur.Arr? && i < |cur.items| && keys != []
    ensures JoinPath(at + [Index(i)]) == JoinPath(at) + Printed(i)
    ensures PrintAll(at, MissingRows(cur, keys, i + 1)) ==
            PrintAll(at, MissingRows(cur, keys, i)) + PrintAll(at + [Index(i)], Missing(cur.items[i], keys))
  {
    JoinSnoc(at, Index(i));
    PrintConcat(at, MissingRows(cur, keys, i), Behind(Index(i), Missing(cur.items[i], keys)));
    PrintBehind(at, Index(i), Missing(cur.items[i], keys));
  }

  /** Appending the lines of one more row. */
  lemma RowAppends(at: Path, cur: Json, keys: seq<string>, i: nat, out0: seq<string>)
    requires cur.Arr? && i < |cur.items| && keys != []
    ensures JoinPath(at + [Index(i)]) == JoinPath(at) + Printed(i)
    ensures (out0 + PrintAll(at, MissingRows(cur, keys, i))) + PrintAll(at + [Index(i)], Missing(cur.items[i], keys))
         == out0 + PrintAll(at, MissingRows(cur, keys, i + 1))
  {
    RowPrints(at, cur, keys, i);
    Assoc(out0, PrintAll(at, MissingRows(cur, keys, i)), PrintAll(at + [Index(i)], Missing(cur.items[i], keys)));
  }

  /** missingRequired: appends the printed unfilled instances below `cur`. */
  method MissingRequired(cur: Json, keys: seq<string>, prefix: string, out0: seq<string>, ghost at: Path)
    returns (out: seq<string>)
    requires prefix == JoinPath(at) && Nonempty(keys)
    ensures out == out0 + PrintAll(at, Missing(cur, keys))
    decreases cur, |keys|, 1
  {
    if keys == [] {
      PrintOne(at, []);
      assert at + [] == at;
      return if IsEmptyValue(cur) then out0 + [prefix] else out0;
    }
    if cur.Arr? {
      out := MissingRequiredRows(cur, keys, prefix, out0, at);
      return;
    }
    if cur.Obj? && keys[0] in cur.fields {
      JoinSnoc(at, Key(keys[0]));
      PrintBehind(at, Key(keys[0]), Missing(cur.fields[keys[0]], keys[1..]));
      var next := if prefix != "" then prefix + "." + keys[0] else keys[0];
      out := MissingRequired(cur.fields[keys[0]], keys[1..], next, out0, at + [Key(keys[0])]);
      return;
    }
    RestPrints(at, keys);
    PrintOne(at, NamePath(keys));
    return out0 + [Rest(prefix, keys)];
  }

  method MissingRequiredRows(cur: Json, keys: seq<string>, prefix: string, out0: seq<string>, ghost at: Path)
    returns (out: seq<string>)
    requires prefix == JoinPath(at) && Nonempty(keys) && keys != [] && cur.Arr?
    ensures out == out0 + PrintAll(at, Missing(cur, keys))
    decreases cur, |keys|, 0
  {
    out := out0;
    for i := 0 to |cur.items|
      invariant out == out0 + PrintAll(at, MissingRows(cur, keys, i))
    {
      RowAppends(at, cur, keys, i, out0);
      out := MissingRequired(cur.items[i], keys, prefix + Printed(i), out, at + [Index(i)]);
    }
  }

  /** No list is longer than an int counts, as no Go slice is. */
  predicate Countable(v: Json) {
    match v
    case Obj(fields) => forall k :: k in fields ==> Countable(fields[k])
    case Arr(items) => |items| <= INT_LIMIT && forall i :: 0 <= i < |items| ==> Countable(items[i])
    case _ => true
  }

  predicate CleanKeys(keys: seq<string>) { forall i :: 0 <= i < |keys| ==> CleanKey(keys[i]) }

  lemma {:induction false} NamesClean(keys: seq<string>)
    requires CleanKeys(keys)
    ensures Clean(NamePath(keys))
  {
    if keys != [] {
      assert CleanKey(keys[0]);
      NamesClean(keys[1..]);
    }
  }

  lemma {:induction false} MissingClean(cur: Json, keys: seq<string>, p: Path)
    requires CleanKeys(keys) && Countable(cur) && p in Missing(cur, keys)
    ensures Clean(p)
    decreases cur, |keys|
  {
    if keys != [] {
      if cur.Obj? && keys[0] in cur.fields {
        BehindMember(Key(keys[0]), Missing(cur.fields[keys[0]], keys[1..]), p);
        assert CleanKey(keys[0]);
        MissingClean(cur.fields[keys[0]], keys[1..], p[1..]);
        assert p == [p[0]] + p[1..];
      } else if cur.Arr? {
        RowsMember(cur, keys, |cur.items|, p);
        MissingClean(cur.items[p[0].i], keys, p[1..]);
        assert p == [p[0]] + p[1..];
      } else {
        NamesClean(keys);
      }
    }
  }

  /** And no line is printed twice for one required path of clean names. */
  lemma LinesDistinct(doc: Json, keys: seq<string>)
    requires CleanKeys(keys) && Countable(doc)
    ensures var lines := PrintAll([], Missing(doc, keys));
            forall i, j :: 0 <= i < j < |lines| ==> lines[i] != lines[j]
  {
    var ps := Missing(doc, keys);
    MissingDistinct(doc, keys);
    forall i, j | 0 <= i < j < |ps|
      ensures JoinPath([] + ps[i]) != JoinPath([] + ps[j])
    {
      assert [] + ps[i] == ps[i] && [] + ps[j] == ps[j] && ps[i] != ps[j];
      MissingClean(doc, keys, ps[i]);
      MissingClean(doc, keys, ps[j]);
      if JoinPath(ps[i]) == JoinPath(ps[j]) {
        JoinInjective(ps[i], ps[j]);
      }
    }
  }

  /** The lines one required path contributes. */
  function Lines(doc: Json, path: string): seq<string> { PrintAll([], Missing(doc, SplitOn(path, '.'))) }

  function ReportOf(doc: Json, required: seq<string>): seq<string> {
    if required == [] then [] else ReportOf(doc, required[..|required| - 1]) + Lines(doc, required[|required| - 1])
  }

  /** stillMissing: the reports of all required paths, one after the other. */
  method StillMissing(doc: Json, required: seq<string>) returns (out: seq<string>)
    requires forall i :: 0 <= i < |required| ==> Nonempty(SplitOn(required[i], '.'))
    ensures out == ReportOf(doc, required)
  {
    out := [];
    for i := 0 to |required|
      invariant out == ReportOf(doc, required[..i])
    {
      out := MissingRequired(doc, SplitOn(required[i], '.'), "", out, []);
      assert required[..i + 1][..i] == required[..i];
    }
    assert required[..|required|] == required;
  }

  /** The strings reported for one required path are the printed unfilled instances of it, and no others. */
  lemma ReportExact(doc: Json, keys: seq<string>, s: string)
    ensures s in PrintAll([], Missing(doc, keys)) <==>
            exists p :: Instance(doc, keys, p) && Unfilled(doc, p) && s == JoinPath(p)
  {
    var ps := Missing(doc, keys);
    if s in PrintAll([], ps) {
      var i :| 0 <= i < |ps| && PrintAll([], ps)[i] == s;
      assert [] + ps[i] == ps[i] && ps[i] in ps;
      MissingExact(doc, keys, ps[i]);
    }
    if p :| Instance(doc, keys, p) && Unfilled(doc, p) && s == JoinPath(p) {
      MissingExact(doc, keys, p);
      var i :| 0 <= i < |ps| && ps[i] == p;
      assert [] + ps[i] == p;
      assert PrintAll([], ps)[i] == s;
    }
  }

  /** What is said of a document is what is said of it for each required path, and no more. */
  lemma {:induction false} AllReported(doc: Json, required: seq<string>, s: string)
    ensures s in ReportOf(doc, required) <==>
            exists i, p :: 0 <= i < |required| && Instance(doc, SplitOn(required[i], '.'), p) && Unfilled(doc, p)
                           && s == JoinPath(p)
    decreases |required|
  {
    if required != [] {
      var before, last := required[..|required| - 1], required[|required| - 1];
      AllReported(doc, before, s);
      ReportExact(doc, SplitOn(last, '.'), s);
      assert required == before + [last];
    }
  }
}
