/**
 The rotating audit log (internal/audit/rotate.go, internal/audit/audit.go).

 The log is a set of files: number 0 is the live one, number n the n-th rotated
 generation.  One process appends and rotates; it may die, or see an operation
 fail, after any rename.
 */
module AuditLog {

  /** One JSON line; `size` is its length in bytes, newline included. */
  datatype Record = Record(id: nat, size: nat, text: string)

  type File = seq<Record>
  type Files = map<nat, File>

  function Get(files: Files, n: nat): File { if n in files then files[n] else [] }

  function Size(f: File): nat { if f == [] then 0 else Size(f[..|f| - 1]) + f[|f| - 1].size }

  // ------------------------------------------------------------------
  // Rotation, one file operation at a time
  // ------------------------------------------------------------------

  datatype Op = Remove(n: nat) | Rename(from: nat, to: nat)

  /** A missing file is not an error; renaming replaces what is in the way. */
  function Do(files: Files, op: Op): Files {
    match op
    case Remove(n) => files - {n}
    case Rename(from, to) => if from in files then (files - {from})[to := files[from]] else files
  }

  function DoAll(files: Files, ops: seq<Op>): Files {
    if ops == [] then files else Do(DoAll(files, ops[..|ops| - 1]), ops[|ops| - 1])
  }

  /** rotate: drop the oldest generation, then shift every file up, the live one last. */
  function RotateOps(generations: nat): (ops: seq<Op>)
    ensures |ops| == generations + 1
    ensures forall k :: 0 <= k <= generations ==> ops[k] == RotateOp(generations, k)
  {
    seq(generations + 1, k requires 0 <= k <= generations => RotateOp(generations, k))
  }

  function RotateOp(generations: nat, k: nat): Op
    requires k <= generations
  {
    if k == 0 then Remove(generations) else Rename(generations - k, generations - k + 1)
  }

  /** The files once the first `k` operations of a rotation have run. */
  function After(files: Files, g: nat, k: nat): Files
    requires k <= g + 1
  {
    DoAll(files, RotateOps(g)[..k])
  }

  lemma OneMore(files: Files, g: nat, k: nat)
    requires k <= g
    ensures After(files, g, 0) == files
    ensures After(files, g, k + 1) == Do(After(files, g, k), RotateOp(g, k))
  {
    assert RotateOps(g)[..k + 1][..k] == RotateOps(g)[..k];
  }

  /** The history the files hold: oldest generation first, the live file last. */
  function OldestFirst(files: Files, generations: nat): File {
    if generations == 0 then Get(files, 0) else Get(files, generations) + OldestFirst(files, generations - 1)
  }

  ghost predicate Bounded(files: Files, generations: nat) { forall n :: n in files ==> n <= generations }

  lemma {:induction false} SameFiles(a: Files, b: Files, g: nat)
    requires forall n :: 0 <= n <= g ==> Get(a, n) == Get(b, n)
    ensures OldestFirst(a, g) == OldestFirst(b, g)
  {
    if g > 0 {
      SameFiles(a, b, g - 1);
    }
  }

  /** Moving a file up into an empty place does not change the order. */
  lemma {:induction false} MoveUp(files: Files, n: nat, g: nat)
    requires n + 1 <= g && Get(files, n + 1) == []
    ensures OldestFirst(Do(files, Rename(n, n + 1)), g) == OldestFirst(files, g)
  {
    var files' := Do(files, Rename(n, n + 1));
    if g > n + 1 {
      MoveUp(files, n, g - 1);
    } else {
      assert Get(files', n + 1) == Get(files, n) && Get(files', n) == [];
      if n > 0 {
        SameFiles(files', files, n - 1);
      }
    }
  }

  /** After `k` operations: generation `g + 1 - k` is vacant and only the oldest file is gone. */
  lemma {:induction false} AfterOps(files: Files, g: nat, k: nat)
    requires g >= 1 && Bounded(files, g) && k <= g + 1
    ensures var f := After(files, g, k);
            && Bounded(f, g)
            && (k > 0 ==> g + 1 - k !in f)
            && OldestFirst(files, g) == (if k == 0 then [] else Get(files, g)) + OldestFirst(f, g)
  {
    OneMore(files, g, if k == 0 then 0 else k - 1);
    if k > 0 {
      AfterOps(files, g, k - 1);
      var f0, f := After(files, g, k - 1), After(files, g, k);
      if k == 1 {
        SameFiles(f, files, g - 1);
      } else {
        MoveUp(f0, g + 1 - k, g);
      }
    }
  }

  ghost predicate IsSuffix(s: File, whole: File) { exists k :: 0 <= k <= |whole| && s == whole[k..] }

  /**
   Crash safety: whatever prefix of a rotation has run, the files read oldest to
   newest are a contiguous end of what they held before, and all of it but the
   oldest generation is still there.
   */
  lemma RotationKeepsHistory(files: Files, g: nat, k: nat)
    requires g >= 1 && Bounded(files, g) && k <= g + 1
    ensures var f := After(files, g, k);
            && IsSuffix(OldestFirst(f, g), OldestFirst(files, g))
            && |OldestFirst(files, g)| - |OldestFirst(f, g)| == if k == 0 then 0 else |Get(files, g)|
  {
    AfterOps(files, g, k);
    var lost := if k == 0 then [] else Get(files, g);
    assert OldestFirst(files, g)[|lost|..] == OldestFirst(After(files, g, k), g);
  }

  lemma SuffixTransitive(a: File, b: File, c: File)
    requires IsSuffix(a, b) && IsSuffix(b, c)
    ensures IsSuffix(a, c)
  {
    var j :| 0 <= j <= |b| && a == b[j..];
    var k :| 0 <= k <= |c| && b == c[k..];
    assert a == c[k + j..];
  }

  lemma SuffixAppend(a: File, b: File, e: Record)
    requires IsSuffix(a, b)
    ensures IsSuffix(a + [e], b + [e])
  {
    var k :| 0 <= k <= |b| && a == b[k..];
    assert a + [e] == (b + [e])[k..];
  }

  lemma {:induction false} AppendLive(files: Files, g: nat, e: Record)
    ensures OldestFirst(files[0 := Get(files, 0) + [e]], g) == OldestFirst(files, g) + [e]
  {
    if g > 0 {
      AppendLive(files, g - 1, e);
      assert Get(files, g) + (OldestFirst(files, g - 1) + [e]) == Get(files, g) + OldestFirst(files, g - 1) + [e];
    }
  }

  // ------------------------------------------------------------------
  // The logger
  // ------------------------------------------------------------------

  class Logger {
    const maxBytes: nat
    const generations: nat
    var files: Files
    /** Every record ever appended, in order. */
    ghost var history: File

    ghost predicate Valid()
      reads this
    {
      && generations >= 1 && Bounded(files, generations)
      && IsSuffix(OldestFirst(files, generations), history)
    }

    constructor (maxBytes: nat, generations: nat)
      requires generations >= 1
      ensures Valid() && files == map[] && history == []
      ensures this.maxBytes == maxBytes && this.generations == generations
    {
      this.maxBytes, this.generations := maxBytes, generations;
      files := map[];
      history := [];
      new;
      NoFiles(generations);
      assert OldestFirst(files, generations) == history[0..];
    }

    /**
     rotate.  `allowed` is how many file operations run before the process dies or
     one of them fails for good.
     */
    method Rotate(allowed: nat) returns (done: bool)
      requires Valid()
      modifies this`files
      ensures Valid()
      ensures done <==> allowed > generations
      ensures files == After(old(files), generations, if done then generations + 1 else allowed)
      ensures done ==> 0 !in files
    {
      OneMore(files, generations, 0);
      if allowed == 0 {
        return false;
      }
      files := Do(files, Remove(generations));
      var n := generations;
      while n >= 1
        invariant 0 <= n <= generations && generations - n + 1 <= allowed
        invariant files == After(old(files), generations, generations - n + 1)
      {
        if generations - n + 1 == allowed {
          StillValid(old(files), generations, allowed, history);
          return false;
        }
        OneMore(old(files), generations, generations - n + 1);
        files := Do(files, Rename(n - 1, n));
        n := n - 1;
      }
      StillValid(old(files), generations, generations + 1, history);
      AfterOps(old(files), generations, generations + 1);
      return true;
    }

    /** A line of this size does not push the live file past the limit, or there is none yet. */
    predicate Fits(incoming: nat)
      reads this
    {
      0 !in files || Size(files[0]) + incoming <= maxBytes
    }

    /** The files once `done` operations of a rotation have run. */
    ghost function Rotating(count: nat): Files
      requires count <= generations + 1
      reads this
    {
      After(files, generations, count)
    }

    /** rotateIfNeeded. */
    method RotateIfNeeded(incoming: nat, allowed: nat) returns (done: bool)
      requires Valid()
      modifies this`files
      ensures Valid()
      ensures done <==> old(Fits(incoming)) || allowed > generations
      ensures old(Fits(incoming)) ==> files == old(files)
      ensures !old(Fits(incoming)) ==>
              files == old(Rotating(if allowed > generations then generations + 1 else allowed))
      ensures done ==> Fits(incoming)
    {
      if 0 !in files {
        return true;
      }
      if Size(files[0]) + incoming <= maxBytes {
        return true;
      }
      done := Rotate(allowed);
    }

    /**
     write: rotate first when the line would push the file past maxBytes, then
     append.  A rotation that does not finish appends nothing.
     */
    method Write(e: Record, allowed: nat) returns (ok: bool)
      requires Valid()
      modifies this
      ensures Valid()
      ensures ok <==> old(Fits(e.size)) || allowed > generations
      ensures history == old(history) + if ok then [e] else []
      ensures old(Fits(e.size)) ==> files == old(files[0 := Get(files, 0) + [e]])
      ensures !old(Fits(e.size)) && ok ==> files == old(Rotating(generations + 1))[0 := [e]]
      ensures !ok ==> files == old(Rotating(allowed))
      ensures ok ==> Size(files[0]) <= maxBytes || files[0] == [e]
      ensures 0 in old(files) && Size(old(files)[0]) + e.size <= maxBytes ==>
                ok && files == old(files)[0 := old(files)[0] + [e]]
      ensures 0 !in old(files) ==> ok && files == old(files)[0 := [e]]
    {
      ok := RotateIfNeeded(e.size, allowed);
      if !ok {
        return;
      }
      StillHistory(files, generations, history, e);
      SizeAppend(Get(files, 0), e);
      files := files[0 := Get(files, 0) + [e]];
      history := history + [e];
    }
  }

  lemma StillHistory(files: Files, g: nat, history: File, e: Record)
    requires Bounded(files, g) && IsSuffix(OldestFirst(files, g), history)
    ensures var f := files[0 := Get(files, 0) + [e]];
            Bounded(f, g) && IsSuffix(OldestFirst(f, g), history + [e])
  {
    AppendLive(files, g, e);
    SuffixAppend(OldestFirst(files, g), history, e);
  }

  lemma {:induction false} NoFiles(g: nat)
    ensures OldestFirst(map[], g) == []
  {
    if g > 0 {
      NoFiles(g - 1);
    }
  }

  lemma SizeAppend(f: File, e: Record)
    ensures Size(f + [e]) == Size(f) + e.size
  {
    assert (f + [e])[..|f|] == f;
  }

  lemma StillValid(files: Files, g: nat, k: nat, history: File)
    requires g >= 1 && Bounded(files, g) && k <= g + 1 && IsSuffix(OldestFirst(files, g), history)
    ensures var f := After(files, g, k);
            Bounded(f, g) && IsSuffix(OldestFirst(f, g), history)
  {
    AfterOps(files, g, k);
    RotationKeepsHistory(files, g, k);
    SuffixTransitive(OldestFirst(After(files, g, k), g), OldestFirst(files, g), history);
  }

  // ------------------------------------------------------------------
  // Tail
  // ------------------------------------------------------------------

  function Filter(f: File, matches: Record -> bool): File {
    if f == [] then [] else Filter(f[..|f| - 1], matches) + if matches(f[|f| - 1]) then [f[|f| - 1]] else []
  }

  function LastN(f: File, n: nat): File { if |f| > n then f[|f| - n..] else f }

  /** The last n records, or all of them when there are no more. */
  lemma LastNIs(f: File, n: nat)
    ensures |LastN(f, n)| == if |f| < n then |f| else n
    ensures forall i :: 0 <= i < |LastN(f, n)| ==> LastN(f, n)[i] == f[|f| - |LastN(f, n)| + i]
  {
  }

  const DEFAULT_TAIL: nat := 20

  /** Generations 1, 2, … g, in that order. */
  function NewestFirst(files: Files, g: nat): File {
    if g == 0 then [] else NewestFirst(files, g - 1) + Get(files, g)
  }

  /** Generations g, … 2, 1. */
  function Rotated(files: Files, g: nat): File {
    if g == 0 then [] else Get(files, g) + Rotated(files, g - 1)
  }

  lemma {:induction false} OldestFirstSplits(files: Files, g: nat)
    ensures OldestFirst(files, g) == Rotated(files, g) + Get(files, 0)
  {
    if g > 0 {
      OldestFirstSplits(files, g - 1);
    }
  }

  lemma FilterAppend(f: File, e: Record, matches: Record -> bool)
    ensures Filter(f + [e], matches) == Filter(f, matches) + if matches(e) then [e] else []
  {
    assert (f + [e])[..|f|] == f;
  }

  lemma {:induction false} FilterConcat(a: File, b: File, matches: Record -> bool)
    ensures Filter(a + b, matches) == Filter(a, matches) + Filter(b, matches)
    decreases |b|
  {
    if b == [] {
      assert a + b == a;
    } else {
      var b', e := b[..|b| - 1], b[|b| - 1];
      assert a + b == (a + b') + [e] && b == b' + [e];
      FilterAppend(a + b', e, matches);
      FilterAppend(b', e, matches);
      FilterConcat(a, b', matches);
    }
  }

  /**
   Tail, as shipped: the loop counts the generations down and puts each file in
   front of the list, so the files are read in the order 1, 2, … g, live.
   */
  method Tail(files: Files, generations: nat, n: int, includeRotated: bool, matches: Record -> bool)
    returns (out: File)
    ensures out == LastN(Filter((if includeRotated then NewestFirst(files, generations) else [])
                                + Get(files, 0), matches),
                         if n <= 0 then DEFAULT_TAIL else n)
  {
    var limit := if n <= 0 then DEFAULT_TAIL else n;
    var names := TailNames(files, generations, includeRotated);
    out := ReadAll(files, names, matches);
    if |out| > limit {
      out := out[|out| - limit..];
    }
  }

  /** The files Tail reads, in its order. */
  method TailNames(files: Files, generations: nat, includeRotated: bool) returns (names: seq<nat>)
    ensures Contents(files, names) == (if includeRotated then NewestFirst(files, generations) else []) + Get(files, 0)
  {
    names := [0];
    OneName(files, 0);
    if includeRotated {
      var i := generations;
      while i >= 1
        invariant 0 <= i <= generations
        invariant Contents(files, names) == Between(files, i, generations) + Get(files, 0)
      {
        ReadFirst(files, i, names);
        BetweenFirst(files, i, generations);
        Associate(Get(files, i), Between(files, i, generations), Get(files, 0));
        names := [i] + names;
        i := i - 1;
      }
      AllBetween(files, generations);
    }
  }

  lemma OneName(files: Files, n: nat)
    ensures Contents(files, [n]) == [] + Get(files, n)
  {
    assert [n][..0] == [];
  }

  lemma Associate(a: File, b: File, c: File)
    ensures (a + b) + c == a + (b + c)
  {
  }

  method ReadAll(files: Files, names: seq<nat>, matches: Record -> bool) returns (out: File)
    ensures out == Filter(Contents(files, names), matches)
  {
    out := [];
    for k := 0 to |names|
      invariant out == Filter(Contents(files, names[..k]), matches)
    {
      ReadLast(files, names[..k], names[k]);
      FilterConcat(Contents(files, names[..k]), Get(files, names[k]), matches);
      out := ReadMatching(Get(files, names[k]), matches, out);
      assert names[..k + 1] == names[..k] + [names[k]];
    }
    assert names[..|names|] == names;
  }

  /** The events of one file that match, appended. */
  method ReadMatching(f: File, matches: Record -> bool, out0: File) returns (out: File)
    ensures out == out0 + Filter(f, matches)
  {
    out := out0;
    for i := 0 to |f|
      invariant out == out0 + Filter(f[..i], matches)
    {
      assert f[..i + 1] == f[..i] + [f[i]];
      FilterAppend(f[..i], f[i], matches);
      if matches(f[i]) {
        out := out + [f[i]];
      }
    }
    assert f[..|f|] == f;
  }

  /** The files of a list, one after the other. */
  function Contents(files: Files, names: seq<nat>): File {
    if names == [] then [] else Contents(files, names[..|names| - 1]) + Get(files, names[|names| - 1])
  }

  lemma ReadLast(files: Files, names: seq<nat>, n: nat)
    ensures Contents(files, names + [n]) == Contents(files, names) + Get(files, n)
  {
    assert (names + [n])[..|names|] == names;
  }

  lemma {:induction false} ReadFirst(files: Files, n: nat, names: seq<nat>)
    ensures Contents(files, [n] + names) == Get(files, n) + Contents(files, names)
    decreases |names|
  {
    if names == [] {
      OneName(files, n);
      assert [n] + names == [n];
    } else {
      var init, last := names[..|names| - 1], names[|names| - 1];
      ReadFirst(files, n, init);
      assert [n] + names == ([n] + init) + [last];
      ReadLast(files, [n] + init, last);
      Associate(Get(files, n), Contents(files, init), Get(files, last));
    }
  }

  /** Generations i + 1 … g, upwards. */
  function Between(files: Files, i: nat, g: nat): File
    requires i <= g
    decreases g - i
  {
    if i == g then [] else Between(files, i, g - 1) + Get(files, g)
  }

  lemma {:induction false} BetweenFirst(files: Files, i: nat, g: nat)
    requires 1 <= i <= g
    ensures Between(files, i - 1, g) == Get(files, i) + Between(files, i, g)
    decreases g - i
  {
    if i < g {
      BetweenFirst(files, i, g - 1);
    } else {
      assert Between(files, g - 1, g - 1) == [];
    }
  }

  lemma {:induction false} AllBetween(files: Files, g: nat)
    ensures Between(files, 0, g) == NewestFirst(files, g)
  {
    if g > 0 {
      AllBetween(files, g - 1);
    }
  }

  // ------------------------------------------------------------------
  // The order Tail means, and when the shipped one agrees
  // ------------------------------------------------------------------

  /** The matching records of generation n. */
  function Hits(files: Files, matches: Record -> bool): nat -> File { (n: nat) => Filter(Get(files, n), matches) }

  /** What the shipped order collects from the rotated files, `hits` being what each of them has. */
  function ShippedHits(hits: nat -> File, g: nat): File {
    if g == 0 then [] else ShippedHits(hits, g - 1) + hits(g)
  }

  /** What the append order collects from them. */
  function OrderedHits(hits: nat -> File, g: nat): File {
    if g == 0 then [] else hits(g) + OrderedHits(hits, g - 1)
  }

  lemma {:induction false} CollectHits(files: Files, matches: Record -> bool, g: nat)
    ensures Filter(NewestFirst(files, g), matches) == ShippedHits(Hits(files, matches), g)
    ensures Filter(Rotated(files, g), matches) == OrderedHits(Hits(files, matches), g)
  {
    if g > 0 {
      CollectHits(files, matches, g - 1);
      FilterConcat(NewestFirst(files, g - 1), Get(files, g), matches);
      FilterConcat(Get(files, g), Rotated(files, g - 1), matches);
    }
  }

  /** The last N matching records of the files, in the order they were appended. */
  function TailMeant(files: Files, g: nat, n: nat, matches: Record -> bool): File {
    LastN(Filter(OldestFirst(files, g), matches), n)
  }

  function TailShipped(files: Files, g: nat, n: nat, matches: Record -> bool): File {
    LastN(Filter(NewestFirst(files, g) + Get(files, 0), matches), n)
  }

  /**
   What is meant is right: read oldest first, the last N matches of the files are
   the last N matches of everything ever appended, or all matches still on disk
   when fewer than N are.
   */
  lemma MeantTailIsHistoryTail(files: Files, g: nat, n: nat, matches: Record -> bool, history: File)
    requires IsSuffix(OldestFirst(files, g), history)
    ensures |Filter(OldestFirst(files, g), matches)| >= n ==>
              TailMeant(files, g, n, matches) == LastN(Filter(history, matches), n)
    ensures |Filter(OldestFirst(files, g), matches)| < n ==>
              TailMeant(files, g, n, matches) == Filter(OldestFirst(files, g), matches)
    ensures IsSuffix(TailMeant(files, g, n, matches), Filter(history, matches))
  {
    var k :| 0 <= k <= |history| && OldestFirst(files, g) == history[k..];
    FilterSplit(history, k, matches);
    LastNOfConcat(Filter(history[..k], matches), Filter(OldestFirst(files, g), matches), n);
  }

  lemma FilterSplit(f: File, k: nat, matches: Record -> bool)
    requires k <= |f|
    ensures Filter(f, matches) == Filter(f[..k], matches) + Filter(f[k..], matches)
  {
    FilterParts(f, f[..k], f[k..], matches);
  }

  lemma FilterParts(f: File, a: File, b: File, matches: Record -> bool)
    requires f == a + b
    ensures Filter(f, matches) == Filter(a, matches) + Filter(b, matches)
  {
    FilterConcat(a, b, matches);
  }

  lemma LastNOfConcat(a: File, b: File, n: nat)
    ensures |b| >= n ==> LastN(b, n) == LastN(a + b, n)
    ensures |b| < n ==> LastN(b, n) == b
    ensures IsSuffix(LastN(b, n), a + b)
  {
    var t := LastN(b, n);
    assert t == (a + b)[|a + b| - |t|..];
  }

  predicate NoHits(hits: nat -> File, n: nat) { hits(n) == [] }

  function Last(f: File): Record
    requires f != []
  {
    f[|f| - 1]
  }

  lemma LastOfConcat(a: File, b: File)
    ensures b != [] ==> a + b != [] && Last(a + b) == Last(b)
    ensures b == [] ==> a + b == a
  {
  }

  /** The shipped order ends with the oldest generation that has a match. */
  lemma {:induction false} ShippedEnds(hits: nat -> File, g: nat) returns (j: nat)
    requires ShippedHits(hits, g) != []
    ensures 1 <= j <= g && hits(j) != []
    ensures forall k :: j < k <= g ==> NoHits(hits, k)
    ensures Last(ShippedHits(hits, g)) == Last(hits(j))
  {
    LastOfConcat(ShippedHits(hits, g - 1), hits(g));
    if hits(g) != [] {
      return g;
    }
    j := ShippedEnds(hits, g - 1);
  }

  /** The append order ends with the newest. */
  lemma {:induction false} OrderedEnds(hits: nat -> File, g: nat) returns (i: nat)
    requires OrderedHits(hits, g) != []
    ensures 1 <= i <= g && hits(i) != []
    ensures forall k :: 1 <= k < i ==> NoHits(hits, k)
    ensures Last(OrderedHits(hits, g)) == Last(hits(i))
  {
    LastOfConcat(hits(g), OrderedHits(hits, g - 1));
    if OrderedHits(hits, g - 1) != [] {
      i := OrderedEnds(hits, g - 1);
    } else {
      NoneOrdered(hits, g - 1);
      return g;
    }
  }

  lemma {:induction false} NoneOrdered(hits: nat -> File, g: nat)
    ensures OrderedHits(hits, g) == [] <==> forall k :: 1 <= k <= g ==> NoHits(hits, k)
  {
    if g > 0 {
      NoneOrdered(hits, g - 1);
      assert OrderedHits(hits, g) == [] <==> NoHits(hits, g) && OrderedHits(hits, g - 1) == [];
    }
  }

  /** Apart from generation `j`, no rotated file has a match. */
  ghost predicate OnlyGeneration(hits: nat -> File, g: nat, j: int) {
    forall k :: 1 <= k <= g && k != j ==> NoHits(hits, k)
  }

  /** At most one rotated generation holds a match. */
  ghost predicate OneGeneration(hits: nat -> File, g: nat) { exists j: int :: OnlyGeneration(hits, g, j) }

  lemma {:induction false} OneGenerationAgrees(hits: nat -> File, g: nat, j: int)
    requires OnlyGeneration(hits, g, j)
    ensures ShippedHits(hits, g) == OrderedHits(hits, g) == if 1 <= j <= g then hits(j) else []
  {
    if g > 0 {
      OneGenerationAgrees(hits, g - 1, j);
      if g != j {
        assert NoHits(hits, g);
      }
    }
  }

  lemma {:induction false} SameCount(hits: nat -> File, g: nat)
    ensures |ShippedHits(hits, g)| == |OrderedHits(hits, g)|
  {
    if g > 0 {
      SameCount(hits, g - 1);
    }
  }

  function FileOf(files: Files): nat -> File { (n: nat) => Get(files, n) }

  /** No record is in two generations. */
  ghost predicate Apart(file: nat -> File, g: nat) {
    forall i, j, e :: 1 <= i < j <= g && e in file(i) ==> e !in file(j)
  }

  ghost predicate Distinct(f: File) { forall i, j :: 0 <= i < j < |f| ==> f[i] != f[j] }

  /** Records that differ across the whole history are apart in the files that hold the end of it. */
  lemma HistoryApart(files: Files, g: nat, history: File)
    requires IsSuffix(OldestFirst(files, g), history) && Distinct(history)
    ensures Apart(FileOf(files), g)
  {
    var k :| 0 <= k <= |history| && OldestFirst(files, g) == history[k..];
    forall i, j, e | 1 <= i < j <= g && e in Get(files, i)
      ensures e !in Get(files, j)
    {
      var a, mid, b := TwoFiles(files, i, j, g);
      assert OldestFirst(files, g) == (a + Get(files, j) + mid) + Get(files, i) + b;
      NotTwice(a, Get(files, j), mid, Get(files, i), b, e);
    }
  }

  lemma NotTwice(a: File, x: File, mid: File, y: File, b: File, e: Record)
    requires Distinct(a + x + mid + y + b) && e in y
    ensures e !in x
  {
    var whole := a + x + mid + y + b;
    forall p, q | 0 <= p < |x| && 0 <= q < |y|
      ensures x[p] != y[q]
    {
      assert whole[|a| + p] == x[p] && whole[|a| + |x| + |mid| + q] == y[q];
    }
  }

  /** Generation j is read before generation i < j. */
  lemma {:induction false} TwoFiles(files: Files, i: nat, j: nat, g: nat) returns (a: File, mid: File, b: File)
    requires i < j <= g
    ensures OldestFirst(files, g) == a + Get(files, j) + mid + Get(files, i) + b
  {
    if j < g {
      a, mid, b := TwoFiles(files, i, j, g - 1);
      Associate5(Get(files, g), a, Get(files, j), mid, Get(files, i), b);
      a := Get(files, g) + a;
    } else {
      mid, b := OneFile(files, i, j - 1);
      a := [];
      assert Get(files, j) + (mid + Get(files, i) + b) == a + Get(files, j) + mid + Get(files, i) + b;
    }
  }

  lemma {:induction false} OneFile(files: Files, i: nat, g: nat) returns (a: File, b: File)
    requires i <= g
    ensures OldestFirst(files, g) == a + Get(files, i) + b
  {
    if i == g {
      a, b := [], if g == 0 then [] else OldestFirst(files, g - 1);
    } else {
      a, b := OneFile(files, i, g - 1);
      assert Get(files, g) + (a + Get(files, i) + b) == (Get(files, g) + a) + Get(files, i) + b;
      a := Get(files, g) + a;
    }
  }

  lemma Associate5(f: File, a: File, x: File, mid: File, y: File, b: File)
    ensures f + (a + x + mid + y + b) == (f + a) + x + mid + y + b
  {
  }

  lemma {:induction false} FilterMember(f: File, matches: Record -> bool, e: Record)
    requires e in Filter(f, matches)
    ensures e in f
  {
    if f != [] && e in Filter(f[..|f| - 1], matches) {
      FilterMember(f[..|f| - 1], matches, e);
    }
  }

  lemma NotAMember(f: File, matches: Record -> bool, e: Record)
    requires e !in f
    ensures e !in Filter(f, matches)
  {
    if e in Filter(f, matches) {
      FilterMember(f, matches, e);
    }
  }

  lemma HitsApart(files: Files, matches: Record -> bool, g: nat)
    requires Apart(FileOf(files), g)
    ensures Apart(Hits(files, matches), g)
  {
    var file := FileOf(files);
    forall i, j, e | 1 <= i < j <= g && e in Hits(files, matches)(i)
      ensures e !in Hits(files, matches)(j)
    {
      FilterMember(Get(files, i), matches, e);
      assert e in file(i);
      assert e !in file(j);
      NotAMember(Get(files, j), matches, e);
    }
  }

  /**
   When the shipped order agrees.  With rotated files included, Tail returns what
   it means to if and only if the live file alone has N matches, or at most one
   rotated generation has a match at all.
   */
  lemma ShippedAgreesIff(files: Files, g: nat, n: nat, matches: Record -> bool)
    requires n > 0 && Apart(FileOf(files), g)
    ensures TailShipped(files, g, n, matches) == TailMeant(files, g, n, matches) <==>
            |Hits(files, matches)(0)| >= n || OneGeneration(Hits(files, matches), g)
  {
    OldestFirstSplits(files, g);
    CollectHits(files, matches, g);
    FilterConcat(NewestFirst(files, g), Get(files, 0), matches);
    FilterConcat(Rotated(files, g), Get(files, 0), matches);
    HitsApart(files, matches, g);
    OrdersAgreeIff(Hits(files, matches), g, n, Hits(files, matches)(0));
  }

  lemma OrdersAgreeIff(hits: nat -> File, g: nat, n: nat, live: File)
    requires n > 0 && Apart(hits, g)
    ensures LastN(ShippedHits(hits, g) + live, n) == LastN(OrderedHits(hits, g) + live, n) <==>
            |live| >= n || OneGeneration(hits, g)
  {
    var s, t := ShippedHits(hits, g), OrderedHits(hits, g);
    SameCount(hits, g);
    if |live| >= n {
      LastNOfLive(s, live, n);
      LastNOfLive(t, live, n);
    } else if OneGeneration(hits, g) {
      var j: int :| OnlyGeneration(hits, g, j);
      OneGenerationAgrees(hits, g, j);
    } else {
      TwoGenerationsDiffer(hits, g);
      LastNSeesBefore(s, t, live, n);
    }
  }

  lemma LastNOfLive(s: File, live: File, n: nat)
    requires |live| >= n
    ensures LastN(s + live, n) == live[|live| - n..]
  {
  }

  lemma TwoGenerationsDiffer(hits: nat -> File, g: nat)
    requires Apart(hits, g) && !OneGeneration(hits, g)
    ensures ShippedHits(hits, g) != [] && OrderedHits(hits, g) != []
    ensures Last(ShippedHits(hits, g)) != Last(OrderedHits(hits, g))
  {
    NoneOrdered(hits, g);
    SameCount(hits, g);
    assert !OnlyGeneration(hits, g, 0);
    var j := ShippedEnds(hits, g);
    var i := OrderedEnds(hits, g);
    assert i != j by {
      assert i == j ==> OnlyGeneration(hits, g, j);
    }
    assert Last(hits(j)) in hits(j) && Last(hits(i)) in hits(i);
  }

  lemma LastNSeesBefore(s: File, t: File, live: File, n: nat)
    requires |s| == |t| && s != [] && |live| < n && Last(s) != Last(t)
    ensures LastN(s + live, n) != LastN(t + live, n)
  {
    var a, b := LastN(s + live, n), LastN(t + live, n);
    assert |a| == |b| > |live|;
    assert a[|a| - |live| - 1] == Last(s) && b[|b| - |live| - 1] == Last(t);
  }
}
