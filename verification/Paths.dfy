/**
 Path strings ("layout[0].blockType"): joinPath prints them, splitPath reads them,
 lookupPath and firstMissingPrefix use them (internal/cli/create.go).
 */
module Paths {
  import opened Wrappers
  import opened Json

  // ------------------------------------------------------------------
  // Text helpers
  // ------------------------------------------------------------------

  datatype Cut = NoCut | Cut(before: string, after: string)

  /** What lies before and after the first occurrence of a character. */
  function CutAt(s: string, c: char): (r: Cut)
    ensures r.Cut? ==> |r.before| < |s| && |r.after| < |s|
  {
    if s == "" then NoCut
    else if s[0] == c then Cut("", s[1..])
    else
      match CutAt(s[1..], c)
      case NoCut => NoCut
      case Cut(a, b) => Cut([s[0]] + a, b)
  }

  predicate Without(s: string, c: char) { forall i :: 0 <= i < |s| ==> s[i] != c }

  lemma {:induction false} CutNone(s: string, c: char)
    ensures CutAt(s, c).NoCut? <==> Without(s, c)
  {
    if s != "" && s[0] != c {
      CutNone(s[1..], c);
      assert Without(s[1..], c) ==> forall i :: 0 < i < |s| ==> s[i] == s[1..][i - 1];
      assert Without(s, c) ==> Without(s[1..], c);
    }
  }

  /** The first occurrence in `a + [c] + b` is the one after `a`, when `a` is without it. */
  lemma {:induction false} CutIs(a: string, c: char, b: string)
    requires Without(a, c)
    ensures CutAt(a + [c] + b, c) == Cut(a, b)
  {
    var s := a + [c] + b;
    if a == "" {
      assert s[1..] == b;
    } else {
      assert s[0] == a[0] && s[1..] == a[1..] + [c] + b;
      CutIs(a[1..], c, b);
      assert [a[0]] + a[1..] == a;
    }
  }

  /** Text appended behind the first occurrence stays behind it. */
  lemma {:induction false} CutAppend(s: string, c: char, u: string)
    requires CutAt(s, c).Cut?
    ensures CutAt(s + u, c) == Cut(CutAt(s, c).before, CutAt(s, c).after + u)
  {
    assert (s + u)[1..] == s[1..] + u;
    if s[0] != c {
      CutAppend(s[1..], c, u);
    }
  }

  /** strings.Split on one character: at least one part. */
  function SplitOn(s: string, c: char): (parts: seq<string>)
    ensures |parts| >= 1
    decreases |s|
  {
    match CutAt(s, c)
    case NoCut => [s]
    case Cut(a, b) => [a] + SplitOn(b, c)
  }

  /** The parts, but for the last one. */
  function Init(parts: seq<string>): seq<string>
    requires parts != []
  {
    parts[..|parts| - 1]
  }

  function Last(parts: seq<string>): string
    requires parts != []
  {
    parts[|parts| - 1]
  }

  lemma ConsLast(x: string, parts: seq<string>)
    requires parts != []
    ensures Init([x] + parts) == [x] + Init(parts) && Last([x] + parts) == Last(parts)
  {
  }

  /** Text without the separator only lengthens the last part. */
  lemma {:induction false} SplitLast(s: string, c: char, u: string)
    requires Without(u, c)
    ensures SplitOn(s + u, c) == Init(SplitOn(s, c)) + [Last(SplitOn(s, c)) + u]
    decreases |s|
  {
    match CutAt(s, c)
    case NoCut =>
      CutNone(s, c);
      CutNone(s + u, c);
    case Cut(a, b) =>
      CutAppend(s, c, u);
      SplitLast(b, c, u);
      ConsLast(a, SplitOn(b, c));
      assert [a] + (Init(SplitOn(b, c)) + [Last(SplitOn(b, c)) + u])
          == ([a] + Init(SplitOn(b, c))) + [Last(SplitOn(b, c)) + u];
  }

  /** A separator starts new parts. */
  lemma {:induction false} SplitAt(s: string, c: char, u: string)
    ensures SplitOn(s + [c] + u, c) == SplitOn(s, c) + SplitOn(u, c)
    decreases |s|
  {
    match CutAt(s, c)
    case NoCut =>
      CutNone(s, c);
      CutIs(s, c, u);
    case Cut(a, b) =>
      assert s + [c] + u == s + ([c] + u);
      CutAppend(s, c, [c] + u);
      assert b + ([c] + u) == b + [c] + u;
      SplitAt(b, c, u);
      assert [a] + (SplitOn(b, c) + SplitOn(u, c)) == ([a] + SplitOn(b, c)) + SplitOn(u, c);
  }

  // ------------------------------------------------------------------
  // Decimal numbers
  // ------------------------------------------------------------------

  const DIGITS := "0123456789"
  const INT_LIMIT: nat := 0x8000_0000_0000_0000

  function Itoa(n: nat): (s: string)
    ensures s != "" && forall i :: 0 <= i < |s| ==> '0' <= s[i] <= '9'
  {
    if n < 10 then [DIGITS[n]] else Itoa(n / 10) + [DIGITS[n % 10]]
  }

  function DigitValue(c: char): Option<nat> {
    if '0' <= c <= '9' then Some((c - '0') as int) else None
  }

  function ParseDigits(s: string): Option<nat> {
    if s == "" then Some(0) else
      match (ParseDigits(s[..|s| - 1]), DigitValue(s[|s| - 1]))
      case (Some(n), Some(d)) => Some(n * 10 + d)
      case _ => None
  }

  /** strconv.Atoi: an optional sign, digits, and the range of a 64-bit int. */
  function Atoi(s: string): Option<int> {
    var signed := s != "" && (s[0] == '-' || s[0] == '+');
    var body := if signed then s[1..] else s;
    match ParseDigits(body)
    case None => None
    case Some(n) =>
      var v: int := n;
      if body == "" then None
      else if signed && s[0] == '-' then (if v <= INT_LIMIT then Some(-v) else None)
      else if v < INT_LIMIT then Some(v) else None
  }

  lemma {:induction false} DigitsRoundTrip(n: nat)
    ensures ParseDigits(Itoa(n)) == Some(n)
  {
    assert DigitValue(DIGITS[n % 10]) == Some(n % 10);
    if n < 10 {
      assert [DIGITS[n]][..0] == "";
    } else {
      DigitsRoundTrip(n / 10);
      var s := Itoa(n);
      assert s[..|s| - 1] == Itoa(n / 10);
    }
  }

  lemma AtoiItoa(n: nat)
    requires n < INT_LIMIT
    ensures Atoi(Itoa(n)) == Some(n)
  {
    DigitsRoundTrip(n);
  }

  // ------------------------------------------------------------------
  // splitPath and joinPath
  // ------------------------------------------------------------------

  datatype Bracket = NoBracket | Bracket(head: string, index: int, rest: string)

  /** The first `[...]` of a part, if it holds an index. */
  function BracketOf(name: string): (r: Bracket)
    ensures r.Bracket? ==> |r.rest| < |name|
  {
    match CutAt(name, '[')
    case NoCut => NoBracket
    case Cut(head, tail) =>
      match CutAt(tail, ']')
      case NoCut => NoBracket
      case Cut(digits, rest) =>
        match Atoi(digits)
        case None => NoBracket
        case Some(i) => Bracket(head, i, rest)
  }

  /** One dot-free part: names and bracketed indices; what does not parse stays a name. */
  function PartSteps(name: string): Path
    decreases |name|
  {
    match BracketOf(name)
    case NoBracket => NameStep(name)
    case Bracket(head, i, rest) => NameStep(head) + [IndexStep(i)] + PartSteps(rest)
  }

  function NameStep(name: string): Path { if name == "" then [] else [Key(name)] }

  /** A negative index is what every reader treats as the key "". */
  function IndexStep(i: int): Step { if i >= 0 then Index(i) else Key("") }

  function AllSteps(parts: seq<string>): Path { Gather(parts, PartSteps) }

  /** What `f` makes of each part, one after the other. */
  function Gather(parts: seq<string>, f: string -> Path): Path {
    if parts == [] then [] else Gather(parts[..|parts| - 1], f) + f(parts[|parts| - 1])
  }

  lemma GatherSnoc(parts: seq<string>, part: string, f: string -> Path)
    ensures Gather(parts + [part], f) == Gather(parts, f) + f(part)
  {
    assert (parts + [part])[..|parts|] == parts;
  }

  lemma {:induction false} GatherConcat(a: seq<string>, b: seq<string>, f: string -> Path)
    ensures Gather(a + b, f) == Gather(a, f) + Gather(b, f)
  {
    if b == [] {
      assert a + b == a;
    } else {
      var b', last := b[..|b| - 1], b[|b| - 1];
      assert b == b' + [last] && a + b == (a + b') + [last];
      GatherConcat(a, b', f);
      GatherSnoc(a + b', last, f);
    }
  }

  function SplitPath(path: string): Path { AllSteps(SplitOn(path, '.')) }

  function JoinPath(p: Path): string {
    if p == [] then "" else
      var b := JoinPath(p[..|p| - 1]);
      match p[|p| - 1]
      case Index(i) => b + Printed(i)
      case Key(k) => (if b != "" then b + "." else b) + k
  }

  /** A step that printing does not confuse with another. */
  predicate CleanKey(k: string) { k != "" && Without(k, '.') && Without(k, '[') }

  predicate CleanStep(st: Step) {
    match st
    case Key(k) => CleanKey(k)
    case Index(i) => i < INT_LIMIT
  }

  predicate Clean(p: Path) { forall i :: 0 <= i < |p| ==> CleanStep(p[i]) }

  /** The inner loop of splitPath: the steps of one part. */
  method ScanPart(part: string, before: Path) returns (out: Path)
    ensures out == before + PartSteps(part)
  {
    out := before;
    var name := part;
    var b := BracketOf(name);
    while b.Bracket?
      invariant b == BracketOf(name) && out + PartSteps(name) == before + PartSteps(part)
      decreases |name|
    {
      ScanStep(out, name, b);
      if b.head != "" {
        out := out + [Key(b.head)];
      }
      out := out + [IndexStep(b.index)];
      name := b.rest;
      b := BracketOf(name);
    }
    ScanEnd(out, name);
    if name != "" {
      out := out + [Key(name)];
    }
  }

  lemma ScanStep(out: Path, name: string, b: Bracket)
    requires b == BracketOf(name) && b.Bracket?
    ensures |b.rest| < |name|
    ensures ((if b.head != "" then out + [Key(b.head)] else out) + [IndexStep(b.index)]) + PartSteps(b.rest)
         == out + PartSteps(name)
  {
    assert PartSteps(name) == NameStep(b.head) + [IndexStep(b.index)] + PartSteps(b.rest);
    Regroup(out, NameStep(b.head), [IndexStep(b.index)], PartSteps(b.rest));
  }

  lemma Regroup(a: Path, b: Path, c: Path, d: Path)
    ensures a + (b + c + d) == ((a + b) + c) + d
    ensures b == [] ==> a + b == a
  {
  }

  lemma ScanEnd(out: Path, name: string)
    requires BracketOf(name).NoBracket?
    ensures out + PartSteps(name) == if name != "" then out + [Key(name)] else out
  {
  }

  /** splitPath's outer loop. */
  method ScanPath(path: string) returns (out: Path)
    ensures out == SplitPath(path)
  {
    out := [];
    var parts := SplitOn(path, '.');
    for n := 0 to |parts|
      invariant out == AllSteps(parts[..n])
    {
      out := ScanPart(parts[n], out);
      assert parts[..n + 1][..n] == parts[..n];
    }
    assert parts[..|parts|] == parts;
  }

  // ------------------------------------------------------------------
  // Round trip
  // ------------------------------------------------------------------

  /** A part whose brackets all parse as indices. */
  predicate Regular(name: string)
    decreases |name|
  {
    match BracketOf(name)
    case NoBracket => Without(name, '[')
    case Bracket(_, _, rest) => Regular(rest)
  }

  function Printed(i: nat): string { "[" + Itoa(i) + "]" }

  lemma BracketAppend(name: string, u: string)
    requires BracketOf(name).Bracket?
    ensures BracketOf(name + u) == BracketOf(name).(rest := BracketOf(name).rest + u)
  {
    CutAppend(name, '[', u);
    CutAppend(CutAt(name, '[').after, ']', u);
  }

  lemma BracketIs(name: string, i: nat)
    requires Without(name, '[') && i < INT_LIMIT
    ensures BracketOf(name + Printed(i)) == Bracket(name, i, "")
  {
    assert name + Printed(i) == name + ['['] + (Itoa(i) + [']']);
    CutIs(name, '[', Itoa(i) + [']']);
    assert Itoa(i) + [']'] == Itoa(i) + [']'] + "";
    CutIs(Itoa(i), ']', "");
    AtoiItoa(i);
  }

  /** `[i]` after a regular part is one more index step. */
  lemma {:induction false} BracketAppends(name: string, i: nat)
    requires Regular(name) && i < INT_LIMIT
    ensures Regular(name + Printed(i))
    ensures PartSteps(name + Printed(i)) == PartSteps(name) + [Index(i)]
    decreases |name|
  {
    match BracketOf(name)
    case NoBracket =>
      BracketIs(name, i);
      EmptyPart();
    case Bracket(head, n, rest) =>
      BracketAppend(name, Printed(i));
      BracketAppends(rest, i);
      var first := NameStep(head) + [IndexStep(n)];
      assert first + (PartSteps(rest) + [Index(i)]) == (first + PartSteps(rest)) + [Index(i)];
  }

  lemma EmptyPart()
    ensures PartSteps("") == [] && Regular("") && SplitPath("") == [] && SplitOn("", '.') == [""]
  {
    AllStepsSnoc([], "");
    assert [] + [""] == [""];
  }

  lemma AllStepsSnoc(parts: seq<string>, part: string)
    ensures AllSteps(parts + [part]) == AllSteps(parts) + PartSteps(part)
  {
    GatherSnoc(parts, part, PartSteps);
  }

  /** Printing one more step reads back as one more step. */
  lemma KeyAppends(t: string, k: string)
    requires CleanKey(k)
    ensures SplitPath(k) == [Key(k)] && Last(SplitOn(k, '.')) == k && Regular(k)
    ensures SplitPath(t + "." + k) == SplitPath(t) + [Key(k)] && Last(SplitOn(t + "." + k, '.')) == k
  {
    CutNone(k, '.');
    CutNone(k, '[');
    assert SplitOn(k, '.') == [k];
    AllStepsSnoc([], k);
    assert [] + [k] == [k];
    SplitAt(t, '.', k);
    AllStepsSnoc(SplitOn(t, '.'), k);
  }

  lemma PrintedPlain(i: nat)
    ensures Without(Printed(i), '.')
  {
  }

  lemma IndexAppends(t: string, i: nat)
    requires Regular(Last(SplitOn(t, '.'))) && i < INT_LIMIT
    ensures SplitPath(t + Printed(i)) == SplitPath(t) + [Index(i)]
    ensures Regular(Last(SplitOn(t + Printed(i), '.')))
  {
    var parts := SplitOn(t, '.');
    PrintedPlain(i);
    SplitLast(t, '.', Printed(i));
    LongerLast(parts, i);
  }

  lemma LongerLast(parts: seq<string>, i: nat)
    requires parts != [] && Regular(Last(parts)) && i < INT_LIMIT
    ensures var longer := Init(parts) + [Last(parts) + Printed(i)];
            && AllSteps(longer) == AllSteps(parts) + [Index(i)]
            && Regular(Last(longer))
  {
    BracketAppends(Last(parts), i);
    GatherLonger(parts, Last(parts) + Printed(i), [Index(i)], PartSteps);
  }

  lemma GatherLonger(parts: seq<string>, longer: string, more: Path, f: string -> Path)
    requires parts != [] && f(longer) == f(Last(parts)) + more
    ensures Gather(Init(parts) + [longer], f) == Gather(parts, f) + more
  {
    GatherSnoc(Init(parts), longer, f);
    GatherSnoc(Init(parts), Last(parts), f);
    assert Init(parts) + [Last(parts)] == parts;
    assert Gather(Init(parts), f) + (f(Last(parts)) + more) == (Gather(Init(parts), f) + f(Last(parts))) + more;
  }

  lemma JoinSnoc(q: Path, st: Step)
    ensures JoinPath(q + [st]) ==
            if st.Index? then JoinPath(q) + Printed(st.i)
            else if JoinPath(q) != "" then JoinPath(q) + "." + st.key else st.key
  {
    assert (q + [st])[..|q|] == q;
    if st.Key? && JoinPath(q) == "" {
      assert "" + st.key == st.key;
    }
  }

  /** What printing establishes, one step at a time. */
  ghost predicate Reads(t: string, p: Path) {
    SplitPath(t) == p && Regular(Last(SplitOn(t, '.'))) && (t == "" <==> p == [])
  }

  lemma ReadsSnoc(q: Path, st: Step)
    requires Reads(JoinPath(q), q) && CleanStep(st)
    ensures Reads(JoinPath(q + [st]), q + [st])
  {
    JoinSnoc(q, st);
    match st
    case Key(k) => KeyAppends(JoinPath(q), k);
    case Index(i) => IndexAppends(JoinPath(q), i);
  }

  /** Induction over the steps of a clean path, last step outermost. */
  lemma {:induction false} StepByStep(p: Path, good: Path -> bool)
    requires Clean(p) && good([])
    requires forall q, st :: good(q) && CleanStep(st) ==> good(q + [st])
    ensures good(p)
  {
    if p != [] {
      var q, st := p[..|p| - 1], p[|p| - 1];
      StepByStep(q, good);
      assert CleanStep(st);
      assert p == q + [st];
    }
  }

  lemma JoinReads(p: Path)
    requires Clean(p)
    ensures Reads(JoinPath(p), p)
  {
    var good := (q: Path) => Reads(JoinPath(q), q);
    EmptyPart();
    forall q, st | good(q) && CleanStep(st)
      ensures good(q + [st])
    {
      ReadsSnoc(q, st);
    }
    StepByStep(p, good);
  }

  /** splitPath undoes joinPath on every clean path. */
  lemma RoundTrip(p: Path)
    requires Clean(p)
    ensures SplitPath(JoinPath(p)) == p
  {
    JoinReads(p);
  }

  // ------------------------------------------------------------------
  // Exactly which names print and read back
  // ------------------------------------------------------------------

  /** A path over the given names, with indices an int holds. */
  ghost predicate Over(p: Path, names: set<string>) {
    forall i :: 0 <= i < |p| ==> if p[i].Key? then p[i].key in names else p[i].i < INT_LIMIT
  }

  /** No name read from a part is longer than the part. */
  lemma {:induction false} PartNamesShort(name: string, st: Step)
    requires st in PartSteps(name) && st.Key?
    ensures |st.key| <= |name|
    decreases |name|
  {
    match BracketOf(name)
    case NoBracket =>
    case Bracket(head, i, rest) =>
      assert st in NameStep(head) || st == IndexStep(i) || st in PartSteps(rest);
      if st in PartSteps(rest) {
        PartNamesShort(rest, st);
      }
  }

  lemma {:induction false} PartsShort(s: string, c: char, part: string)
    requires part in SplitOn(s, c)
    ensures |part| <= |s| && (!Without(s, c) ==> |part| < |s|)
    decreases |s|
  {
    CutNone(s, c);
    match CutAt(s, c)
    case NoCut =>
    case Cut(a, b) =>
      if part != a {
        PartsShort(b, c, part);
      }
  }

  lemma {:induction false} FromSomePart(parts: seq<string>, st: Step, f: string -> Path) returns (part: string)
    requires st in Gather(parts, f)
    ensures part in parts && st in f(part)
  {
    var last := parts[|parts| - 1];
    if st in f(last) {
      return last;
    }
    part := FromSomePart(parts[..|parts| - 1], st, f);
  }

  /** A name with a dot is never read. */
  lemma DottedNotRead(k: string)
    requires !Without(k, '.')
    ensures Key(k) !in SplitPath(k)
  {
    if Key(k) in SplitPath(k) {
      var part := FromSomePart(SplitOn(k, '.'), Key(k), PartSteps);
      PartsShort(k, '.', part);
      PartNamesShort(part, Key(k));
    }
  }

  /** Behind a name with a bracket, an index is not read as one. */
  lemma BracketedNotRead(k: string)
    requires Without(k, '.') && !Without(k, '[')
    ensures SplitPath(k + Printed(0)) != [] && SplitPath(k + Printed(0))[0] != Key(k)
  {
    var text := k + Printed(0);
    PrintedPlain(0);
    CutNone(k, '[');
    CutAppend(k, '[', Printed(0));
    assert Without(text, '.');
    CutNone(text, '.');
    assert SplitOn(text, '.') == [text];
    AllStepsSnoc([], text);
    assert [] + [text] == [text];
    assert SplitPath(text) == PartSteps(text);
    match BracketOf(text)
    case NoBracket =>
    case Bracket(head, i, rest) =>
      assert head == CutAt(k, '[').before;
      assert SplitPath(text)[0] == if head == "" then IndexStep(i) else Key(head);
  }

  lemma KeyPrints(k: string)
    ensures JoinPath([Key(k)]) == k && JoinPath([Key(k), Index(0)]) == k + Printed(0)
  {
    JoinSnoc([], Key(k));
    assert [] + [Key(k)] == [Key(k)];
    JoinSnoc([Key(k)], Index(0));
    assert [Key(k)] + [Index(0)] == [Key(k), Index(0)];
  }

  /** A name that is not clean breaks one of two short paths: itself, or its first row. */
  lemma UncleanFails(k: string) returns (p: Path)
    requires !CleanKey(k)
    ensures Over(p, {k}) && SplitPath(JoinPath(p)) != p
  {
    KeyPrints(k);
    if k == "" {
      EmptyPart();
      return [Key("")];
    }
    if !Without(k, '.') {
      DottedNotRead(k);
      return [Key(k)];
    }
    BracketedNotRead(k);
    p := [Key(k), Index(0)];
  }

  /** The exact condition: every path over a set of names reads back if and only if every name is clean. */
  lemma RoundTripIff(names: set<string>)
    ensures (forall p :: Over(p, names) ==> SplitPath(JoinPath(p)) == p) <==> (forall k :: k in names ==> CleanKey(k))
  {
    if k :| k in names && !CleanKey(k) {
      var p := UncleanFails(k);
      assert Over(p, names);
    } else {
      forall p | Over(p, names)
        ensures SplitPath(JoinPath(p)) == p
      {
        assert Clean(p);
        RoundTrip(p);
      }
    }
  }

  /** So distinct clean paths print differently. */
  lemma JoinInjective(p: Path, q: Path)
    requires Clean(p) && Clean(q) && JoinPath(p) == JoinPath(q)
    ensures p == q
  {
    RoundTrip(p);
    RoundTrip(q);
  }

  // ------------------------------------------------------------------
  // lookupPath and firstMissingPrefix
  // ------------------------------------------------------------------

  /** lookupPath's loop over the steps of a printed path. */
  method LookupPath(root: Json, path: string) returns (r: Option<Json>)
    ensures r == Lookup(root, SplitPath(path))
  {
    var steps := ScanPath(path);
    var cur := root;
    for n := 0 to |steps|
      invariant Lookup(root, steps[..n]) == Some(cur)
    {
      LookupSnoc(root, steps[..n], steps[n]);
      assert steps[..n + 1] == steps[..n] + [steps[n]];
      if Child(cur, steps[n]).None? {
        LookupGone(root, steps, n + 1);
        return None;
      }
      cur := Child(cur, steps[n]).value;
    }
    assert steps[..|steps|] == steps;
    return Some(cur);
  }

  lemma LookupGone(j: Json, p: Path, n: nat)
    requires n <= |p| && Lookup(j, p[..n]).None?
    ensures Lookup(j, p).None?
  {
    if Lookup(j, p).Some? {
      LookupPrefix(j, p, n);
    }
  }

  ghost predicate ShortestMissing(root: Json, p: Path, n: nat) {
    1 <= n <= |p| && Lookup(root, p[..n]).None? && Lookup(root, p[..n - 1]).Some?
  }

  /** The shortest prefix the document does not have, or the whole path when nothing is missing. */
  function FirstMissing(root: Json, p: Path): Path
    decreases |p|
  {
    if p == [] then []
    else if Child(root, p[0]).None? then [p[0]]
    else [p[0]] + FirstMissing(Child(root, p[0]).value, p[1..])
  }

  lemma {:induction false} FirstMissingIs(root: Json, p: Path, n: nat)
    requires ShortestMissing(root, p, n)
    ensures FirstMissing(root, p) == p[..n]
    decreases |p|
  {
    assert p[..n][0] == p[0] && p[..n][1..] == p[1..][..n - 1];
    if n > 1 {
      assert p[..n - 1][0] == p[0] && p[..n - 1][1..] == p[1..][..n - 2];
      FirstMissingIs(Child(root, p[0]).value, p[1..], n - 1);
      assert p[..n] == [p[0]] + p[1..][..n - 1];
    } else {
      LookupSnoc(root, [], p[0]);
      assert p[..1] == [p[0]] == [] + [p[0]];
    }
  }

  lemma {:induction false} NothingMissing(root: Json, p: Path)
    requires Lookup(root, p).Some?
    ensures FirstMissing(root, p) == p
    decreases |p|
  {
    if p != [] {
      NothingMissing(Child(root, p[0]).value, p[1..]);
    }
  }

  /** What firstMissingPrefix answers: the first printed prefix that does not read back, or the path. */
  function FirstMissingName(root: Json, path: string): string { FirstUnread(root, path, SplitPath(path), 1) }

  /** The document has something where the printed steps lead. */
  predicate ReadsBack(root: Json, steps: Path) { Lookup(root, SplitPath(JoinPath(steps))).Some? }

  method Present(root: Json, steps: Path) returns (there: bool)
    ensures there == ReadsBack(root, steps)
  {
    var r := LookupPath(root, JoinPath(steps));
    return r.Some?;
  }

  function FirstUnread(root: Json, path: string, steps: Path, n: nat): string
    requires 1 <= n <= |steps| + 1
    decreases |steps| - n
  {
    if n > |steps| then path
    else if !ReadsBack(root, steps[..n]) then JoinPath(steps[..n])
    else FirstUnread(root, path, steps, n + 1)
  }

  /** firstMissingPrefix. */
  method FirstMissingPrefix(root: Json, path: string) returns (r: string)
    ensures r == FirstMissingName(root, path)
  {
    var steps := ScanPath(path);
    for n := 1 to |steps| + 1
      invariant FirstMissingName(root, path) == FirstUnread(root, path, steps, n)
    {
      var there := Present(root, steps[..n]);
      if !there {
        return JoinPath(steps[..n]);
      }
    }
    return path;
  }

  /** On a printed clean path it is the printed shortest missing prefix. */
  lemma FirstMissingClean(root: Json, p: Path)
    requires Clean(p)
    ensures FirstMissingName(root, JoinPath(p)) == JoinPath(FirstMissing(root, p))
  {
    RoundTrip(p);
    FirstUnreadClean(root, p, 1);
  }

  lemma {:induction false} FirstUnreadClean(root: Json, p: Path, n: nat)
    requires Clean(p) && 1 <= n <= |p| + 1 && Lookup(root, p[..n - 1]).Some?
    ensures FirstUnread(root, JoinPath(p), p, n) == JoinPath(FirstMissing(root, p))
    decreases |p| - n
  {
    if n > |p| {
      assert p[..|p|] == p;
      NothingMissing(root, p);
    } else {
      RoundTrip(p[..n]);
      if Lookup(root, p[..n]).None? {
        FirstMissingIs(root, p, n);
      } else {
        FirstUnreadClean(root, p, n + 1);
      }
    }
  }

  /** FirstMissing means what it says: every proper prefix of it is there, and nothing from it on. */
  lemma {:induction false} FirstMissingExact(root: Json, p: Path, m: nat)
    requires m <= |p|
    ensures FirstMissing(root, p) <= p
    ensures Lookup(root, p).None? ==> (Lookup(root, p[..m]).Some? <==> m < |FirstMissing(root, p)|)
    decreases |p|
  {
    if p != [] && Child(root, p[0]).Some? {
      var c := Child(root, p[0]).value;
      if m > 0 {
        assert p[..m][0] == p[0] && p[..m][1..] == p[1..][..m - 1];
        FirstMissingExact(c, p[1..], m - 1);
      } else {
        FirstMissingExact(c, p[1..], 0);
      }
    }
  }

  // ------------------------------------------------------------------
  // Prefixes, printed
  // ------------------------------------------------------------------

  /** How create.go asks whether a printed path lies at or below another. */
  predicate AtOrBelow(path: string, top: string) {
    path == top || top + "." <= path || top + "[" <= path
  }

  lemma OneBelow(q: Path, st: Step, top: string)
    requires JoinPath(q) != "" && AtOrBelow(JoinPath(q), top)
    ensures AtOrBelow(JoinPath(q + [st]), top)
  {
    JoinSnoc(q, st);
    if st.Index? {
      LongerBelow(JoinPath(q), "[", Itoa(st.i) + "]", top);
      assert "[" + (Itoa(st.i) + "]") == Printed(st.i);
    } else {
      LongerBelow(JoinPath(q), ".", st.key, top);
    }
  }

  lemma LongerBelow(path: string, sep: string, more: string, top: string)
    requires AtOrBelow(path, top) && sep in ["[", "."]
    ensures AtOrBelow(path + (sep + more), top) && path + (sep + more) == path + sep + more
  {
    assert path + sep <= path + (sep + more);
  }

  lemma {:induction false} BelowPrints(top: Path, rest: Path)
    requires top != [] && Clean(top + rest)
    ensures AtOrBelow(JoinPath(top + rest), JoinPath(top))
    decreases |rest|
  {
    if rest == [] {
      assert top + rest == top;
    } else {
      var q := top + rest[..|rest| - 1];
      assert top + rest == q + [rest[|rest| - 1]];
      CleanInit(q, rest[|rest| - 1]);
      BelowPrints(top, rest[..|rest| - 1]);
      JoinReads(q);
      OneBelow(q, rest[|rest| - 1], JoinPath(top));
    }
  }

  lemma CleanInit(q: Path, st: Step)
    requires Clean(q + [st])
    ensures Clean(q)
  {
    forall i | 0 <= i < |q|
      ensures CleanStep(q[i])
    {
      assert (q + [st])[i] == q[i];
    }
  }

  lemma AllStepsConcat(a: seq<string>, b: seq<string>)
    ensures AllSteps(a + b) == AllSteps(a) + AllSteps(b)
  {
    GatherConcat(a, b, PartSteps);
  }

  /** Appending text lengthens the last part by the text's first part and adds its others. */
  lemma {:induction false} SplitAppend(s: string, c: char, u: string)
    ensures SplitOn(s + u, c) == Init(SplitOn(s, c)) + [Last(SplitOn(s, c)) + SplitOn(u, c)[0]] + SplitOn(u, c)[1..]
    decreases |u|
  {
    match CutAt(u, c)
    case NoCut =>
      CutNone(u, c);
      SplitLast(s, c, u);
    case Cut(a, b) =>
      CutSplits(u, c);
      SplitAt(s + a, c, b);
      assert s + u == (s + a) + [c] + b;
      SplitLast(s, c, a);
  }

  lemma {:induction false} CutSplits(u: string, c: char)
    requires CutAt(u, c).Cut?
    ensures var r := CutAt(u, c);
            u == r.before + [c] + r.after && Without(r.before, c)
  {
    if u[0] == c {
      assert u == "" + [c] + u[1..];
    } else {
      CutSplits(u[1..], c);
      var r := CutAt(u[1..], c);
      assert u == [u[0]] + (r.before + [c] + r.after);
      assert [u[0]] + (r.before + [c] + r.after) == ([u[0]] + r.before) + [c] + r.after;
    }
  }

  predicate HasBracketKey(p: Path) { exists i :: 0 <= i < |p| && p[i].Key? && !Without(p[i].key, '[') }

  /** A bracket opened behind a regular part leaves its steps, or ends in a name with a bracket in it. */
  lemma {:induction false} BracketExtends(name: string, x: string)
    requires Regular(name)
    ensures PartSteps(name) <= PartSteps(name + "[" + x) || HasBracketKey(PartSteps(name + "[" + x))
    decreases |name|
  {
    var t := name + "[" + x;
    match BracketOf(name)
    case NoBracket => FirstBracket(name, x);
    case Bracket(head, n, rest) =>
      assert name + "[" + x == name + ("[" + x) && rest + ("[" + x) == rest + "[" + x;
      BracketAppend(name, "[" + x);
      BracketExtends(rest, x);
      BehindSteps(NameStep(head) + [IndexStep(n)], PartSteps(rest), PartSteps(rest + "[" + x));
  }

  lemma FirstBracket(name: string, x: string)
    requires Without(name, '[')
    ensures PartSteps(name) <= PartSteps(name + "[" + x) || HasBracketKey(PartSteps(name + "[" + x))
  {
    var t := name + "[" + x;
    CutIs(name, '[', x);
    CutNone(name, '[');
    if BracketOf(t).NoBracket? {
      assert t[|name|] == '[';
      assert PartSteps(t)[0] == Key(t);
    }
  }

  lemma BehindSteps(first: Path, a: Path, b: Path)
    requires a <= b || HasBracketKey(b)
    ensures first + a <= first + b || HasBracketKey(first + b)
  {
    if HasBracketKey(b) {
      var i :| 0 <= i < |b| && b[i].Key? && !Without(b[i].key, '[');
      assert (first + b)[|first| + i] == b[i];
    }
  }

  lemma PrintedDot(top: Path, p: Path)
    requires Clean(top) && Clean(p) && JoinPath(top) + "." <= JoinPath(p)
    ensures top <= p
  {
    var t := JoinPath(top);
    var r := JoinPath(p)[|t| + 1..];
    assert JoinPath(p) == t + "." + r;
    RoundTrip(top);
    RoundTrip(p);
    SplitAt(t, '.', r);
    AllStepsConcat(SplitOn(t, '.'), SplitOn(r, '.'));
  }

  lemma PrintedBracket(top: Path, p: Path)
    requires Clean(top) && Clean(p) && JoinPath(top) + "[" <= JoinPath(p)
    ensures top <= p
  {
    var t := JoinPath(top);
    var u := JoinPath(p)[|t|..];
    assert JoinPath(p) == t + u && u[0] == '[';
    JoinReads(top);
    RoundTrip(p);
    SplitAppend(t, '.', u);
    BracketSteps(SplitOn(t, '.'), SplitOn(u, '.'), u, p);
  }

  lemma BracketSteps(parts: seq<string>, more: seq<string>, u: string, p: Path)
    requires parts != [] && Regular(Last(parts)) && u != "" && u[0] == '[' && more == SplitOn(u, '.') && Clean(p)
    requires AllSteps(Init(parts) + [Last(parts) + more[0]] + more[1..]) == p
    ensures AllSteps(parts) <= p
  {
    FirstPart(u);
    var x := more[0][1..];
    assert Last(parts) + more[0] == Last(parts) + "[" + x;
    BracketExtends(Last(parts), x);
    GatherMiddle(parts, Last(parts) + "[" + x, more[1..], PartSteps);
    CleanMiddle(AllSteps(Init(parts)), PartSteps(Last(parts) + "[" + x), AllSteps(more[1..]));
  }

  /** Changing the last part and adding more only changes what comes after the earlier parts. */
  lemma GatherMiddle(parts: seq<string>, longer: string, more: seq<string>, f: string -> Path)
    requires parts != []
    ensures Gather(Init(parts) + [longer] + more, f) == Gather(Init(parts), f) + f(longer) + Gather(more, f)
    ensures f(Last(parts)) <= f(longer) ==> Gather(parts, f) <= Gather(Init(parts) + [longer] + more, f)
  {
    GatherConcat(Init(parts) + [longer], more, f);
    GatherSnoc(Init(parts), longer, f);
    GatherSnoc(Init(parts), Last(parts), f);
    assert Init(parts) + [Last(parts)] == parts;
  }

  lemma CleanMiddle(a: Path, mid: Path, b: Path)
    ensures Clean(a + mid + b) ==> !HasBracketKey(mid)
  {
    if HasBracketKey(mid) {
      var i :| 0 <= i < |mid| && mid[i].Key? && !Without(mid[i].key, '[');
      assert !CleanStep((a + mid + b)[|a| + i]);
    }
  }

  lemma FirstPart(u: string)
    requires u != "" && u[0] == '['
    ensures SplitOn(u, '.')[0] != "" && SplitOn(u, '.')[0][0] == '['
  {
    if CutAt(u, '.').Cut? {
      CutSplits(u, '.');
      assert CutAt(u, '.').before != "";
    }
  }

  /** On clean paths the printed test is the prefix test. */
  lemma AtOrBelowIsPrefix(p: Path, top: Path)
    requires Clean(p) && Clean(top) && top != []
    ensures AtOrBelow(JoinPath(p), JoinPath(top)) <==> top <= p
  {
    if top <= p {
      assert p == top + p[|top|..];
      BelowPrints(top, p[|top|..]);
    }
    if JoinPath(p) == JoinPath(top) {
      JoinInjective(p, top);
    }
    if JoinPath(top) + "." <= JoinPath(p) {
      PrintedDot(top, p);
    }
    if JoinPath(top) + "[" <= JoinPath(p) {
      PrintedBracket(top, p);
    }
  }

  /** As documented: keys are joined by dots, indices stand in brackets. */
  lemma PrintedPath(k: string, i: nat, l: string)
    requires k != ""
    ensures JoinPath([Key(k), Index(i), Key(l)]) == k + "[" + Itoa(i) + "]" + "." + l
  {
    assert [Key(k), Index(i), Key(l)] == [Key(k), Index(i)] + [Key(l)];
    RowPrints(k, i);
    JoinSnoc([Key(k), Index(i)], Key(l));
  }

  lemma RowPrints(k: string, i: nat)
    requires k != ""
    ensures JoinPath([Key(k), Index(i)]) == k + "[" + Itoa(i) + "]"
  {
    KeyPrints(k);
    assert [Key(k), Index(i)] == [Key(k)] + [Index(i)];
    JoinSnoc([Key(k)], Index(i));
    assert k + Printed(i) == k + "[" + Itoa(i) + "]";
  }

  /** Numbers are written in decimal. */
  lemma Decimal()
    ensures Itoa(108) == "108" && Atoi("-108") == Some(-108) && Atoi("12a").None?
  {
    assert Itoa(1) == "1" && Itoa(10) == "1" + "0";
    assert Itoa(108) == Itoa(10) + "8";
    DigitsRoundTrip(108);
    assert "-108"[1..] == Itoa(108);
    assert "12a"[..2] == "12";
  }
}
