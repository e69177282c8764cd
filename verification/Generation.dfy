/**
 Generations: the ULID a discovery run stamps on everything it writes
 (internal/cache/generation.go, and the "Encoding" and "Sorting" sections of
 the ULID specification).

 A generation is specified as a numeral: 26 base-32 digits that denote the same
 number as the 16 bytes.  Round trip, injectivity and sort order follow from
 that one fact and from laws of fixed-length numerals.
 */
module Generation {

  const GENERATION_LEN: nat := 26
  const TIME_CHARS: nat := 10
  const CROCKFORD: string := "0123456789ABCDEFGHJKMNPQRSTVWXYZ"

  type Byte = x: nat | x < 256

  // ------------------------------------------------------------------
  // Numerals in any base
  // ------------------------------------------------------------------

  function Pow(b: nat, e: nat): (r: nat)
    ensures b > 0 ==> r > 0
  {
    if e == 0 then 1 else
      var p := Pow(b, e - 1);
      assert b > 0 ==> b * p > 0;
      b * p
  }

  /** The number denoted by `s`, most significant digit first. */
  function Num(b: nat, s: seq<nat>): nat {
    if s == [] then 0 else Num(b, s[..|s| - 1]) * b + s[|s| - 1]
  }

  predicate Digits(b: nat, s: seq<nat>) {
    forall i :: 0 <= i < |s| ==> s[i] < b
  }

  lemma {:induction false} PowSum(b: nat, x: nat, y: nat)
    ensures Pow(b, x + y) == Pow(b, x) * Pow(b, y)
  {
    if x == 0 {
    } else {
      PowSum(b, x - 1, y);
      assert b * (Pow(b, x - 1) * Pow(b, y)) == (b * Pow(b, x - 1)) * Pow(b, y);
    }
  }

  /** A concatenation shifts its left part. */
  lemma {:induction false} NumConcat(b: nat, s: seq<nat>, t: seq<nat>)
    ensures Num(b, s + t) == Num(b, s) * Pow(b, |t|) + Num(b, t)
  {
    if t == [] {
      assert s + t == s;
    } else {
      var t' := t[..|t| - 1];
      assert (s + t)[..|s + t| - 1] == s + t';
      NumConcat(b, s, t');
      Shift(Num(b, s), Pow(b, |t'|), Num(b, t'), b);
    }
  }

  lemma NumSnoc(b: nat, s: seq<nat>, d: nat)
    ensures Num(b, s + [d]) == Num(b, s) * b + d
  {
    assert (s + [d])[..|s|] == s;
  }

  lemma MulMono(a: nat, b: nat, d: nat)
    ensures a <= b ==> a * d <= b * d
  {
  }

  lemma OneMoreDigit(n: nat, p: nat, b: nat, d: nat)
    requires n < p && d < b
    ensures n * b + d < b * p
  {
    MulMono(n + 1, p, b);
  }

  lemma Shift(n: nat, p: nat, m: nat, b: nat)
    ensures (n * p + m) * b == n * (b * p) + m * b
  {
    assert (n * p) * b == n * (b * p);
  }

  lemma {:induction false} NumBound(b: nat, s: seq<nat>)
    requires Digits(b, s) && b > 0
    ensures Num(b, s) < Pow(b, |s|)
  {
    if s != [] {
      var s' := s[..|s| - 1];
      NumBound(b, s');
      assert Pow(b, |s|) == b * Pow(b, |s'|);
      OneMoreDigit(Num(b, s'), Pow(b, |s'|), b, s[|s| - 1]);
    }
  }

  /** The bytewise (here: digitwise) order on equal-length sequences. */
  predicate Less(s: seq<nat>, t: seq<nat>)
    requires |s| == |t|
  {
    s != [] && (s[0] < t[0] || (s[0] == t[0] && Less(s[1..], t[1..])))
  }

  /** Between numbers below `p`, the leading factor decides first. */
  lemma LeadDecides(p: nat, a: nat, x: nat, b: nat, y: nat)
    requires x < p && y < p
    ensures a * p + x < b * p + y <==> a < b || (a == b && x < y)
  {
    MulMono(a + 1, b, p);
    MulMono(b + 1, a, p);
  }

  /** For numerals of one length, digit order is numeric order. */
  lemma {:induction false} LessIsNumeric(b: nat, s: seq<nat>, t: seq<nat>)
    requires |s| == |t| && Digits(b, s) && Digits(b, t) && b > 0
    ensures Less(s, t) <==> Num(b, s) < Num(b, t)
  {
    if s != [] {
      var s1, t1 := s[1..], t[1..];
      assert s == [s[0]] + s1 && t == [t[0]] + t1;
      NumConcat(b, [s[0]], s1);
      NumConcat(b, [t[0]], t1);
      NumSingle(b, s[0]);
      NumSingle(b, t[0]);
      NumBound(b, s1);
      NumBound(b, t1);
      LessIsNumeric(b, s1, t1);
      LeadDecides(Pow(b, |s1|), s[0], Num(b, s1), t[0], Num(b, t1));
    }
  }

  lemma NumSingle(b: nat, d: nat)
    ensures Num(b, [d]) == d
  {
    assert [d][..0] == [];
    assert Num(b, []) == 0;
  }

  /** For numerals of one length, the number determines the digits. */
  lemma {:induction false} NumInjective(b: nat, s: seq<nat>, t: seq<nat>)
    requires |s| == |t| && Digits(b, s) && Digits(b, t) && b > 0
    requires Num(b, s) == Num(b, t)
    ensures s == t
  {
    LessIsNumeric(b, s, t);
    LessIsNumeric(b, t, s);
    Trichotomy(s, t);
  }

  lemma {:induction false} Trichotomy(s: seq<nat>, t: seq<nat>)
    requires |s| == |t|
    ensures Less(s, t) || Less(t, s) || s == t
  {
    if s != [] {
      Trichotomy(s[1..], t[1..]);
      assert s == [s[0]] + s[1..] && t == [t[0]] + t[1..];
    }
  }

  // ------------------------------------------------------------------
  // The alphabet
  // ------------------------------------------------------------------

  /** strings.IndexByte: the first index of `c` in `s`, or -1. */
  function IndexByte(s: string, c: char): (r: int)
    ensures -1 <= r < |s|
    ensures r >= 0 ==> s[r] == c && c !in s[..r]
    ensures r < 0 ==> c !in s
  {
    if s == [] then -1
    else if s[0] == c then 0
    else
      var r := IndexByte(s[1..], c);
      if r < 0 then -1 else r + 1
  }

  function Digit(c: char): int { IndexByte(CROCKFORD, c) }

  lemma AlphabetAscends()
    ensures |CROCKFORD| == 32
    ensures forall i, j :: 0 <= i < j < 32 ==> CROCKFORD[i] < CROCKFORD[j]
  {
    assert forall i :: 0 <= i < 31 ==> CROCKFORD[i] < CROCKFORD[i + 1];
    forall i, j | 0 <= i < j < 32
      ensures CROCKFORD[i] < CROCKFORD[j]
    {
      AscendsFrom(i, j);
    }
  }

  lemma {:induction false} AscendsFrom(i: nat, j: nat)
    requires i < j < |CROCKFORD|
    requires forall k :: 0 <= k < |CROCKFORD| - 1 ==> CROCKFORD[k] < CROCKFORD[k + 1]
    ensures CROCKFORD[i] < CROCKFORD[j]
    decreases j
  {
    if i + 1 < j {
      AscendsFrom(i, j - 1);
    }
    assert CROCKFORD[j - 1] < CROCKFORD[j - 1 + 1];
  }

  /** Reading back a printed digit gives the digit. */
  lemma DigitOfChar(v: nat)
    requires v < 32
    ensures Digit(CROCKFORD[v]) == v
  {
    AlphabetAscends();
    var r := Digit(CROCKFORD[v]);
    assert CROCKFORD[v] in CROCKFORD;
  }

  /** The digits of a well-formed generation. */
  function DigitsOf(s: string): (d: seq<nat>)
    requires forall i :: 0 <= i < |s| ==> Digit(s[i]) >= 0
    ensures |d| == |s| && Digits(32, d)
    ensures forall i :: 0 <= i < |s| ==> d[i] == Digit(s[i])
  {
    AlphabetAscends();
    seq(|s|, i requires 0 <= i < |s| => Digit(s[i]) as nat)
  }

  predicate IsGeneration(s: string) {
    |s| == GENERATION_LEN && Digit(s[0]) <= 7 && forall i :: 0 <= i < |s| ==> Digit(s[i]) >= 0
  }

  /** The 128-bit number a generation denotes. */
  function Value(s: string): nat
    requires IsGeneration(s)
  {
    Num(32, DigitsOf(s))
  }

  method ValidGeneration(s: string) returns (ok: bool)
    ensures ok <==> IsGeneration(s)
  {
    if |s| != GENERATION_LEN {
      return false;
    }
    if IndexByte(CROCKFORD, s[0]) > 7 {
      return false;
    }
    for i := 0 to |s|
      invariant forall k :: 0 <= k < i ==> Digit(s[k]) >= 0
    {
      if IndexByte(CROCKFORD, s[i]) < 0 {
        return false;
      }
    }
    return true;
  }

  // ------------------------------------------------------------------
  // Encoding
  // ------------------------------------------------------------------

  /** One more bit of the byte being walked. */
  lemma NextBit(b: Byte, k: nat)
    requires k < 8
    ensures b / Pow(2, 7 - k) == 2 * (b / Pow(2, 8 - k)) + (b / Pow(2, 7 - k)) % 2
  {
    var p := Pow(2, 7 - k);
    assert Pow(2, 8 - k) == 2 * p;
    assert b / (2 * p) == (b / p) / 2 by { DivTwice(b, p); }
  }

  lemma DivTwice(x: nat, p: nat)
    requires p > 0
    ensures 2 * p > 0 && x / (2 * p) == (x / p) / 2
  {
    var q, r := x / p, x % p;
    assert x == q * p + r;
    var h, l := q / 2, q % 2;
    assert q == 2 * h + l;
    assert x == h * (2 * p) + (l * p + r) by { assert (2 * h + l) * p == h * (2 * p) + l * p; }
    assert 0 <= l * p + r < 2 * p;
    QuotientUnique(x, 2 * p, h, l * p + r);
  }

  lemma QuotientUnique(x: nat, d: nat, q: nat, r: nat)
    requires d > 0 && x == q * d + r && r < d
    ensures x / d == q
  {
    var q' := x / d;
    assert q' * d <= x < (q' + 1) * d;
    MulMono(q' + 1, q, d);
    MulMono(q + 1, q', d);
  }

  /** What the first `i` bits after the two leading zeros denote. */
  ghost function Walked(b: seq<Byte>, i: nat): nat
    requires i <= 8 * |b|
  {
    Num(256, b[..i / 8]) * Pow(2, i % 8) + if i < 8 * |b| then b[i / 8] / Pow(2, 8 - i % 8) else 0
  }

  /** Bit `i` of the bytes, most significant bit first. */
  function BitAt(b: seq<Byte>, i: nat): (bit: nat)
    requires i < 8 * |b|
    ensures bit < 2
  {
    (b[i / 8] / Pow(2, 7 - i % 8)) % 2
  }

  lemma Double(n: nat, p: nat)
    ensures n * (2 * p) == 2 * (n * p)
  {
  }

  lemma WalkStep(b: seq<Byte>, i: nat)
    requires i < 8 * |b|
    ensures Walked(b, i + 1) == 2 * Walked(b, i) + BitAt(b, i)
  {
    var j, k := i / 8, i % 8;
    NextBit(b[j], k);
    var n := Num(256, b[..j]);
    assert Pow(2, k + 1) == 2 * Pow(2, k);
    Double(n, Pow(2, k));
    if k == 7 {
      assert Pow(2, 8) == 256 && Pow(2, 0) == 1;
      assert (i + 1) / 8 == j + 1 && (i + 1) % 8 == 0;
      assert b[..j + 1][..j] == b[..j];
    } else {
      assert (i + 1) / 8 == j && (i + 1) % 8 == k + 1;
    }
  }

  lemma WalkAppend(b: seq<Byte>, i: nat, done: seq<nat>)
    requires i < 8 * |b| && Digits(2, done) && Num(2, done) == BitsNum(b, i)
    ensures Digits(2, done + [BitAt(b, i)])
    ensures Num(2, done + [BitAt(b, i)]) == BitsNum(b, i + 1)
  {
    NumSnoc(2, done, BitAt(b, i));
  }

  /** The first `i` bits as a binary numeral. */
  ghost function BitsNum(b: seq<Byte>, i: nat): nat
    requires i <= 8 * |b|
  {
    if i == 0 then 0 else 2 * BitsNum(b, i - 1) + BitAt(b, i - 1)
  }

  lemma {:induction false} BitsNumIs(b: seq<Byte>, i: nat)
    requires i <= 8 * |b|
    ensures BitsNum(b, i) == Walked(b, i)
  {
    if i == 0 {
      WalkStart(b);
    } else {
      BitsNumIs(b, i - 1);
      WalkStep(b, i - 1);
    }
  }

  lemma WalkStart(b: seq<Byte>)
    ensures Walked(b, 0) == 0
  {
    assert Pow(2, 8) == 256;
  }

  function Chars(d: seq<nat>): (s: string)
    requires Digits(32, d)
    ensures |s| == |d|
  {
    AlphabetAscends();
    seq(|d|, i requires 0 <= i < |d| => CROCKFORD[d[i]])
  }

  lemma DigitsOfChars(d: seq<nat>)
    requires Digits(32, d)
    ensures forall i :: 0 <= i < |d| ==> Digit(Chars(d)[i]) >= 0
    ensures DigitsOf(Chars(d)) == d
  {
    forall i | 0 <= i < |d|
      ensures Digit(Chars(d)[i]) == d[i]
    {
      DigitOfChar(d[i]);
    }
  }

  /** A group of five bits is one base-32 digit. */
  lemma NextGroup(bits: seq<nat>, digits: seq<nat>, v: nat)
    requires 5 * |digits| + 5 <= |bits|
    requires Num(32, digits) == Num(2, bits[..5 * |digits|])
    requires v == Num(2, bits[5 * |digits|..5 * |digits| + 5])
    ensures Num(32, digits + [v]) == Num(2, bits[..5 * |digits| + 5])
  {
    var n := 5 * |digits|;
    assert bits[..n + 5] == bits[..n] + bits[n..n + 5];
    NumConcat(2, bits[..n], bits[n..n + 5]);
    NumSnoc(32, digits, v);
    FiveBitsAreADigit();
  }

  lemma FiveBitsAreADigit()
    ensures Pow(2, 5) == 32
  {
  }

  /** The bit walk: two zero bits, then the bytes, most significant bit first. */
  method BitWalk(b: seq<Byte>) returns (walked: seq<nat>)
    ensures |walked| == 2 + |b| * 8 && Digits(2, walked)
    ensures walked[0] == 0 && walked[1] == 0
    ensures Num(2, walked) == Num(256, b)
  {
    var bits := new nat[2 + |b| * 8](i => 0);
    NoneWalked(b, bits[..2]);
    for i := 0 to |b| * 8
      invariant Digits(2, bits[..2 + i])
      invariant bits[0] == 0 && bits[1] == 0
      invariant Num(2, bits[..2 + i]) == BitsNum(b, i)
    {
      ghost var done := bits[..2 + i];
      bits[i + 2] := BitAt(b, i);
      WalkAppend(b, i, done);
      assert bits[..2 + i] == done;
      assert bits[..2 + (i + 1)] == done + [bits[i + 2]];
    }
    AllWalked(b);
    assert bits[..2 + |b| * 8] == bits[..];
    return bits[..];
  }

  lemma NoneWalked(b: seq<Byte>, zeros: seq<nat>)
    requires zeros == [0, 0]
    ensures Num(2, zeros) == BitsNum(b, 0)
  {
    assert zeros == [0] + [0];
    NumSnoc(2, [0], 0);
    NumSingle(2, 0);
  }

  lemma AllWalked(b: seq<Byte>)
    ensures BitsNum(b, |b| * 8) == Num(256, b)
  {
    BitsNumIs(b, |b| * 8);
    assert b[..|b|] == b && |b| * 8 / 8 == |b| && Pow(2, 0) == 1;
  }

  /** One group of five bits, as encodeULID's inner loop reads it. */
  method FiveBits(bits: seq<nat>, start: nat) returns (v: nat)
    requires start + 5 <= |bits| && Digits(2, bits)
    ensures v == Num(2, bits[start..start + 5]) && v < 32
    ensures bits[start] == 0 && bits[start + 1] == 0 ==> v < 8
  {
    v := 0;
    assert bits[start..start] == [];
    for j := 0 to 5
      invariant v == Num(2, bits[start..start + j])
    {
      assert bits[start..start + j + 1] == bits[start..start + j] + [bits[start + j]];
      NumSnoc(2, bits[start..start + j], bits[start + j]);
      v := 2 * v + bits[start + j];
    }
    GroupBound(bits[start..start + 5]);
  }

  lemma GroupBound(g: seq<nat>)
    requires |g| == 5 && Digits(2, g)
    ensures Num(2, g) < 32
    ensures g[0] == 0 && g[1] == 0 ==> Num(2, g) < 8
  {
    NumBound(2, g);
    assert Pow(2, 5) == 32;
    if g[0] == 0 && g[1] == 0 {
      assert g == [0] + [0] + g[2..];
      NumSnoc(2, [0], 0);
      NumSingle(2, 0);
      NumConcat(2, [0] + [0], g[2..]);
      NumBound(2, g[2..]);
      assert Pow(2, 3) == 8;
    }
  }

  /** encodeULID: the 26-digit base-32 numeral of the 16 bytes. */
  method EncodeULID(b: seq<Byte>) returns (s: string)
    requires |b| == 16
    ensures IsGeneration(s)
    ensures Value(s) == Num(256, b)
  {
    var bits := BitWalk(b);
    var out: seq<nat> := [];
    for i := 0 to |bits| / 5
      invariant |out| == i && Digits(32, out)
      invariant Num(32, out) == Num(2, bits[..5 * i])
      invariant i > 0 ==> out[0] <= 7
    {
      var v := FiveBits(bits, i * 5);
      NextGroup(bits, out, v);
      out := out + [v];
    }
    assert bits[..130] == bits;
    s := Chars(out);
    PrintedGeneration(out);
  }

  lemma PrintedGeneration(d: seq<nat>)
    requires |d| == GENERATION_LEN && Digits(32, d) && d[0] <= 7
    ensures IsGeneration(Chars(d)) && Value(Chars(d)) == Num(32, d)
  {
    DigitsOfChars(d);
    DigitOfChar(d[0]);
  }

  // ------------------------------------------------------------------
  // Minting and dating
  // ------------------------------------------------------------------

  const TIME_RANGE: nat := 0x1_0000_0000_0000
  const RANDOM_RANGE: nat := 0x1_0000_0000_0000_0000_0000

  function TimeBytes(ms: nat): (b: seq<Byte>)
    ensures |b| == 6
  {
    [(ms / 0x100_0000_0000) % 256, (ms / 0x1_0000_0000) % 256, (ms / 0x100_0000) % 256,
     (ms / 0x1_0000) % 256, (ms / 0x100) % 256, ms % 256]
  }

  lemma TimeBytesValue(ms: nat)
    ensures Num(256, TimeBytes(ms)) == ms % TIME_RANGE
  {
    NumSix(TimeBytes(ms));
    ByteQuotients(ms);
    LowSixBytes(ms, ms / 0x100, ms / 0x1_0000, ms / 0x100_0000, ms / 0x1_0000_0000, ms / 0x100_0000_0000,
                ms / TIME_RANGE);
  }

  /** Shifting by eight more bits divides the previous shift by 256. */
  lemma ByteQuotients(ms: nat)
    ensures ms / 0x1_0000 == ms / 0x100 / 256
    ensures ms / 0x100_0000 == ms / 0x1_0000 / 256
    ensures ms / 0x1_0000_0000 == ms / 0x100_0000 / 256
    ensures ms / 0x100_0000_0000 == ms / 0x1_0000_0000 / 256
    ensures ms / TIME_RANGE == ms / 0x100_0000_0000 / 256
  {
  }

  lemma LowSixBytes(q0: nat, q1: nat, q2: nat, q3: nat, q4: nat, q5: nat, q6: nat)
    requires q1 == q0 / 256 && q2 == q1 / 256 && q3 == q2 / 256
    requires q4 == q3 / 256 && q5 == q4 / 256 && q6 == q5 / 256
    ensures q0 % TIME_RANGE ==
            ((((q5 % 256 * 256 + q4 % 256) * 256 + q3 % 256) * 256 + q2 % 256) * 256 + q1 % 256) * 256 + q0 % 256
  {
    var low := ((((q5 % 256 * 256 + q4 % 256) * 256 + q3 % 256) * 256 + q2 % 256) * 256 + q1 % 256) * 256 + q0 % 256;
    assert q0 == q6 * TIME_RANGE + low && low < TIME_RANGE;
  }

  lemma NumSix(b: seq<nat>)
    requires |b| == 6
    ensures Num(256, b) == ((((b[0] * 256 + b[1]) * 256 + b[2]) * 256 + b[3]) * 256 + b[4]) * 256 + b[5]
  {
    NumSingle(256, b[0]);
    for k := 1 to 6
      invariant Num(256, b[..1]) == b[0]
      invariant k > 1 ==> Num(256, b[..2]) == b[0] * 256 + b[1]
      invariant k > 2 ==> Num(256, b[..3]) == (b[0] * 256 + b[1]) * 256 + b[2]
      invariant k > 3 ==> Num(256, b[..4]) == ((b[0] * 256 + b[1]) * 256 + b[2]) * 256 + b[3]
      invariant k > 4 ==> Num(256, b[..5]) == (((b[0] * 256 + b[1]) * 256 + b[2]) * 256 + b[3]) * 256 + b[4]
      invariant k > 5 ==>
                Num(256, b[..6]) == ((((b[0] * 256 + b[1]) * 256 + b[2]) * 256 + b[3]) * 256 + b[4]) * 256 + b[5]
    {
      assert b[..k + 1][..k] == b[..k];
    }
    assert b[..6] == b;
  }

  lemma RandomBound(rest: seq<Byte>)
    requires |rest| == 10
    ensures Num(256, rest) < RANDOM_RANGE
  {
    NumBound(256, rest);
    assert Pow(256, 5) == 0x100_0000_0000;
    PowSum(256, 5, 5);
  }

  lemma RandomPowers()
    ensures Pow(256, 10) == RANDOM_RANGE && Pow(32, 16) == RANDOM_RANGE
  {
    assert Pow(256, 5) == 0x100_0000_0000;
    PowSum(256, 5, 5);
    assert Pow(32, 4) == 0x10_0000;
    PowSum(32, 4, 4);
    PowSum(32, 8, 8);
  }

  /** `s` is the generation of millisecond `ms` with random part `rest`. */
  ghost predicate Minted(s: string, ms: nat, rest: seq<Byte>) {
    && |rest| == 10
    && IsGeneration(s)
    && Value(s) == (ms % TIME_RANGE) * RANDOM_RANGE + Num(256, rest)
  }

  /**
   NewGeneration.  `unixMilli` is the caller's clock reading and `random` the
   ten bytes of crypto/rand, or nothing when the read failed; then the
   timestamp fills the random part as well.
   */
  method NewGeneration(unixMilli: int, random: seq<Byte>) returns (s: string)
    requires |random| == 10 || random == []
    ensures IsGeneration(s)
    ensures exists rest: seq<Byte> ::
              && |rest| == 10
              && (if |random| == 10 then rest == random
                  else forall i :: 0 <= i < 10 ==> rest[i] == FallbackByte(ClampMilli(unixMilli), i + 6))
              && Minted(s, ClampMilli(unixMilli), rest)
  {
    var ms: nat := ClampMilli(unixMilli);
    var rest := RandomPart(ms, random);
    var head := TimeBytes(ms);
    NumConcat(256, head, rest);
    TimeBytesValue(ms);
    RandomPowers();
    s := EncodeULID(head + rest);
    assert Minted(s, ms, rest);
  }

  /** The ten bytes behind the timestamp. */
  method RandomPart(ms: nat, random: seq<Byte>) returns (rest: seq<Byte>)
    requires |random| == 10 || random == []
    ensures |rest| == 10
    ensures if |random| == 10 then rest == random else forall i :: 0 <= i < 10 ==> rest[i] == FallbackByte(ms, i + 6)
  {
    if |random| == 10 {
      return random;
    }
    rest := [];
    for i := 6 to 16
      invariant |rest| == i - 6
      invariant forall j :: 0 <= j < i - 6 ==> rest[j] == FallbackByte(ms, j + 6)
    {
      rest := rest + [FallbackByte(ms, i)];
    }
  }

  /** Without random bytes the timestamp's own bytes fill in, from the low end and over again. */
  function FallbackByte(ms: nat, i: nat): Byte { (ms / Pow(2, 8 * (i % 8))) % 256 }

  /** Times before the epoch mint as the epoch. */
  function ClampMilli(unixMilli: int): nat { if unixMilli < 0 then 0 else unixMilli }

  /** The milliseconds in a well-formed generation. */
  function TimeOf(s: string): nat
    requires IsGeneration(s)
  {
    Num(32, DigitsOf(s)[..TIME_CHARS])
  }

  datatype TimeResult = Millis(ms: nat) | BadGeneration

  method GenerationTime(s: string) returns (r: TimeResult)
    ensures r == if IsGeneration(s) then Millis(TimeOf(s)) else BadGeneration
  {
    var ok := ValidGeneration(s);
    if !ok {
      return BadGeneration;
    }
    ghost var d := DigitsOf(s);
    var ms: nat := 0;
    for i := 0 to TIME_CHARS
      invariant ms == Num(32, d[..i])
    {
      assert d[..i + 1][..i] == d[..i];
      ms := ms * 32 + IndexByte(CROCKFORD, s[i]);
    }
    return Millis(ms);
  }

  /** The time part is the number's high end. */
  lemma TimeOfValue(s: string, t: nat, rest: nat)
    requires IsGeneration(s) && Value(s) == t * RANDOM_RANGE + rest && rest < RANDOM_RANGE
    ensures TimeOf(s) == t
  {
    var d := DigitsOf(s);
    var hi, lo := d[..10], d[10..];
    assert d == hi + lo;
    NumConcat(32, hi, lo);
    NumBound(32, lo);
    RandomPowers();
    var h, l := Num(32, hi), Num(32, lo);
    assert h * RANDOM_RANGE + l == t * RANDOM_RANGE + rest;
  }

  /**
   GenerationTime gives back the minted millisecond modulo 2^48; so exactly the
   times below 2^48 ms survive the round trip.
   */
  lemma TimeRoundTrip(s: string, ms: nat, rest: seq<Byte>)
    requires Minted(s, ms, rest)
    ensures TimeOf(s) == ms % TIME_RANGE
    ensures TimeOf(s) == ms <==> ms < TIME_RANGE
  {
    RandomBound(rest);
    TimeOfValue(s, ms % TIME_RANGE, Num(256, rest));
  }

  /** The bytewise order Go's string comparison uses. */
  predicate StringLess(s: string, t: string)
    requires |s| == |t|
  {
    s != [] && (s[0] < t[0] || (s[0] == t[0] && StringLess(s[1..], t[1..])))
  }

  /** Sorting generations as strings sorts them as numbers. */
  lemma StringOrder(s: string, t: string)
    requires IsGeneration(s) && IsGeneration(t)
    ensures StringLess(s, t) <==> Value(s) < Value(t)
  {
    DigitOrder(s, t);
    LessIsNumeric(32, DigitsOf(s), DigitsOf(t));
  }

  lemma {:induction false} DigitOrder(s: string, t: string)
    requires |s| == |t|
    requires forall i :: 0 <= i < |s| ==> Digit(s[i]) >= 0 && Digit(t[i]) >= 0
    ensures StringLess(s, t) <==> Less(DigitsOf(s), DigitsOf(t))
  {
    if s != [] {
      AlphabetAscends();
      var a, b := Digit(s[0]), Digit(t[0]);
      assert s[0] == CROCKFORD[a] && t[0] == CROCKFORD[b];
      DigitOrder(s[1..], t[1..]);
      assert DigitsOf(s)[1..] == DigitsOf(s[1..]);
      assert DigitsOf(t)[1..] == DigitsOf(t[1..]);
    }
  }

  lemma TimeDecides(ms: nat, a: nat, mt: nat, b: nat)
    requires ms < mt < TIME_RANGE && a < RANDOM_RANGE
    ensures (ms % TIME_RANGE) * RANDOM_RANGE + a < (mt % TIME_RANGE) * RANDOM_RANGE + b
  {
  }

  /** An earlier millisecond sorts first, whatever the random bits are. */
  lemma EarlierSortsFirst(s: string, t: string, ms: nat, mt: nat, rs: seq<Byte>, rt: seq<Byte>)
    requires ms < mt < TIME_RANGE
    requires Minted(s, ms, rs) && Minted(t, mt, rt)
    ensures StringLess(s, t)
  {
    RandomBound(rs);
    RandomBound(rt);
    TimeDecides(ms, Num(256, rs), mt, Num(256, rt));
    StringOrder(s, t);
  }

  /** Distinct bytes never share an encoding. */
  lemma EncodingInjective(a: seq<Byte>, b: seq<Byte>, s: string)
    requires |a| == |b| == 16 && IsGeneration(s)
    requires Value(s) == Num(256, a) && Value(s) == Num(256, b)
    ensures a == b
  {
    NumInjective(256, a, b);
  }

  /** The encoding is fixed by its number: no second string denotes it. */
  lemma EncodingUnique(s: string, t: string)
    requires IsGeneration(s) && IsGeneration(t) && Value(s) == Value(t)
    ensures s == t
  {
    NumInjective(32, DigitsOf(s), DigitsOf(t));
    AlphabetAscends();
    forall i | 0 <= i < |s|
      ensures s[i] == t[i]
    {
      assert DigitsOf(s)[i] == Digit(s[i]) && DigitsOf(t)[i] == Digit(t[i]);
      assert s[i] == CROCKFORD[Digit(s[i])] && t[i] == CROCKFORD[Digit(t[i])];
    }
  }
}
