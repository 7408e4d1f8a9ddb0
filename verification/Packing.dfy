/** Packed numbers: a tag for the sign, the exponent, and the decimal digits two to a byte
    without trailing zeros, all but the tag complemented for negative numbers.
 */
module Packing {
  import opened Radix
  import opened Seal

  type byte = b: int | 0 <= b < 256
  type Bytes = seq<byte>

  const PACK_MINUS: byte := 2
  const PACK_PLUS: byte := 3
  const MIN_INT64 := -0x8000_0000_0000_0000
  const MAX_INT64 := 0x7fff_ffff_ffff_ffff

  // ----- numbers and their bytes -----------------------------------------------------------------

  /** A finite number is 0.b times ten to the exponent, with two digits in each byte of b. */
  datatype Num = Zero | Finite(neg: bool, exp: int, b: seq<int>)

  ghost predicate Normal(e: int, b: seq<int>) {
    -128 <= e <= 127 && 0 < |b| <= 10 && InBase(100, b) && Stripped(b) && b[0] >= 10
  }

  ghost predicate Proper(x: Num) {
    x.Finite? ==> Normal(x.exp, x.b)
  }

  /** Enough decimal places for every number to be whole, whatever more there are. */
  type Places = p: int | p >= 148 witness 148

  const UNIT: Places

  /** The magnitude in units of that many decimal places. */
  ghost function Size(e: int, b: seq<int>): int
    requires Normal(e, b)
  {
    Scaled(100, b, 10) * Pow(10, e + UNIT - 20)
  }

  /** The number in such units. */
  ghost function Value(x: Num): int
    requires Proper(x)
  {
    if x.Zero? then 0 else if x.neg then -Size(x.exp, x.b) else Size(x.exp, x.b)
  }

  function Flip(neg: bool, b: byte): byte { if neg then 255 - b else b }

  function FlipAll(neg: bool, s: seq<int>): (r: Bytes)
    requires InBase(256, s)
    ensures |r| == |s|
  {
    if s == [] then [] else [Flip(neg, s[0])] + FlipAll(neg, s[1..])
  }

  lemma FlipFirst(neg: bool, x: int, s: seq<int>)
    requires 0 <= x < 256 && InBase(256, s)
    ensures InBase(256, [x] + s) && FlipAll(neg, [x] + s) == [Flip(neg, x)] + FlipAll(neg, s)
  {
    assert ([x] + s)[1..] == s;
  }

  lemma {:induction false} FlipTwice(neg: bool, s: seq<int>)
    requires InBase(256, s)
    ensures InBase(256, FlipAll(neg, s)) && FlipAll(neg, FlipAll(neg, s)) == s
  {
    if s != [] {
      FlipTwice(neg, s[1..]);
      FlipFirst(neg, Flip(neg, s[0]), FlipAll(neg, s[1..]));
      assert s == [s[0]] + s[1..];
    }
  }

  lemma {:induction false} FlipNothing(s: seq<int>)
    requires InBase(256, s)
    ensures FlipAll(false, s) == s
  {
    if s != [] {
      FlipNothing(s[1..]);
      assert s == [s[0]] + s[1..];
    }
  }

  function Tag(neg: bool): byte { if neg then PACK_MINUS else PACK_PLUS }

  function Encoded(x: Num): Bytes
    requires Proper(x)
  {
    if x.Zero? then [PACK_PLUS] else [Tag(x.neg)] + ([Flip(x.neg, x.exp + 128)] + FlipAll(x.neg, x.b))
  }

  // ----- order ---------------------------------------------------------------------------------------

  lemma {:induction false} PowMonotone(j: nat, k: nat)
    requires j <= k
    ensures Pow(10, j) <= Pow(10, k)
  {
    if j < k { PowMonotone(j, k - 1); }
  }

  /** Since the first digit is not zero, all have the same number of digits. */
  lemma Leads(e: int, b: seq<int>)
    requires Normal(e, b)
    ensures Pow(10, 19) <= Scaled(100, b, 10) < Pow(10, 20)
  {
    ScaledBounds(100, b, 10);
    ScaledBounds(100, b[1..], 9);
    PowHundred(9);
    PowHundred(10);
    Monotone(10, b[0], Pow(100, 9));
    TenTimes(1, 18);
  }

  lemma TenTimes(s: int, k: nat)
    ensures s * Pow(10, k) * 10 == s * Pow(10, k + 1)
  {
    assert Pow(10, k + 1) == 10 * Pow(10, k);
  }

  lemma ExponentDecides(s: int, j: nat, t: int, k: nat, i: nat)
    requires 0 <= s < Pow(10, i + 1) && Pow(10, i) <= t && j < k
    ensures s * Pow(10, j) < t * Pow(10, k)
  {
    PowAdd(10, i + 1, j);
    PowAdd(10, i, k);
    PowMonotone(i + 1 + j, i + k);
    Between(s, Pow(10, i + 1), Pow(10, j), t, Pow(10, i), Pow(10, k));
  }

  lemma Between(s: int, a: int, p: int, t: int, b: int, q: int)
    requires s < a && b <= t && p > 0 && q > 0 && a * p <= b * q
    ensures s * p < t * q
  {
    Strictly(s, a, p);
    Monotone(b, t, q);
  }

  lemma SmallerSize(e1: int, b1: seq<int>, e2: int, b2: seq<int>)
    requires Normal(e1, b1) && Normal(e2, b2) && (e1 < e2 || (e1 == e2 && Less(b1, b2)))
    ensures Size(e1, b1) < Size(e2, b2)
  {
    if e1 < e2 {
      Leads(e1, b1);
      Leads(e2, b2);
      ExponentDecides(Scaled(100, b1, 10), e1 + UNIT - 20, Scaled(100, b2, 10), e2 + UNIT - 20, 19);
    } else {
      LessScaled(100, b1, b2, 10);
      Strictly(Scaled(100, b1, 10), Scaled(100, b2, 10), Pow(10, e1 + UNIT - 20));
    }
  }

  /** Numbers compare by exponent and then by the strings of their digits, which are unique. */
  lemma SizeOrder(e1: int, b1: seq<int>, e2: int, b2: seq<int>)
    requires Normal(e1, b1) && Normal(e2, b2)
    ensures Size(e1, b1) < Size(e2, b2) <==> e1 < e2 || (e1 == e2 && Less(b1, b2))
    ensures Size(e1, b1) == Size(e2, b2) <==> e1 == e2 && b1 == b2
  {
    LessTotal(b1, b2);
    if e1 < e2 || (e1 == e2 && Less(b1, b2)) { SmallerSize(e1, b1, e2, b2); }
    if e2 < e1 || (e1 == e2 && Less(b2, b1)) { SmallerSize(e2, b2, e1, b1); }
  }

  lemma PartsOrder(tag: int, a: int, s: seq<int>, b: int, t: seq<int>)
    ensures Less([tag] + ([a] + s), [tag] + ([b] + t)) <==> a < b || (a == b && Less(s, t))
  {
    LessAfter([tag], [a] + s, [b] + t);
    if a == b { LessAfter([a], s, t); }
  }

  /** Complementing turns the order around, but a prefix stays before what it is a prefix of. */
  lemma {:induction false} FlipLess(s: seq<int>, t: seq<int>)
    requires InBase(256, s) && InBase(256, t) && Less(s, t)
    ensures if s < t then Less(FlipAll(true, s), FlipAll(true, t)) else Less(FlipAll(true, t), FlipAll(true, s))
  {
    var fs, ft := FlipAll(true, s), FlipAll(true, t);
    if s != [] && s[0] == t[0] {
      FlipLess(s[1..], t[1..]);
      assert fs[1..] == FlipAll(true, s[1..]) && ft[1..] == FlipAll(true, t[1..]);
      assert s < t <==> s[1..] < t[1..];
    }
  }

  lemma NegativesCompare(pm: seq<int>, em: int, bm: seq<int>, fm: seq<int>, pn: seq<int>, en: int, bn: seq<int>, fn: seq<int>)
    requires pm == [PACK_MINUS] + ([127 - em] + fm) && pn == [PACK_MINUS] + ([127 - en] + fn)
    requires InBase(100, bm) && InBase(100, bn) && fm == FlipAll(true, bm) && fn == FlipAll(true, bn)
    requires en < em || (em == en && Less(bn, bm))
    ensures Less(pm, pn) <==> !(em == en && bn < bm)
    ensures !Less(pm, pn) ==> Less(pn, pm)
  {
    PartsOrder(PACK_MINUS, 127 - em, fm, 127 - en, fn);
    PartsOrder(PACK_MINUS, 127 - en, fn, 127 - em, fm);
    if em == en { Turned(bn, bm); }
  }

  lemma Turned(s: seq<int>, t: seq<int>)
    requires InBase(100, s) && InBase(100, t) && Less(s, t)
    ensures InBase(256, s) && InBase(256, t) && (Less(FlipAll(true, t), FlipAll(true, s)) <==> !(s < t))
    ensures s < t ==> Less(FlipAll(true, s), FlipAll(true, t))
  {
    FlipLess(s, t);
    if s < t { NotBoth(FlipAll(true, s), FlipAll(true, t)); }
  }

  /** Both are negative, with the same exponent, and the digits of the second are a proper prefix
      of those of the first. */
  predicate Misplaced(x: Num, y: Num) {
    x.Finite? && y.Finite? && x.neg && y.neg && x.exp == y.exp && y.b < x.b
  }

  /** Byte order is numeric order, except for misplaced pairs, whose order is turned around. */
  lemma ByteOrder(x: Num, y: Num)
    requires Proper(x) && Proper(y) && Value(x) < Value(y)
    ensures Less(Encoded(x), Encoded(y)) <==> !Misplaced(x, y)
    ensures Less(Encoded(y), Encoded(x)) <==> Misplaced(x, y)
  {
    if x.Finite? && y.Finite? && x.neg == y.neg {
      if x.neg { NegativeOrder(x.exp, x.b, y.exp, y.b); } else { PositiveOrder(x.exp, x.b, y.exp, y.b); }
    } else {
      SizePositive(x);
      SizePositive(y);
      FirstDiffers(x, y);
    }
    if Less(Encoded(x), Encoded(y)) { NotBoth(Encoded(x), Encoded(y)); }
  }

  lemma SizePositive(x: Num)
    requires Proper(x)
    ensures x.Finite? ==> Size(x.exp, x.b) > 0
  {
    if x.Finite? {
      Leads(x.exp, x.b);
      Strictly(0, Scaled(100, x.b, 10), Pow(10, x.exp + UNIT - 20));
    }
  }

  lemma FirstDiffers(x: Num, y: Num)
    requires Proper(x) && Proper(y) && (if x.Zero? then y.Finite? && !y.neg else x.neg && (y.Finite? ==> !y.neg))
    ensures Less(Encoded(x), Encoded(y))
  {
    if x.Zero? { assert Encoded(y)[1..] != []; }
  }

  lemma PositiveOrder(e1: int, b1: seq<int>, e2: int, b2: seq<int>)
    requires Normal(e1, b1) && Normal(e2, b2) && Size(e1, b1) < Size(e2, b2)
    ensures Less(Encoded(Finite(false, e1, b1)), Encoded(Finite(false, e2, b2)))
  {
    SizeOrder(e1, b1, e2, b2);
    FlipNothing(b1);
    FlipNothing(b2);
    PartsOrder(PACK_PLUS, e1 + 128, b1, e2 + 128, b2);
  }

  lemma NegativeOrder(e1: int, b1: seq<int>, e2: int, b2: seq<int>)
    requires Normal(e1, b1) && Normal(e2, b2) && Size(e2, b2) < Size(e1, b1)
    ensures var p, q := Encoded(Finite(true, e1, b1)), Encoded(Finite(true, e2, b2));
      (Less(p, q) <==> !(e1 == e2 && b2 < b1)) && (!Less(p, q) ==> Less(q, p))
  {
    SizeOrder(e2, b2, e1, b1);
    var p, q := Encoded(Finite(true, e1, b1)), Encoded(Finite(true, e2, b2));
    NegativesCompare(p, e1, b1, FlipAll(true, b1), q, e2, b2, FlipAll(true, b2));
  }

  // ----- integers ---------------------------------------------------------------------------------------

  function Abs(n: int): nat { if n < 0 then -n else n }

  /** The digits of u without trailing zeros, two to a byte. */
  function Body(u: nat): seq<int> { Pairs(Trim(Digits(u))) }

  /** The bytes begin the number u, which has e digits; sealed. */
  ghost predicate Begins(s: seq<int>, u: int, e: int) {
    var sealed := forall k: int {:trigger Open(k)} :: Open(k) ==> 0 <= e <= 20 && |s| <= 10 && Scaled(100, s, 10) == u * Pow(10, 20 - e);
    sealed
  }

  lemma Unsealed(s: seq<int>, u: int, e: int)
    requires Begins(s, u, e)
    ensures 0 <= e <= 20 && |s| <= 10 && Scaled(100, s, 10) == u * Pow(10, 20 - e)
  {
    assert Open(0);
  }

  const LIMIT := 100_000_000_000_000_000_000

  lemma LimitIs()
    ensures Pow(10, 20) == LIMIT && Pow(100, 10) == LIMIT
  {
    PowHundred(10);
    assert Pow(10, 5) == 100_000;
    PowAdd(10, 5, 5);
    PowAdd(10, 10, 10);
  }

  lemma BodyFacts(u: nat)
    requires 0 < u < LIMIT
    ensures 0 < |Digits(u)| <= 20 && 0 < |Body(u)| <= 10 && InBase(100, Body(u)) && Stripped(Body(u))
    ensures Begins(Body(u), u, |Digits(u)|)
    ensures 2 * |Body(u)| - 1 <= |Digits(u)| && Body(u)[0] >= 10
  {
    LimitIs();
    DigitsCount(u, 20);
    DigitsValue(u);
    var t := Trim(Digits(u));
    PairsInBase(t);
    TrimNotEmpty(Digits(u));
    BodyBegins(u, Digits(u), t);
  }

  lemma BodyBegins(u: nat, d: seq<int>, t: seq<int>)
    requires |d| <= 20 && t == Trim(d) && Scaled(10, d, |d|) == u
    ensures Begins(Pairs(t), u, |d|)
  {
    PairsScaled(t, 10);
    TrimScaled(10, d, 20);
    ScaledMore(10, d, |d|, 20 - |d|);
  }

  lemma {:induction false} TrimNotEmpty(s: seq<int>)
    requires s != [] && s[0] != 0
    ensures Trim(s) != []
  {
    if s[|s| - 1] == 0 { TrimNotEmpty(s[..|s| - 1]); }
  }

  function IntNum(n: int): (x: Num)
    requires Abs(n) < LIMIT
    ensures Proper(x)
  {
    if n == 0 then Zero
    else
      BodyFacts(Abs(n));
      Finite(n < 0, |Digits(Abs(n))|, Body(Abs(n)))
  }

  /** The bytes of an integer. */
  function Packed(n: int): Bytes
    requires Abs(n) < LIMIT
  {
    Encoded(IntNum(n))
  }

  lemma IntSize(u: nat)
    requires 0 < u < LIMIT
    ensures Normal(|Digits(u)|, Body(u)) && Size(|Digits(u)|, Body(u)) == u * Pow(10, UNIT)
  {
    BodyFacts(u);
    var e := |Digits(u)|;
    Unsealed(Body(u), u, e);
    PowAdd(10, 20 - e, e + UNIT - 20);
    Assoc(u, Pow(10, 20 - e), Pow(10, e + UNIT - 20));
  }

  /** The number of an integer has its value. */
  lemma IntValue(n: int)
    requires Abs(n) < LIMIT
    ensures Value(IntNum(n)) == n * Pow(10, UNIT)
  {
    if n != 0 {
      IntSize(Abs(n));
      SignMoves(n, Pow(10, UNIT));
      assert Abs(n) * Pow(10, UNIT) == Size(|Digits(Abs(n))|, Body(Abs(n)));
    }
  }

  lemma SignMoves(n: int, p: int)
    ensures n * p == if n < 0 then -(Abs(n) * p) else Abs(n) * p
  {
    if n < 0 { assert n * p == -((-n) * p); }
  }

  /** The integer with the value of a number is that number. */
  lemma IntUnique(x: Num, n: int)
    requires Proper(x) && Abs(n) < LIMIT && Value(x) == n * Pow(10, UNIT)
    ensures x == IntNum(n)
  {
    IntValue(n);
    var y := IntNum(n);
    SizePositive(x);
    SizePositive(y);
    if x.Finite? && y.Finite? { SizeOrder(x.exp, x.b, y.exp, y.b); }
  }

  lemma IntOrder(m: int, n: int)
    requires m < n && Abs(m) < LIMIT && Abs(n) < LIMIT
    ensures Less(Packed(m), Packed(n)) <==> !Misplaced(IntNum(m), IntNum(n))
    ensures Less(Packed(n), Packed(m)) <==> Misplaced(IntNum(m), IntNum(n))
  {
    IntValue(m);
    IntValue(n);
    Strictly(m, n, Pow(10, UNIT));
    ByteOrder(IntNum(m), IntNum(n));
  }

  /** The decimal digits of u, in the last places of a buffer of twenty. */
  method FillDigits(u0: nat, buf: array<int>) returns (i: nat)
    requires u0 < LIMIT && buf.Length == 20
    modifies buf
    ensures i <= 20 && buf[i..] == Digits(u0)
  {
    i := 20;
    var u: nat := u0;
    LimitIs();
    DigitsCount(u0, 20);
    assert buf[20..] == [];
    while u > 0
      invariant 0 <= i <= 20 && u <= u0 && Digits(u0) == Digits(u) + buf[i..]
    {
      i := i - 1;
      ghost var tail := buf[i + 1..];
      buf[i] := u % 10;
      assert buf[i..] == [u % 10] + tail;
      assert Digits(u) == Digits(u / 10) + [u % 10];
      u := u / 10;
    }
    assert Digits(0) == [];
  }

  /** The place of the last digit that is not zero. */
  method LastDigit(buf: array<int>, i: nat) returns (lim: nat)
    requires buf.Length == 20 && i < 20 && buf[i] != 0
    ensures i <= lim < 20 && Trim(buf[i..]) == buf[i..lim + 1]
  {
    lim := 19;
    assert buf[i..] == buf[i..lim + 1];
    while lim > 0 && buf[lim] == 0
      invariant i <= lim < 20 && Trim(buf[i..]) == Trim(buf[i..lim + 1])
    {
      assert buf[i..lim + 1][..lim - i] == buf[i..lim];
      lim := lim - 1;
    }
  }

  /** The digits of u that a packed number has, and how many digits u has. */
  method SignificantDigits(u: nat) returns (d: seq<int>, e: nat)
    requires 0 < u < LIMIT
    ensures d == Trim(Digits(u)) && e == |Digits(u)|
  {
    DigitsValue(u);
    var buf := new int[20];
    var i := FillDigits(u, buf);
    assert buf[i] == buf[i..][0];
    var lim := LastDigit(buf, i);
    d, e := buf[i..lim + 1], 20 - i;
  }

  method PackInt(n: int) returns (r: Bytes)
    requires MIN_INT64 <= n <= MAX_INT64
    ensures r == Packed(n)
  {
    var u, neg := Abs(n), n < 0;
    r := [Tag(neg)];
    if u == 0 {
      return;
    }
    var d, e := SignificantDigits(u);
    PackedFrom(n, d, e);
    r := r + [Flip(neg, e + 128)];
    var pairs := PutPairs(d, neg);
    r := r + pairs;
  }

  /** The bytes of an integer, from its digits. */
  lemma PackedFrom(n: int, d: seq<int>, e: int)
    requires n != 0 && Abs(n) < LIMIT && d == Trim(Digits(Abs(n))) && e == |Digits(Abs(n))|
    ensures InBase(10, d) && 0 < e <= 20
    ensures Packed(n) == [Tag(n < 0)] + [Flip(n < 0, e + 128)] + FlipPairs(n < 0, d)
  {
    BodyFacts(Abs(n));
    TrimInBase(Digits(Abs(n)));
    FlipPairsIs(n < 0, d);
  }

  lemma TrimInBase(s: seq<int>)
    requires InBase(10, s)
    ensures InBase(10, Trim(s))
  {
  }

  /** The bytes for the digits. */
  function FlipPairs(neg: bool, s: seq<int>): Bytes
    requires InBase(10, s)
  {
    if s == [] then []
    else if |s| == 1 then [Flip(neg, s[0] * 10)]
    else [Flip(neg, s[0] * 10 + s[1])] + FlipPairs(neg, s[2..])
  }

  lemma {:induction false} FlipPairsIs(neg: bool, s: seq<int>)
    requires InBase(10, s)
    ensures InBase(256, Pairs(s)) && FlipPairs(neg, s) == FlipAll(neg, Pairs(s))
  {
    PairsInBase(s);
    if |s| == 1 {
      FlipFirst(neg, s[0] * 10, []);
    } else if |s| > 1 {
      FlipPairsIs(neg, s[2..]);
      FlipFirst(neg, s[0] * 10 + s[1], Pairs(s[2..]));
    }
  }

  /** Two digits to a byte. */
  method PutPairs(d: seq<int>, neg: bool) returns (r: Bytes)
    requires InBase(10, d)
    ensures r == FlipPairs(neg, d)
  {
    var i := 0;
    r := [];
    ghost var rest, all := d, FlipPairs(neg, d);
    while i + 1 < |d|
      invariant 0 <= i <= |d| && rest == d[i..] && InBase(10, rest) && r + FlipPairs(neg, rest) == all
    {
      var x := Flip(neg, d[i] * 10 + d[i + 1]);
      FirstPair(neg, rest, x);
      assert r + ([x] + FlipPairs(neg, rest[2..])) == r + [x] + FlipPairs(neg, rest[2..]);
      r := r + [x];
      rest := rest[2..];
      i := i + 2;
    }
    if i < |d| {
      assert FlipPairs(neg, rest) == [Flip(neg, d[i] * 10)];
      r := r + [Flip(neg, d[i] * 10)];
    }
  }

  lemma FirstPair(neg: bool, s: seq<int>, x: byte)
    requires InBase(10, s) && |s| > 1 && x == Flip(neg, s[0] * 10 + s[1])
    ensures InBase(10, s[2..]) && FlipPairs(neg, s) == [x] + FlipPairs(neg, s[2..])
  {
  }

  /** The exact length. */
  method PackSizeInt(n: int) returns (size: nat)
    requires MIN_INT64 <= n <= MAX_INT64
    ensures size == |Packed(n)|
  {
    var u := Abs(n);
    if u == 0 {
      return 1;
    }
    var d, e := SignificantDigits(u);
    ghost var body := Body(u);
    size := 2;
    var i := 0;
    while i + 1 < |d|
      invariant i <= |d| && size + (|d| + 1 - i) / 2 == 2 + |body|
    {
      size := size + 1;
      i := i + 2;
    }
    if i < |d| {
      size := size + 1;
    }
  }

  /** Packed values are meant to compare as raw bytes, but minus 101 sorts after minus 100. */
  lemma OutOfOrder()
    ensures Less(Packed(-100), Packed(-101))
  {
    ThreeDigits(100);
    ThreeDigits(101);
    IntOrder(-101, -100);
  }

  lemma ThreeDigits(u: nat)
    requires u == 100 || u == 101
    ensures |Digits(u)| == 3 && Body(u) == if u == 100 then [10] else [10, 10]
  {
    assert Digits(1) == Digits(0) + [1];
    assert Digits(10) == Digits(1) + [0] == [1, 0];
    HundredBytes(Digits(u), u - 100);
  }

  lemma HundredBytes(d: seq<int>, last: int)
    requires d == [1, 0, last]
    ensures Pairs(Trim(d)) == if last == 0 then [10] else [10, last * 10]
  {
    if last == 0 {
      assert d[..2] == [1, 0] && d[..2][..1] == [1];
      assert Trim(d) == Trim(d[..2]) == [1];
    } else {
      assert Trim(d) == d;
      assert Pairs(d) == [10] + Pairs(d[2..]) && d[2..] == [last];
    }
  }

  // ----- decimal numbers -------------------------------------------------------------------------------

  const COEF_MIN := 1_000_000_000_000_000
  const COEF_MAX := 9_999_999_999_999_999

  lemma CoefFacts(coef: int)
    requires COEF_MIN <= coef <= COEF_MAX
    ensures |Body(coef)| <= 8 && Scaled(100, Body(coef), 8) == coef
    ensures InBase(100, Body(coef)) && Stripped(Body(coef)) && Body(coef) != [] && Body(coef)[0] >= 10
  {
    BodyFacts(coef);
    SixteenDigits(coef);
    var b := Body(coef);
    Unsealed(b, coef, 16);
    ScaledMore(100, b, 8, 2);
    PowHundred(2);
    Cancel(Scaled(100, b, 8), coef, Pow(10, 4));
  }

  lemma SixteenDigits(u: nat)
    requires COEF_MIN <= u <= COEF_MAX
    ensures |Digits(u)| == 16
  {
    assert Pow(10, 5) == 100_000;
    PowAdd(10, 5, 5);
    PowAdd(10, 10, 5);
    assert Pow(10, 16) == 10 * Pow(10, 15);
    DigitsCount(u, 15);
    DigitsCount(u, 16);
  }

  /** The bytes of a decimal number, whose coefficient has sixteen digits. */
  function PackedDecimal(neg: bool, coef: int, exp: int): Bytes
    requires COEF_MIN <= coef <= COEF_MAX && -128 <= exp <= 127
  {
    CoefFacts(coef);
    Encoded(Finite(neg, exp, Body(coef)))
  }

  method PackDecimal(neg: bool, coef: int, exp: int) returns (r: Bytes)
    requires COEF_MIN <= coef <= COEF_MAX && -128 <= exp <= 127
    ensures r == PackedDecimal(neg, coef, exp)
  {
    r := [Tag(neg)];
    r := r + [Flip(neg, exp + 128)];
    var b := PackCoef(coef);
    r := r + FlipAll(neg, b);
    assert r == [Tag(neg)] + ([Flip(neg, exp + 128)] + FlipAll(neg, b));
  }

  /** The bytes of the coefficient, until what is left is zero. */
  method PackCoef(coef: int) returns (r: seq<int>)
    requires COEF_MIN <= coef <= COEF_MAX
    ensures r == Body(coef) && InBase(100, r)
  {
    var c, k := coef, 8;
    r := [];
    assert Pow(10, 4) == 10000;
    PowHundred(8);
    PowAdd(10, 4, 4);
    PowAdd(10, 8, 8);
    while c != 0
      invariant 0 <= k <= 8 && |r| == 8 - k && InBase(100, r) && 0 <= c < Pow(100, k) && Scaled(100, r, 8) + c == coef
      invariant c == 0 ==> r != [] && r[|r| - 1] != 0
      decreases k
    {
      var p := Pow(100, k - 1);
      var d := c / p;
      Leading(c, p);
      ScaledAppend(100, r, [d], 8);
      assert Scaled(100, [d], k) == d * p + Scaled(100, [], k - 1);
      r := r + [d];
      c := c % p;
      k := k - 1;
    }
    CoefFacts(coef);
    ScaledUnique(100, r, Body(coef), 8);
  }

  lemma Leading(c: int, p: int)
    requires 0 < c < 100 * p && p > 0
    ensures 0 <= c / p < 100 && c == (c / p) * p + c % p && (c % p == 0 ==> c / p != 0)
  {
    Below(c / p, 100, p);
  }

  lemma Below(d: int, k: int, p: int)
    requires p > 0 && d * p < k * p
    ensures d < k
  {
    if k < d { Strictly(k, d, p); }
  }

  /** An integer with at most sixteen digits has the same bytes as the decimal number with the
      same value, whose coefficient has its digits first. */
  lemma Canonical(n: int, coef: int)
    requires n != 0 && Abs(n) < LIMIT && |Digits(Abs(n))| <= 16 && COEF_MIN <= coef <= COEF_MAX
    requires coef == Abs(n) * Pow(10, 16 - |Digits(Abs(n))|)
    ensures Packed(n) == PackedDecimal(n < 0, coef, |Digits(Abs(n))|)
  {
    var u := Abs(n);
    var e := |Digits(u)|;
    CoefFacts(coef);
    var b := Body(coef);
    BodyFacts(u);
    Unsealed(Body(u), u, e);
    ScaledMore(100, b, 8, 2);
    PowHundred(2);
    PowAdd(10, 16 - e, 4);
    Assoc(u, Pow(10, 16 - e), Pow(10, 4));
    ScaledUnique(100, b, Body(u), 10);
  }

  // ----- unpacking -------------------------------------------------------------------------------------

  /** A number as unpacking gives it: a whole one, a decimal one with sixteen digits, or none. */
  datatype Number = Whole(n: int) | Decimal(neg: bool, coef: int, exp: int) | Infinite(neg: bool) | Panic

  /** What unpackInt makes of the coefficient bytes. */
  function UnpackValue(b: seq<int>, exp: int): int
    requires b != [] && 2 * |b| - 1 <= exp
  {
    var m := |b|;
    if exp == 2 * m - 1 then Scaled(100, b[..m - 1], m - 1) * 10 + b[m - 1] / 10
    else Scaled(100, b, m) * Pow(10, exp - 2 * m)
  }

  const TWO64 := 0x1_0000_0000_0000_0000

  /** An unsigned number as a signed one of 64 bits, and with the sign changed. */
  function ToInt64(u: int): int {
    var w := u % TWO64;
    if w > MAX_INT64 then w - TWO64 else w
  }

  function Negated(n: int): int { if n == MIN_INT64 then n else -n }

  function Signed(neg: bool, u: int): int { if neg then Negated(ToInt64(u)) else ToInt64(u) }

  method UnpackInt(b: seq<int>, exp: int, neg: bool) returns (n: int)
    requires b != [] && 2 * |b| - 1 <= exp
    ensures n == Signed(neg, UnpackValue(b, exp))
  {
    var u, i, last := 0, 0, 2 * |b| - 1;
    while i < |b| - 1
      invariant 0 <= i < |b| && u == Scaled(100, b[..i], i)
    {
      assert b[..i + 1] == b[..i] + [b[i]];
      ScaledStep(100, b[..i], b[i]);
      u := u * 100 + b[i];
      i := i + 1;
    }
    if exp == last {
      u := u * 10 + b[i] / 10;
    } else {
      assert b == b[..i] + [b[i]];
      ScaledStep(100, b[..i], b[i]);
      u := u * 100 + b[i];
      ghost var s := u;
      var j := last + 1;
      while j < exp
        invariant last + 1 <= j <= exp && u == s * Pow(10, j - last - 1)
      {
        TenTimes(s, j - last - 1);
        u := u * 10;
        j := j + 1;
      }
    }
    n := Signed(neg, u);
  }

  /** The bytes have no digits after the decimal point. */
  predicate NoFraction(b: seq<int>, exp: int)
    requires b != []
  {
    var last := 2 * |b| - 1;
    0 <= exp <= 19 && !(exp < last || (exp == last && b[|b| - 1] % 10 != 0))
  }

  /** Unpacking, given the bytes of the least and the greatest integer. */
  function UnpackWith(s: Bytes, lo: Bytes, hi: Bytes): Number {
    if |s| <= 1 then Whole(0)
    else if |s| == 2 then Panic
    else
      var neg := s[0] == PACK_MINUS;
      var exp := Flip(neg, s[1]) - 128;
      var b := FlipAll(neg, s[2..]);
      if b[0] == 255 then Infinite(neg)
      else if NoFraction(b, exp) && !Less(s, lo) && !Less(hi, s) then Whole(Signed(neg, UnpackValue(b, exp)))
      else if |b| <= 8 then Decimal(neg, Scaled(100, b, 8), exp)
      else Panic
  }

  function UnpackNumber(s: Bytes): Number {
    UnpackWith(s, Packed(MIN_INT64), Packed(MAX_INT64))
  }

  /** What has been unpacked, in the same units. */
  function Worth(r: Number): int
    requires r.Whole? || (r.Decimal? && r.exp >= -128)
  {
    if r.Whole? then r.n * Pow(10, UNIT)
    else (if r.neg then -r.coef else r.coef) * Pow(10, r.exp + UNIT - 16)
  }

  /** Reading the parts of a packed number back. */
  lemma ReadBack(x: Num)
    requires Proper(x) && x.Finite?
    ensures var s := Encoded(x);
      |s| == |x.b| + 2 && (s[0] == PACK_MINUS <==> x.neg) && Flip(x.neg, s[1]) - 128 == x.exp && FlipAll(x.neg, s[2..]) == x.b
  {
    var f := FlipAll(x.neg, x.b);
    assert Encoded(x)[2..] == f;
    FlipTwice(x.neg, x.b);
  }

  /** A number without fraction is an integer, the one unpackInt computes. */
  lemma WholeSize(e: int, b: seq<int>, u: int)
    requires Normal(e, b) && NoFraction(b, e) && u == UnpackValue(b, e)
    ensures 0 <= u < LIMIT && Size(e, b) == u * Pow(10, UNIT)
  {
    var m := |b|;
    ScaledMore(100, b, m, 10 - m);
    PowHundred(10 - m);
    ScaledBounds(100, b, m);
    ScaledBounds(100, b, 10);
    LimitIs();
    var s, p := Scaled(100, b, m), Pow(10, 20 - 2 * m);
    if e == 2 * m - 1 {
      LastByte(b, u);
      Tens(s, u, m, e);
    } else {
      Shifted(s, u, m, e);
    }
  }

  lemma LastByte(b: seq<int>, u: int)
    requires b != [] && InBase(100, b) && b[|b| - 1] % 10 == 0 && u == Scaled(100, b[..|b| - 1], |b| - 1) * 10 + b[|b| - 1] / 10
    ensures Scaled(100, b, |b|) == 10 * u
  {
    var k := |b| - 1;
    assert b == b[..k] + [b[k]];
    ScaledStep(100, b[..k], b[k]);
  }

  lemma Tens(s: int, u: int, m: int, e: int)
    requires 0 < m <= 10 && e == 2 * m - 1 && s == 10 * u && s >= 0
    ensures 0 <= u <= s * Pow(10, 20 - 2 * m)
    ensures s * Pow(10, 20 - 2 * m) * Pow(10, e + UNIT - 20) == u * Pow(10, UNIT)
  {
    PowAdd(10, 20 - 2 * m, e + UNIT - 20);
    Assoc(s, Pow(10, 20 - 2 * m), Pow(10, e + UNIT - 20));
    TenTimes(u, UNIT - 1);
    TenFold(s, u, Pow(10, UNIT - 1));
    Scales(s, 1, Pow(10, 20 - 2 * m));
  }

  lemma TenFold(s: int, u: int, p: int)
    requires s == 10 * u
    ensures s * p == u * p * 10
  {
  }

  lemma Shifted(s: int, u: int, m: int, e: int)
    requires 0 < 2 * m <= e <= 19 && u == s * Pow(10, e - 2 * m) && s >= 0
    ensures 0 <= u <= s * Pow(10, 20 - 2 * m)
    ensures s * Pow(10, 20 - 2 * m) * Pow(10, e + UNIT - 20) == u * Pow(10, UNIT)
  {
    PowAdd(10, 20 - 2 * m, e + UNIT - 20);
    PowAdd(10, e - 2 * m, UNIT);
    PowMonotone(e - 2 * m, 20 - 2 * m);
    Regroup(s, Pow(10, 20 - 2 * m), Pow(10, e + UNIT - 20), Pow(10, e - 2 * m), Pow(10, UNIT));
    Scales(s, Pow(10, e - 2 * m), Pow(10, 20 - 2 * m));
  }

  lemma Regroup(s: int, p: int, q: int, a: int, b: int)
    requires p * q == a * b
    ensures s * p * q == s * a * b
  {
    Assoc(s, p, q);
    Assoc(s, a, b);
  }

  lemma Scales(s: int, a: int, b: int)
    requires s >= 0 && 0 <= a <= b
    ensures 0 <= s * a <= s * b
  {
    Monotone(a, b, s);
    Monotone(0, a, s);
  }

  lemma DecimalSize(e: int, b: seq<int>)
    requires Normal(e, b) && |b| <= 8
    ensures Size(e, b) == Scaled(100, b, 8) * Pow(10, e + UNIT - 16)
  {
    ScaledMore(100, b, 8, 2);
    PowHundred(2);
    PowAdd(10, 4, e + UNIT - 20);
    Assoc(Scaled(100, b, 8), Pow(10, 4), Pow(10, e + UNIT - 20));
  }

  // ----- the round trip --------------------------------------------------------------------------------

  /** The limits: the digits of the least integer take ten bytes. */
  ghost predicate Limits(min: int, max: int) {
    -LIMIT < min < 0 < max < LIMIT && |Digits(-min)| == 19 && |Body(-min)| == 10 && AreLimits(min, max)
  }

  ghost predicate AreLimits(min: int, max: int) {
    var sealed := forall k: int {:trigger Look(k)} :: Look(k) ==> min == MIN_INT64 && max == MAX_INT64;
    sealed
  }

  /** A number without fraction between the limits is an integer of 64 bits. */
  lemma WholeInRange(x: Num, n: int, min: int, max: int)
    requires Limits(min, max) && Abs(n) < LIMIT && x == IntNum(n) && (x.Finite? ==> |x.b| <= 10)
    requires !Less(Encoded(x), Packed(min)) && !Less(Packed(max), Encoded(x))
    ensures min <= n <= max
  {
    if n < min { IntOrder(n, min); }
    if n > max { IntOrder(max, n); }
  }

  lemma SignedIs(u: int, neg: bool, n: int, min: int, max: int)
    requires AreLimits(min, max) && u >= 0 && n == (if neg then -u else u) && min <= n <= max
    ensures Signed(neg, u) == n
  {
    assert Look(0);
  }

  /** A number is taken for an integer. */
  predicate Taken(x: Num, lo: Bytes, hi: Bytes)
    requires Proper(x)
  {
    x.Finite? ==> NoFraction(x.b, x.exp) && !Less(Encoded(x), lo) && !Less(hi, Encoded(x))
  }

  /** The bytes of a number are unpacked by their parts. */
  lemma UnpackedParts(x: Num, lo: Bytes, hi: Bytes)
    requires Proper(x) && x.Finite?
    ensures UnpackWith(Encoded(x), lo, hi) ==
      if Taken(x, lo, hi) then Whole(Signed(x.neg, UnpackValue(x.b, x.exp)))
      else if |x.b| <= 8 then Decimal(x.neg, Scaled(100, x.b, 8), x.exp)
      else Panic
  {
    ReadBack(x);
  }

  /** A number comes back from its bytes, unless that panics, which it does exactly if there are
      more than eight bytes of digits and the number is not taken for an integer. */
  lemma Unpacked(x: Num, min: int, max: int)
    requires Proper(x) && Limits(min, max)
    ensures var r := UnpackWith(Encoded(x), Packed(min), Packed(max));
      && (r.Panic? <==> x.Finite? && |x.b| > 8 && !Taken(x, Packed(min), Packed(max)))
      && (!r.Panic? ==> Comes(r, Value(x)))
  {
    if x.Finite? {
      UnpackedParts(x, Packed(min), Packed(max));
      if Taken(x, Packed(min), Packed(max)) {
        WholeBack(x, min, max);
      } else if |x.b| <= 8 {
        DecimalBack(x);
      }
    }
  }

  /** What has been unpacked has that value. */
  predicate Comes(r: Number, v: int) {
    (r.Whole? || (r.Decimal? && r.exp >= -128)) && Worth(r) == v
  }

  lemma WholeBack(x: Num, min: int, max: int)
    requires Proper(x) && Limits(min, max) && x.Finite? && Taken(x, Packed(min), Packed(max))
    ensures Comes(Whole(Signed(x.neg, UnpackValue(x.b, x.exp))), Value(x))
  {
    var n := TakenInt(x, UnpackValue(x.b, x.exp));
    WholeInRange(x, n, min, max);
    SignedIs(UnpackValue(x.b, x.exp), x.neg, n, min, max);
  }

  lemma TakenInt(x: Num, u: int) returns (n: int)
    requires Proper(x) && x.Finite? && NoFraction(x.b, x.exp) && u == UnpackValue(x.b, x.exp)
    ensures u >= 0 && n == (if x.neg then -u else u) && Abs(n) < LIMIT && x == IntNum(n) && Value(x) == n * Pow(10, UNIT)
  {
    WholeSize(x.exp, x.b, u);
    n := if x.neg then -u else u;
    IntUnique(x, n);
  }

  lemma DecimalBack(x: Num)
    requires Proper(x) && x.Finite? && |x.b| <= 8
    ensures Comes(Decimal(x.neg, Scaled(100, x.b, 8), x.exp), Value(x))
  {
    DecimalSize(x.exp, x.b);
  }

  /** The one number that does not come back. */
  const LOST := -9_223_372_036_854_775_800

  /** The bytes of the digits of the least number. */
  const MIN_BODY: seq<int> := [92, 23, 37, 20, 36, 85, 47, 75, 80, 80]

  /** Its first k bytes and their value. */
  lemma MinBodyValue(k: nat) returns (b: seq<int>, v: int)
    requires k <= 10
    ensures b == MIN_BODY[..k] && |b| == k && InBase(100, b) && Stripped(b) && v == Scaled(100, b, k)
    ensures k == 9 ==> v == 922337203685477580
    ensures k == 10 ==> v == 92233720368547758080
  {
    b, v := [], 0;
    var i := 0;
    while i < k
      invariant 0 <= i == |b| <= k && b == MIN_BODY[..i] && InBase(100, b) && Stripped(b) && v == Scaled(100, b, i)
      invariant v == [0, 92, 9223, 922337, 92233720, 9223372036, 922337203685, 92233720368547, 9223372036854775, 922337203685477580, 92233720368547758080][i]
    {
      var d := MIN_BODY[i];
      assert MIN_BODY[..i + 1] == b + [d];
      ScaledStep(100, b, d);
      b, v, i := b + [d], v * 100 + d, i + 1;
    }
  }

  lemma NineteenDigits(u: nat)
    requires 1_000_000_000_000_000_000 <= u < 10_000_000_000_000_000_000
    ensures |Digits(u)| == 19
  {
    assert Pow(10, 6) == 1_000_000;
    PowAdd(10, 6, 6);
    PowAdd(10, 12, 6);
    assert Pow(10, 19) == 10 * Pow(10, 18);
    DigitsCount(u, 18);
    DigitsCount(u, 19);
  }

  /** A number with nineteen digits that is known by the bytes it begins with. */
  lemma BodyIs(u: nat, b: seq<int>)
    requires 1_000_000_000_000_000_000 <= u < 10_000_000_000_000_000_000
    requires 0 < |b| <= 10 && InBase(100, b) && Stripped(b) && Scaled(100, b, 10) == u * 10
    ensures Body(u) == b
  {
    NineteenDigits(u);
    BodyFacts(u);
    Unsealed(Body(u), u, 19);
    assert Pow(10, 1) == 10 * Pow(10, 0);
    ScaledUnique(100, Body(u), b, 10);
  }

  lemma LostBody(lost: int)
    requires lost == LOST
    ensures Body(-lost) == MIN_BODY[..9] && |Digits(-lost)| == 19
  {
    var b, w := MinBodyValue(9);
    ScaledMore(100, b, 9, 1);
    assert Pow(100, 1) == 100 * Pow(100, 0);
    NineteenDigits(-lost);
    BodyIs(-lost, b);
  }

  lemma LimitsHold(min: int, max: int)
    requires min == MIN_INT64 && max == MAX_INT64
    ensures Limits(min, max) && Body(-min) == MIN_BODY
  {
    LeastBody(-min);
  }

  lemma LeastBody(u: int)
    requires u == -MIN_INT64
    ensures |Digits(u)| == 19 && Body(u) == MIN_BODY
  {
    var b, v := MinBodyValue(10);
    NineteenDigits(u);
    BodyIs(u, b);
  }

  lemma IntNoFraction(u: nat)
    requires 0 < u < LIMIT && |Digits(u)| <= 19
    ensures Body(u) != [] && NoFraction(Body(u), |Digits(u)|)
  {
    BodyFacts(u);
    var b, e := Body(u), |Digits(u)|;
    if e == 2 * |b| - 1 { LastDigitZero(b, u, e); }
  }

  lemma LastDigitZero(b: seq<int>, u: int, e: int)
    requires Begins(b, u, e) && b != [] && InBase(100, b) && e == 2 * |b| - 1
    ensures b[|b| - 1] % 10 == 0
  {
    var m, k := |b|, |b| - 1;
    Unsealed(b, u, e);
    ScaledMore(100, b, m, 10 - m);
    PowHundred(10 - m);
    var q := Pow(10, 20 - 2 * m);
    TenTimes(1, 20 - 2 * m);
    Assoc(u, 10, q);
    Cancel(Scaled(100, b, m), u * 10, q);
    assert b == b[..k] + [b[k]];
    ScaledStep(100, b[..k], b[k]);
    Tenth(Scaled(100, b[..k], k), b[k], u);
  }

  lemma DigitsMonotone(m: nat, n: nat)
    requires m <= n
    ensures |Digits(m)| <= |Digits(n)|
  {
    DigitsCount(n, |Digits(n)|);
    DigitsCount(m, |Digits(n)|);
  }

  /** Of the integers of 64 bits only those misplaced before the least are not taken for one. */
  lemma IntRange(n: int, min: int, max: int)
    requires Limits(min, max) && min <= n <= max
    ensures !Less(Packed(max), Packed(n))
    ensures Less(Packed(n), Packed(min)) <==> Misplaced(IntNum(min), IntNum(n))
  {
    if n < max { IntOrder(n, max); } else { NotItself(Packed(n)); }
    if min < n { IntOrder(min, n); } else { NotItself(Packed(n)); }
  }

  lemma LostOnly(n: int, min: int, max: int, lost: int)
    requires Limits(min, max) && Body(-min) == MIN_BODY && min <= n < 0 && lost == LOST
    ensures Misplaced(IntNum(min), IntNum(n)) && |Body(-n)| > 8 <==> n == lost
  {
    LostBody(lost);
    PrefixOfTen(Body(-n), Body(-min), Body(-lost));
    if Misplaced(IntNum(min), IntNum(n)) && |Body(-n)| > 8 { SameInt(n, lost); }
  }

  /** There is one proper prefix of more than eight bytes. */
  lemma PrefixOfTen(b: seq<int>, least: seq<int>, lost: seq<int>)
    requires |least| == 10 && lost == least[..9]
    ensures b < least && |b| > 8 <==> b == lost
  {
  }

  lemma SameInt(m: int, n: int)
    requires Abs(m) < LIMIT && Abs(n) < LIMIT && IntNum(m) == IntNum(n)
    ensures m == n
  {
    IntValue(m);
    IntValue(n);
    Cancel(m, n, Pow(10, UNIT));
  }

  lemma AtMostNineteen(n: int, min: int, max: int)
    requires Limits(min, max) && min <= n <= max
    ensures |Digits(Abs(n))| <= 19
  {
    LimitsNear(min, max);
    DigitsMonotone(Abs(n), -min);
  }

  lemma LimitsNear(min: int, max: int)
    requires AreLimits(min, max)
    ensures max < -min
  {
    assert Look(0);
  }

  /** An integer of 64 bits is taken for one, unless it is misplaced. */
  lemma IntTaken(n: int, min: int, max: int)
    requires Limits(min, max) && min <= n <= max
    ensures Taken(IntNum(n), Packed(min), Packed(max)) <==> !Misplaced(IntNum(min), IntNum(n))
  {
    if n != 0 {
      AtMostNineteen(n, min, max);
      IntNoFraction(Abs(n));
      IntRange(n, min, max);
    }
  }

  lemma IntTrip(n: int, min: int, max: int, lost: int)
    requires Limits(min, max) && Body(-min) == MIN_BODY && lost == LOST && min <= n <= max
    ensures var r := UnpackWith(Packed(n), Packed(min), Packed(max));
      if n == lost then r.Panic? else Comes(r, n * Pow(10, UNIT))
  {
    Unpacked(IntNum(n), min, max);
    IntValue(n);
    IntTaken(n, min, max);
    if n < 0 { LostOnly(n, min, max, lost); }
  }

  /** Every integer of 64 bits but one has the same value after packing and unpacking; that one
      makes unpacking panic. */
  lemma RoundTrip(n: int)
    requires MIN_INT64 <= n <= MAX_INT64
    ensures var r := UnpackNumber(Packed(n));
      if n == LOST then r.Panic? else Comes(r, n * Pow(10, UNIT))
  {
    LimitsHold(MIN_INT64, MAX_INT64);
    IntTrip(n, MIN_INT64, MAX_INT64, LOST);
  }

  /** Every decimal number of sixteen digits has the same value after packing and unpacking. */
  lemma DecimalRoundTrip(neg: bool, coef: int, exp: int)
    requires COEF_MIN <= coef <= COEF_MAX && -128 <= exp <= 127
    ensures Comes(UnpackNumber(PackedDecimal(neg, coef, exp)), Worth(Decimal(neg, coef, exp)))
  {
    LimitsHold(MIN_INT64, MAX_INT64);
    DecimalTrip(neg, coef, exp, MIN_INT64, MAX_INT64);
  }

  lemma DecimalTrip(neg: bool, coef: int, exp: int, min: int, max: int)
    requires COEF_MIN <= coef <= COEF_MAX && -128 <= exp <= 127 && Limits(min, max)
    ensures Comes(UnpackWith(PackedDecimal(neg, coef, exp), Packed(min), Packed(max)), Worth(Decimal(neg, coef, exp)))
  {
    CoefFacts(coef);
    var x := Finite(neg, exp, Body(coef));
    Unpacked(x, min, max);
    DecimalBack(x);
  }
}
