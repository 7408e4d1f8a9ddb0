/** Digits in a base, the numbers they stand for, and the order of strings of digits. */
module Radix {
  function Pow(b: nat, k: nat): (r: nat)
    requires b > 0
    ensures r > 0
  {
    if k == 0 then 1 else b * Pow(b, k - 1)
  }

  lemma {:induction false} PowAdd(b: nat, j: nat, k: nat)
    requires b > 0
    ensures Pow(b, j + k) == Pow(b, j) * Pow(b, k)
  {
    if j > 0 { PowAdd(b, j - 1, k); }
  }

  lemma {:induction false} PowHundred(k: nat)
    ensures Pow(100, k) == Pow(10, 2 * k)
  {
    if k > 0 {
      PowHundred(k - 1);
      assert Pow(10, 2 * k) == 10 * Pow(10, 2 * k - 1) == 10 * (10 * Pow(10, 2 * k - 2));
    }
  }

  // ----- numbers in a base ---------------------------------------------------------------------

  /** The digits are below the base. */
  ghost predicate InBase(b: nat, s: seq<int>) {
    forall i | 0 <= i < |s| :: 0 <= s[i] < b
  }

  /** The digits as the first ones of a number with n. */
  function Scaled(b: nat, s: seq<int>, n: nat): int
    requires b > 0 && |s| <= n
  {
    if s == [] then 0 else s[0] * Pow(b, n - 1) + Scaled(b, s[1..], n - 1)
  }

  lemma {:induction false} ScaledBounds(b: nat, s: seq<int>, n: nat)
    requires b > 0 && |s| <= n && InBase(b, s)
    ensures 0 <= Scaled(b, s, n) < Pow(b, n)
  {
    if s != [] {
      ScaledBounds(b, s[1..], n - 1);
      var p := Pow(b, n - 1);
      Monotone(0, s[0], p);
      Monotone(s[0] + 1, b, p);
      assert (s[0] + 1) * p == s[0] * p + p;
    }
  }

  lemma {:induction false} ScaledMore(b: nat, s: seq<int>, n: nat, k: nat)
    requires b > 0 && |s| <= n
    ensures Scaled(b, s, n + k) == Scaled(b, s, n) * Pow(b, k)
  {
    if s != [] {
      ScaledMore(b, s[1..], n - 1, k);
      PowAdd(b, n - 1, k);
      Distribute(s[0], Pow(b, n - 1), Scaled(b, s[1..], n - 1), Pow(b, k));
    }
  }

  lemma Distribute(d: int, p: int, r: int, q: int)
    ensures (d * p + r) * q == d * (p * q) + r * q
  {
  }

  lemma {:induction false} ScaledAppend(b: nat, s: seq<int>, t: seq<int>, n: nat)
    requires b > 0 && |s| + |t| <= n
    ensures Scaled(b, s + t, n) == Scaled(b, s, n) + Scaled(b, t, n - |s|)
  {
    if s == [] {
      assert s + t == t;
    } else {
      ScaledAppend(b, s[1..], t, n - 1);
      assert (s + t)[1..] == s[1..] + t;
    }
  }

  /** One digit more at the end. */
  lemma ScaledStep(b: nat, s: seq<int>, d: int)
    requires b > 0
    ensures Scaled(b, s + [d], |s| + 1) == Scaled(b, s, |s|) * b + d
  {
    ScaledAppend(b, s, [d], |s| + 1);
    ScaledMore(b, s, |s|, 1);
    assert Pow(b, 1) == b * Pow(b, 0);
    assert Scaled(b, [d], 1) == d * Pow(b, 0) + Scaled(b, [], 0);
  }

  /** No trailing zeros. */
  predicate Stripped(s: seq<int>) {
    s != [] ==> s[|s| - 1] != 0
  }

  /** The order of strings. */
  predicate Less(s: seq<int>, t: seq<int>) {
    t != [] && (s == [] || s[0] < t[0] || (s[0] == t[0] && Less(s[1..], t[1..])))
  }

  lemma {:induction false} LessTotal(s: seq<int>, t: seq<int>)
    ensures s == t || Less(s, t) || Less(t, s)
  {
    if s != [] && t != [] && s[0] == t[0] {
      LessTotal(s[1..], t[1..]);
      assert s == [s[0]] + s[1..] && t == [t[0]] + t[1..];
    }
  }

  /** Digits without trailing zeros compare like the numbers they begin. */
  lemma {:induction false} LessScaled(b: nat, s: seq<int>, t: seq<int>, n: nat)
    requires b > 1 && |s| <= n && |t| <= n && InBase(b, s) && InBase(b, t) && Stripped(t) && Less(s, t)
    ensures Scaled(b, s, n) < Scaled(b, t, n)
  {
    if s == [] {
      StrippedPositive(b, t, n);
    } else {
      var p := Pow(b, n - 1);
      if s[0] == t[0] {
        LessScaled(b, s[1..], t[1..], n - 1);
      } else {
        ScaledBounds(b, s[1..], n - 1);
        ScaledBounds(b, t[1..], n - 1);
        FirstDecides(s[0], t[0], p, Scaled(b, s[1..], n - 1), Scaled(b, t[1..], n - 1));
      }
    }
  }

  lemma FirstDecides(a: int, b: int, p: int, x: int, y: int)
    requires a < b && 0 <= x < p && 0 <= y
    ensures a * p + x < b * p + y
  {
    Monotone(a + 1, b, p);
    assert (a + 1) * p == a * p + p;
  }

  lemma {:induction false} Monotone(a: int, b: int, p: int)
    requires a <= b && p >= 0
    ensures a * p <= b * p
    decreases b - a
  {
    if a < b {
      Monotone(a, b - 1, p);
      assert b * p == (b - 1) * p + p;
    }
  }

  lemma {:induction false} StrippedPositive(b: nat, s: seq<int>, n: nat)
    requires b > 1 && |s| <= n && InBase(b, s) && Stripped(s) && s != []
    ensures Scaled(b, s, n) > 0
  {
    var p := Pow(b, n - 1);
    if |s| == 1 {
      assert s[1..] == [];
      assert s[0] * p > 0;
    } else {
      StrippedPositive(b, s[1..], n - 1);
      assert s[0] * p >= 0;
    }
  }

  /** Digits without trailing zeros are determined by their number. */
  lemma ScaledUnique(b: nat, s: seq<int>, t: seq<int>, n: nat)
    requires b > 1 && |s| <= n && |t| <= n && InBase(b, s) && InBase(b, t) && Stripped(s) && Stripped(t)
    requires Scaled(b, s, n) == Scaled(b, t, n)
    ensures s == t
  {
    LessTotal(s, t);
    if Less(s, t) { LessScaled(b, s, t, n); }
    if Less(t, s) { LessScaled(b, t, s, n); }
  }

  // ----- the digits of a number ------------------------------------------------------------------

  function Digits(u: nat): (s: seq<int>)
    ensures InBase(10, s)
  {
    if u == 0 then [] else Digits(u / 10) + [u % 10]
  }

  lemma {:induction false} DigitsValue(u: nat)
    ensures Scaled(10, Digits(u), |Digits(u)|) == u
    ensures u > 0 ==> Digits(u) != [] && Digits(u)[0] != 0
  {
    if u > 0 {
      DigitsValue(u / 10);
      ScaledStep(10, Digits(u / 10), u % 10);
    }
  }

  lemma {:induction false} DigitsCount(u: nat, k: nat)
    ensures u < Pow(10, k) <==> |Digits(u)| <= k
  {
    if u > 0 && k > 0 {
      DigitsCount(u / 10, k - 1);
      assert Pow(10, k) == 10 * Pow(10, k - 1);
    }
  }

  function Trim(s: seq<int>): (t: seq<int>)
    ensures t <= s && Stripped(t)
  {
    if s != [] && s[|s| - 1] == 0 then Trim(s[..|s| - 1]) else s
  }

  lemma {:induction false} TrimScaled(b: nat, s: seq<int>, n: nat)
    requires b > 0 && |s| <= n
    ensures Scaled(b, Trim(s), n) == Scaled(b, s, n)
  {
    if s != [] && s[|s| - 1] == 0 {
      var k := |s| - 1;
      TrimScaled(b, s[..k], n);
      assert s == s[..k] + [0];
      ScaledAppend(b, s[..k], [0], n);
    }
  }

  /** Two digits to a byte. */
  function Pairs(s: seq<int>): (r: seq<int>)
    ensures |r| == (|s| + 1) / 2
  {
    if s == [] then [] else if |s| == 1 then [s[0] * 10] else [s[0] * 10 + s[1]] + Pairs(s[2..])
  }

  lemma {:induction false} PairsInBase(s: seq<int>)
    requires InBase(10, s)
    ensures InBase(100, Pairs(s)) && (Stripped(s) ==> Stripped(Pairs(s)))
  {
    if |s| > 1 {
      PairsInBase(s[2..]);
      var r := Pairs(s[2..]);
      assert Pairs(s) == [s[0] * 10 + s[1]] + r;
      if Stripped(s) && |s| > 2 { assert s[2..][|s| - 3] == s[|s| - 1] && Pairs(s)[|r|] == r[|r| - 1]; }
    }
  }

  lemma {:induction false} PairsScaled(s: seq<int>, n: nat)
    requires |s| <= 2 * n
    ensures Scaled(100, Pairs(s), n) == Scaled(10, s, 2 * n)
  {
    if s != [] {
      PowHundred(n - 1);
      var p := Pow(100, n - 1);
      assert Pow(10, 2 * n - 1) == 10 * Pow(10, 2 * n - 2);
      if |s| == 1 {
        assert s[1..] == [] && Pairs(s)[1..] == [];
        OnePair(s[0], 0, p);
      } else {
        PairsScaled(s[2..], n - 1);
        assert Pairs(s)[1..] == Pairs(s[2..]) && s[1..][1..] == s[2..];
        OnePair(s[0], s[1], p);
      }
    }
  }

  lemma OnePair(a: int, b: int, p: int)
    ensures (a * 10 + b) * p == a * (10 * p) + b * p
  {
  }

  // ----- arithmetic -----------------------------------------------------------------------------

  lemma Strictly(m: int, n: int, p: int)
    requires m < n && p > 0
    ensures m * p < n * p
  {
    Monotone(m + 1, n, p);
    assert (m + 1) * p == m * p + p;
  }

  lemma Cancel(a: int, b: int, q: int)
    requires q > 0 && a * q == b * q
    ensures a == b
  {
    if a < b { Strictly(a, b, q); }
    if b < a { Strictly(b, a, q); }
  }

  lemma Assoc(a: int, b: int, c: int)
    ensures a * (b * c) == a * b * c
  {
  }

  lemma Tenth(s: int, d: int, u: int)
    requires s * 100 + d == 10 * u && d >= 0
    ensures d % 10 == 0 && s * 10 + d / 10 == u
  {
    assert d == 10 * (u - s * 10);
  }

  // ----- more on the order --------------------------------------------------------------------

  lemma LessAfter(head: seq<int>, s: seq<int>, t: seq<int>)
    ensures Less(head + s, head + t) <==> Less(s, t)
    decreases head
  {
    if head == [] {
      assert head + s == s && head + t == t;
    } else {
      LessAfter(head[1..], s, t);
      assert (head + s)[1..] == head[1..] + s && (head + t)[1..] == head[1..] + t;
    }
  }

  lemma {:induction false} NotBoth(s: seq<int>, t: seq<int>)
    requires Less(s, t)
    ensures !Less(t, s)
  {
    if s != [] && s[0] == t[0] { NotBoth(s[1..], t[1..]); }
  }

  lemma {:induction false} NotItself(s: seq<int>)
    ensures !Less(s, s)
  {
    if s != [] { NotItself(s[1..]); }
  }
}
