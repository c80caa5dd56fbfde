/** int(float(text)) on texts with a decimal point: which way the fraction goes, and which
    texts are refused. */
module FloatTexts {
  import opened Wrappers
  import opened Bits
  import opened PyFloat

  // ----- decimal places -----

  lemma {:induction false} DigitsAppend(a: string, b: string)
    requires AllDigits(a) && AllDigits(b)
    ensures AllDigits(a + b) && Digits(a + b) == Digits(a) * Power10(|b|) + Digits(b)
  {
    if b == [] {
      assert a + b == a;
    } else {
      var c, x := b[..|b| - 1], b[|b| - 1];
      assert (a + b)[..|a + b| - 1] == a + c;
      DigitsAppend(a, c);
      TenTimes(Digits(a), Power10(|c|), Digits(c));
    }
  }

  lemma TenTimes(a: nat, p: nat, c: nat)
    ensures 10 * (a * p + c) == a * (10 * p) + 10 * c
  {
  }

  lemma {:induction false} DigitsBelow(s: string)
    requires AllDigits(s)
    ensures Digits(s) < Power10(|s|)
  {
    if s != [] {
      DigitsBelow(s[..|s| - 1]);
    }
  }

  lemma {:induction false} PointAt(a: string, f: string)
    requires AllDigits(a)
    ensures Point(a + "." + f) == |a| && Point(a) == |a|
  {
    if a == [] {
      assert a + "." + f == "." + f;
    } else {
      PointAt(a[1..], f);
      assert (a + "." + f)[1..] == a[1..] + "." + f;
    }
  }

  /** The digits before and behind the point, whichever of them may be missing, make one
      decimal number. */
  lemma MagnitudeOf(a: string, f: string)
    requires AllDigits(a) && AllDigits(f) && a + f != []
    ensures Magnitude(a + "." + f) == Truncated(Digits(a) * Power10(|f|) + Digits(f), Power10(|f|))
    ensures a != [] ==> Magnitude(a) == Truncated(Digits(a), 1)
  {
    hide Truncated, Digits, Point, AllDigits;
    PointAt(a, f);
    DigitsAppend(a, f);
    Cut(a, f);
  }

  lemma Cut(a: string, f: string)
    ensures var s := a + "." + f; |a| < |s| && s[..|a|] == a && s[|a| + 1..] == f
    ensures a[..|a|] + [] == a
  {
  }

  // ----- which way it is rounded -----

  /** The nearest multiple of d below or at m times d. */
  lemma NearestAt(x: nat, d: nat, m: nat)
    requires d > 0 && x < m * d
    ensures HalfEven(x, d) <= m
    ensures HalfEven(x, d) == m <==> 2 * (m * d - x) < d || (2 * (m * d - x) == d && m % 2 == 0)
  {
    var q, r := x / d, x % d;
    assert x == q * d + r;
    if q + 1 < m {
      Wider(q + 2, m, d);
      assert (q + 2) * d == q * d + 2 * d;
    } else if q >= m {
      Wider(m, q, d);
    } else {
      assert (q + 1) * d == q * d + d;
    }
  }

  /** w + F/d is rounded up to the next integer when the gap to it is at most half of what
      lies between two doubles there; at exactly half the even one is taken. */
  ghost predicate Up(w: nat, F: nat, d: nat, j: nat)
    requires F < d
  {
    var gap := 2 * (d - F) * Pow2(j);
    gap < d || (gap == d && ((w + 1) * Pow2(j)) % 2 == 0)
  }

  lemma Gap(w: nat, F: nat, d: nat, p: nat)
    requires F < d
    ensures ((w + 1) * p) * d - (w * d + F) * p == (d - F) * p
    ensures w * p * d <= (w * d + F) * p && 2 * ((d - F) * p) == 2 * (d - F) * p
    ensures p > 0 ==> (w * d + F) * p < ((w + 1) * p) * d
  {
    assert ((w + 1) * p) * d == (w * d) * p + d * p;
    assert (w * d + F) * p == (w * d) * p + F * p;
    assert (d - F) * p == d * p - F * p;
    if p > 0 {
      Wider(1, p, d - F);
    }
  }

  lemma CutOff(w: nat, F: nat, d: nat, j: nat)
    requires F < d
    ensures Quotient(HalfEven((w * d + F) * Pow2(j), d), Pow2(j)) == if Up(w, F, d, j) then w + 1 else w
  {
    var p := Pow2(j);
    var x, m := (w * d + F) * p, (w + 1) * p;
    hide Pow2;
    Gap(w, F, d, p);
    NearestAt(x, d, m);
    Between(x, d, w * p);
    var h := HalfEven(x, d);
    assert w * p <= h <= m;
    Steps(h, p, w, m);
  }

  lemma Steps(h: nat, p: nat, w: nat, m: nat)
    requires p > 0 && m == (w + 1) * p && w * p <= h <= m
    ensures h / p == if h == m then w + 1 else w
  {
    assert m == w * p + p;
    if h == m {
      ModUnique(h, p, w + 1, 0);
    } else {
      ModUnique(h, p, w, h - w * p);
    }
  }

  /** b is the number of bits of w. */
  ghost predicate HasBits(w: nat, b: nat)
  {
    if w == 0 then b == 0 else b > 0 && Pow2(b - 1) <= w < Pow2(b)
  }

  lemma Power53()
    ensures P53 == Pow2(53) == 0x20_0000_0000_0000
  {
    hide Pow2;
    Power26();
    Pow2Add(26, 27);
  }

  lemma {:induction false} Monotone(a: nat, b: nat, x: nat, y: nat)
    requires a <= b && x <= y
    ensures a * x <= b * y
  {
    Wider(a, b, x);
    Wider(x, y, b);
  }

  /** 53 bits of a number of b bits leave 53 - b for the fraction. */
  lemma Exponent(w: nat, F: nat, d: nat, b: nat, j: nat, x: nat)
    requires F < d && HasBits(w, b) && b <= 53 && (w == 0 ==> d <= 2 * F)
    requires j <= MIN && x == (w * d + F) * Pow2(j) && x < P53 * d && (j < MIN ==> P53 * d <= 2 * x)
    ensures j == 53 - b
  {
    Power53();
    BitsRange(w, F, d, b);
    hide Pow2, HasBits;
    LowerHalf(w * d + F, d, b, j, x);
  }

  lemma BitsRange(w: nat, F: nat, d: nat, b: nat)
    requires F < d && HasBits(w, b) && (w == 0 ==> d <= 2 * F)
    ensures Pow2(b) * d <= 2 * (w * d + F) && w * d + F < Pow2(b) * d
  {
    if w > 0 {
      Pow2Twice(b - 1);
      var p := Pow2(b - 1);
      Scaled2(w, F, d, p);
    } else {
      assert Pow2(0) == 1;
    }
  }

  lemma Scaled2(w: nat, F: nat, d: nat, p: nat)
    requires F < d && p <= w < 2 * p
    ensures (2 * p) * d <= 2 * (w * d + F) && w * d + F < (2 * p) * d
  {
    Wider(p, w, d);
    Wider(w + 1, 2 * p, d);
    assert (w + 1) * d == w * d + d && (2 * p) * d == 2 * (p * d);
  }

  lemma Pow2Twice(k: nat)
    ensures Pow2(k + 1) == 2 * Pow2(k)
  {
  }

  /** n is at least half of 2^b d and below it. */
  lemma LowerHalf(n: nat, d: nat, b: nat, j: nat, x: nat)
    requires d > 0 && b <= 53 && Pow2(b) * d <= 2 * n && n < Pow2(b) * d
    requires j <= MIN && x == n * Pow2(j) && x < Pow2(53) * d && (j < MIN ==> Pow2(53) * d <= 2 * x)
    ensures j == 53 - b
  {
    hide Pow2;
    Pow2Add(b, j);
    if b + j > 53 {
      Pow2Mono(54, b + j);
      Pow2Twice(53);
      TooFar(n, d, Pow2(b), Pow2(j), Pow2(b + j), Pow2(53));
    } else if b + j < 53 {
      Pow2Mono(b + j, 52);
      Pow2Twice(52);
      TooNear(n, d, Pow2(b), Pow2(j), Pow2(b + j), Pow2(53));
    }
  }

  lemma TooFar(n: nat, d: nat, p: nat, q: nat, s: nat, t: nat)
    requires s == p * q && p * d <= 2 * n && 2 * t <= s
    ensures t * d <= n * q
  {
    Wider(p * d, 2 * n, q);
    Wider(2 * t, s, d);
    assert (p * d) * q == (p * q) * d;
    assert (2 * n) * q == 2 * (n * q) && (2 * t) * d == 2 * (t * d);
  }

  lemma TooNear(n: nat, d: nat, p: nat, q: nat, s: nat, t: nat)
    requires s == p * q && n < p * d && q > 0 && 2 * s <= t
    ensures 2 * (n * q) < t * d
  {
    Strictly(n, p * d, q);
    Wider(2 * s, t, d);
    assert (p * d) * q == (p * q) * d;
    assert (2 * s) * d == 2 * (s * d);
  }

  lemma Strictly(a: nat, b: nat, p: nat)
    requires a < b && p > 0
    ensures a * p < b * p
  {
    assert b * p == a * p + (b - a) * p;
    Wider(1, b - a, p);
  }

  /** Below 2^53: w + F/d gives w + 1 exactly when it is rounded up, and w otherwise. */
  lemma Rounded(w: nat, F: nat, d: nat, b: nat)
    requires F < d && HasBits(w, b) && b <= 53
    ensures Truncated(w * d + F, d) == Some(if Up(w, F, d, 53 - b) then w + 1 else w)
  {
    var n := w * d + F;
    Power53();
    hide Pow2;
    assert w + 1 <= P53 by {
      if w > 0 {
        Pow2Mono(b, 53);
      }
    }
    Wider(w + 1, P53, d);
    assert (w + 1) * d == w * d + d;
    var j := SmallSpacing(n, d, 0);
    DoubledMeaning(n, j);
    CutOff(w, F, d, j);
    if w > 0 || d <= 2 * F {
      Exponent(w, F, d, b, j, Doubled(n, j));
    } else {
      FarBelow(F, d, j);
      FarBelow(F, d, 53);
    }
  }

  lemma FarBelow(F: nat, d: nat, j: nat)
    requires 2 * F < d
    ensures !Up(0, F, d, j)
  {
    Wider(1, Pow2(j), 2 * (d - F));
    hide Pow2;
  }

  /** int(float(text)) of digits a, a point and digits f, one of which may be missing, for
      every whole part below 2^53: the whole part, or the next integer where the double
      nearest to the decimal is that integer. */
  lemma FractionRounds(a: string, f: string, b: nat)
    requires AllDigits(a) && AllDigits(f) && a + f != [] && HasBits(Digits(a), b) && b <= 53
    ensures Digits(f) < Power10(|f|)
    ensures PyInt(a + "." + f)
         == Some(if Up(Digits(a), Digits(f), Power10(|f|), 53 - b) then Digits(a) + 1 else Digits(a))
  {
    hide Magnitude, Truncated, Up, Digits, Power10, HasBits, Natural, Pow2;
    DigitsBelow(f);
    MagnitudeOf(a, f);
    Rounded(Digits(a), Digits(f), Power10(|f|), b);
    NotMinus(a, f);
  }

  lemma NotMinus(a: string, f: string)
    requires AllDigits(a)
    ensures (a + "." + f)[0] != '-' && (a != [] ==> a[0] != '-')
  {
    assert a != [] ==> IsDigit(a[0]);
  }

  /** Without a fraction, or with one of zeros, the whole part is exact. */
  lemma NoFraction(a: string, f: string)
    requires AllDigits(a) && AllDigits(f) && a + f != [] && Digits(a) < 0x20_0000_0000_0000 && Digits(f) == 0
    ensures PyInt(a + "." + f) == Some(Digits(a)) && (a != [] ==> PyInt(a) == Some(Digits(a)))
  {
    hide Magnitude, Digits, Small, Pow2;
    Power53();
    MagnitudeOf(a, f);
    var d, w := Power10(|f|), Digits(a);
    NotMinus(a, f);
    ExactUpToP53(w);
    Wider(w + 1, P53, d);
    assert (w + 1) * d == w * d + d;
    Bracketed(w * d, d, w);
  }

  /** A minus in front negates. */
  lemma Minus(t: string)
    requires t != [] && t[0] != '-'
    ensures PyInt("-" + t).Some? <==> PyInt(t).Some?
    ensures PyInt(t).Some? ==> PyInt("-" + t).value == 0 - PyInt(t).value
  {
    assert ("-" + t)[1..] == t;
    hide Magnitude;
  }

  /** What is accepted has at least one digit and at most one point, and nothing else. */
  lemma Shape(s: string) returns (a: string, f: string)
    requires Magnitude(s).Some?
    ensures AllDigits(a) && AllDigits(f) && a + f != []
    ensures s == a || s == a + "." + f
  {
    var p := Point(s);
    PointMeans(s);
    hide Truncated, Digits, Point;
    a, f := s[..p], if p < |s| then s[p + 1..] else [];
    assert forall i | 0 <= i < |a| :: a[i] == (a + f)[i];
    assert forall i | 0 <= i < |f| :: f[i] == (a + f)[|a| + i];
    if p < |s| {
      assert s == s[..p] + [s[p]] + s[p + 1..];
    }
  }

  lemma {:induction false} PointMeans(s: string)
    ensures Point(s) < |s| ==> s[Point(s)] == '.'
  {
    if s != [] && s[0] != '.' {
      PointMeans(s[1..]);
    }
  }

  // ----- too large -----

  /** An integer is refused exactly when the double nearest to it is the infinity. */
  lemma TooLarge(n: nat)
    ensures Truncated(n, 1).None? <==> n + Pow2(970) >= Pow2(1024)
  {
    Power53();
    hide Pow2;
    Pow2Add(53, 971);
    Pow2Twice(970);
    Pow2Mono(970, 1023);
    Pow2Twice(1023);
    Pow2Mono(53, 1023);
    if n < P53 {
      assert Truncated(n, 1).Some?;
    } else {
      var k := LargeSpacing(n, 1);
      var h := HalfEven(n, Pow2(k) * 1);
      assert Pow2(k) * 1 == Pow2(k);
      NearestAt(n, Pow2(k), P53);
      Pow2Add(53, k);
      Wider(h, P53, Pow2(k));
      if k < 971 {
        Pow2Mono(53 + k, 1023);
      } else if k == 971 {
        Strictly1(h, P53, Pow2(971));
      } else {
        Pow2Mono(1025, 53 + k);
        Pow2Twice(1024);
        Between(n, Pow2(k), 0x10_0000_0000_0000);
        Wider(0x10_0000_0000_0000, h, Pow2(k));
      }
    }
  }

  lemma Strictly1(h: nat, m: nat, p: nat)
    requires p > 0 && h <= m
    ensures h * p < m * p <==> h < m
  {
    if h < m {
      Strictly(h, m, p);
    }
  }
}
