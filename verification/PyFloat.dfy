/** int(float(text)) for decimal texts: the IEEE double nearest to the decimal, ties to even,
    then truncation toward zero. */
module PyFloat {
  import opened Wrappers
  import opened Bits

  /** 2^53: a double has 53 significant bits. */
  const P53: nat := 0x20_0000_0000_0000

  /** Least exponent of a double. */
  const MIN: nat := 1074

  /** A finite double is below 2^1024. */
  predicate Finite(v: nat)
  {
    v < Pow2(1024)
  }

  function HalfEven(n: nat, d: nat): nat
    requires d > 0
  {
    var q, r := n / d, n % d;
    if 2 * r < d || (2 * r == d && q % 2 == 0) then q else q + 1
  }

  function Quotient(a: nat, b: nat): nat
    requires b > 0
  {
    a / b
  }

  /** n/d is below 2^53 times 2^j: scale it up to 53 bits, round, truncate. */
  function Small(n: nat, d: nat, j: nat): nat
    requires d > 0 && j <= MIN
    decreases MIN - j
  {
    if j < MIN && 2 * n < P53 * d then Small(2 * n, d, j + 1) else Quotient(HalfEven(n, d), Pow2(j))
  }

  /** Scale n/d down to 53 bits, round. */
  function Large(n: nat, d: nat): nat
    requires d > 0
    decreases n - d
  {
    if n >= P53 * d then 2 * Large(n, 2 * d) else HalfEven(n, d)
  }

  /** int(float(n/d)); int refuses the infinity that float makes of a number too large. */
  function Truncated(n: nat, d: nat): Option<nat>
    requires d > 0
  {
    if n < P53 * d then Some(Small(n, d, 0))
    else if Finite(Large(n, d)) then Some(Large(n, d))
    else None
  }

  // ----- which integers survive -----

  ghost predicate Scaled(v: nat, m: nat, k: nat)
  {
    m < P53 && v == m * Pow2(k)
  }

  /** The integers that are doubles. */
  ghost predicate Representable(v: nat)
  {
    Finite(v) && exists m, k :: Scaled(v, m, k)
  }

  lemma Exactly(q: nat, d: nat)
    requires d > 0
    ensures (q * d) / d == q && (q * d) % d == 0
  {
    ModUnique(q * d, d, q, 0);
  }

  lemma Wider(a: nat, b: nat, d: nat)
    requires a <= b
    ensures a * d <= b * d
  {
    assert b * d == a * d + (b - a) * d;
  }

  lemma Between(n: nat, d: nat, v: nat)
    requires d > 0
    ensures v * d <= n ==> v <= n / d
    ensures n <= v * d ==> n / d <= v && (n % d > 0 ==> n / d < v)
  {
    var q, r := n / d, n % d;
    assert n == q * d + r;
    if q + 1 <= v {
      Wider(q + 1, v, d);
      assert (q + 1) * d == q * d + d;
    }
    if v + 1 <= q {
      Wider(v + 1, q, d);
      assert (v + 1) * d == v * d + d;
    }
  }

  lemma Swap(v: nat, p: nat, d: nat)
    ensures v * (2 * p) * d == 2 * (v * p * d)
  {
    assert v * (2 * p) == 2 * (v * p);
  }

  /** Rounding to 53 bits does not cross an integer. */
  lemma {:induction false} SmallBetween(n: nat, d: nat, j: nat, v: nat)
    requires d > 0 && j <= MIN
    ensures v * Pow2(j) * d <= n ==> v <= Small(n, d, j)
    ensures n <= v * Pow2(j) * d ==> Small(n, d, j) <= v
    decreases MIN - j
  {
    if j < MIN && 2 * n < P53 * d {
      Swap(v, Pow2(j), d);
      assert Pow2(j + 1) == 2 * Pow2(j);
      SmallBetween(2 * n, d, j + 1, v);
    } else {
      hide Pow2;
      Between(n, d, v * Pow2(j));
      Between(HalfEven(n, d), Pow2(j), v);
    }
  }

  lemma HalfExact(n: nat, d: nat, m: nat, k: nat)
    requires n == m * Pow2(k) * d && n != m * d
    ensures k > 0 && n == m * Pow2(k - 1) * (2 * d) && m * Pow2(k) == 2 * (m * Pow2(k - 1))
  {
    assert k > 0;
    var p := Pow2(k - 1);
    assert Pow2(k) == 2 * p;
    Swap(m, p, d);
    assert m * p * (2 * d) == 2 * (m * p * d);
  }

  lemma {:induction false} LargeExact(n: nat, d: nat, m: nat, k: nat)
    requires d > 0 && m < P53 && n == m * Pow2(k) * d
    ensures Large(n, d) == m * Pow2(k)
    decreases n - d
  {
    if n >= P53 * d {
      Wider(m + 1, P53, d);
      assert (m + 1) * d == m * d + d;
      HalfExact(n, d, m, k);
      LargeExact(n, 2 * d, m, k - 1);
    } else {
      Exactly(m * Pow2(k), d);
    }
  }

  lemma {:induction false} LargeScaled(n: nat, d: nat) returns (m: nat, k: nat)
    requires d > 0
    ensures Scaled(Large(n, d), m, k)
    decreases n - d
  {
    if n >= P53 * d {
      m, k := LargeScaled(n, 2 * d);
      assert Pow2(k + 1) == 2 * Pow2(k);
      assert m * (2 * Pow2(k)) == 2 * (m * Pow2(k));
      k := k + 1;
    } else {
      Between(n, d, P53);
      m, k := UpToP53(HalfEven(n, d));
    }
  }

  lemma UpToP53(v: nat) returns (m: nat, k: nat)
    requires v <= P53
    ensures Scaled(v, m, k)
  {
    if v < P53 {
      m, k := v, 0;
    } else {
      m, k := P53 / 2, 1;
      assert Pow2(1) == 2 * Pow2(0);
    }
  }

  /** What goes through float comes out unchanged exactly when it is a double. */
  lemma IntegerSurvives(n: nat)
    ensures Truncated(n, 1) == Some(n) <==> Representable(n)
  {
    if n < P53 {
      SmallBetween(n, 1, 0, n);
      assert Scaled(n, n, 0);
      FiniteBelow(n);
    } else {
      var m, k := LargeScaled(n, 1);
      hide Pow2, Large, Finite;
      if m, k :| Scaled(n, m, k) {
        LargeExact(n, 1, m, k);
      }
    }
  }

  lemma FiniteBelow(v: nat)
    requires v <= P53
    ensures Finite(v)
  {
    hide Pow2;
    assert P53 == Pow2(53) by {
      Pow2Add(26, 27);
      Power26();
    }
    Pow2Mono(53, 1024);
  }

  lemma Power26()
    ensures Pow2(26) == 0x400_0000 && Pow2(27) == 0x800_0000
  {
    assert Pow2(4) == 16 && Pow2(2) == 4 && Pow2(3) == 8;
    hide Pow2;
    Pow2Add(4, 4);
    Pow2Add(8, 8);
    Pow2Add(16, 8);
    Pow2Add(24, 2);
    Pow2Add(24, 3);
  }

  /** Whatever comes out is a double, so it goes through again unchanged. */
  lemma ResultIsRepresentable(n: nat, d: nat)
    requires d > 0 && Truncated(n, d).Some?
    ensures Representable(Truncated(n, d).value)
  {
    if n < P53 * d {
      SmallBetween(n, d, 0, P53);
      hide Pow2, Small;
      FiniteBelow(Small(n, d, 0));
      var m, k := UpToP53(Small(n, d, 0));
    } else {
      var m, k := LargeScaled(n, d);
    }
  }

  /** Up to 2^53 every integer survives. */
  lemma ExactUpToP53(n: nat)
    requires n <= P53
    ensures Truncated(n, 1) == Some(n)
  {
    FiniteBelow(n);
    var m, k := UpToP53(n);
    hide Pow2;
    assert Representable(n);
    IntegerSurvives(n);
  }

  function Distance(a: int, b: int): nat
  {
    if a < b then b - a else a - b
  }

  /** HalfEven is the nearest integer; of two it is the even one. */
  lemma HalfEvenNearest(n: nat, d: nat, w: int)
    requires d > 0
    ensures Distance(HalfEven(n, d) * d, n) <= Distance(w * d, n)
    ensures Distance(HalfEven(n, d) * d, n) == Distance(w * d, n) && w != HalfEven(n, d) ==> HalfEven(n, d) % 2 == 0
  {
    var q, r := n / d, n % d;
    assert n == q * d + r;
    assert (q + 1) * d == q * d + d;
    if w < q {
      assert w * d + d <= q * d by { assert q * d == w * d + d + (q - w - 1) * d; Wider(0, q - w - 1, d); }
    } else if w > q + 1 {
      assert w * d >= (q + 1) * d + d by { assert w * d == (q + 1) * d + d + (w - q - 2) * d; Wider(0, w - q - 2, d); }
    }
  }

  lemma Twice(p: nat, p': nat, d: nat, q: nat)
    requires p' == 2 * p
    ensures p * (2 * d) == p' * d && q * p' == 2 * (q * p)
  {
  }

  /** The spacing of the doubles around a large n/d is the 2^k that leaves 53 bits. */
  lemma {:induction false} LargeSpacing(n: nat, d: nat) returns (k: nat)
    requires d > 0
    ensures Large(n, d) == HalfEven(n, Pow2(k) * d) * Pow2(k)
    ensures n < P53 * (Pow2(k) * d) && (k > 0 ==> P53 * (Pow2(k) * d) <= 2 * n)
    decreases n - d
  {
    if n >= P53 * d {
      k := LargeSpacing(n, 2 * d);
      Twice(Pow2(k), Pow2(k + 1), d, HalfEven(n, Pow2(k) * (2 * d)));
      if k == 0 {
        assert Pow2(0) * (2 * d) == 2 * d;
      }
      hide Pow2, HalfEven;
      k := k + 1;
    } else {
      k := 0;
    }
  }

  function Doubled(n: nat, k: nat): nat
    decreases k
  {
    if k == 0 then n else Doubled(2 * n, k - 1)
  }

  lemma {:induction false} DoubledMeaning(n: nat, k: nat)
    ensures Doubled(n, k) == n * Pow2(k)
    decreases k
  {
    if k > 0 {
      DoubledMeaning(2 * n, k - 1);
    }
  }

  /** m of 53 bits at exponent -j; fewer bits only at the least exponent. */
  ghost predicate Full(m: nat, d: nat, j: nat)
  {
    m < P53 * d && j <= MIN && (j < MIN ==> P53 * d <= 2 * m)
  }

  /** Below 2^53 the spacing is the 2^-j that gives 53 bits, down to the least exponent; the
      rounded number is then cut off below the point. */
  lemma {:induction false} SmallSpacing(n: nat, d: nat, i: nat) returns (j: nat)
    requires d > 0 && i <= MIN && n < P53 * d
    ensures i <= j && Full(Doubled(n, j - i), d, j)
    ensures Small(n, d, i) == Quotient(HalfEven(Doubled(n, j - i), d), Pow2(j))
    decreases MIN - i
  {
    hide HalfEven, Quotient;
    if i < MIN && 2 * n < P53 * d {
      j := SmallSpacing(2 * n, d, i + 1);
      hide Full, Pow2;
    } else {
      j := i;
    }
  }

  // ----- texts -----

  predicate IsDigit(c: char)
  {
    '0' <= c <= '9'
  }

  predicate IsNumeric(c: char)
  {
    IsDigit(c) || c == '.'
  }

  predicate AllDigits(s: string)
  {
    forall i | 0 <= i < |s| :: IsDigit(s[i])
  }

  function Digits(s: string): nat
    requires AllDigits(s)
  {
    if s == [] then 0 else 10 * Digits(s[..|s| - 1]) + (s[|s| - 1] as int - '0' as int)
  }

  function Power10(k: nat): (p: nat)
    ensures p > 0
  {
    if k == 0 then 1 else 10 * Power10(k - 1)
  }

  /** The digits before the first dot. */
  function Point(s: string): (p: nat)
    ensures p <= |s|
  {
    if s == [] || s[0] == '.' then 0 else 1 + Point(s[1..])
  }

  function Magnitude(s: string): Option<nat>
  {
    var p := Point(s);
    var fraction := if p < |s| then s[p + 1..] else [];
    var all := s[..p] + fraction;
    if all == [] || !AllDigits(all) then None else Truncated(Digits(all), Power10(|fraction|))
  }

  /** int(float(s)), for a text of digits and dots with perhaps a minus before it. */
  function PyInt(s: string): Option<int>
  {
    if s != [] && s[0] == '-' then Negated(Magnitude(s[1..])) else Same(Magnitude(s))
  }

  function Negated(m: Option<nat>): Option<int>
  {
    if m.None? then None
    else
      var v: int := m.value;
      Some(-v)
  }

  function Same(m: Option<nat>): Option<int>
  {
    if m.Some? then Some(m.value) else None
  }

  function Digit(n: nat): (c: char)
    requires n < 10
    ensures IsDigit(c) && c as int - '0' as int == n
  {
    ('0' as int + n) as char
  }

  /** str(n) for a natural. */
  function Natural(n: nat): (s: string)
    ensures s != [] && AllDigits(s)
  {
    if n < 10 then [Digit(n)] else Natural(n / 10) + [Digit(n % 10)]
  }

  /** str(n). */
  function Decimal(n: int): (s: string)
    ensures s != []
  {
    if n < 0 then "-" + Natural(-n) else Natural(n)
  }

  lemma {:induction false} DigitsNatural(n: nat)
    ensures Digits(Natural(n)) == n
  {
    if n >= 10 {
      DigitsNatural(n / 10);
      assert Natural(n)[..|Natural(n)| - 1] == Natural(n / 10);
    } else {
      assert [Digit(n)][..0] == [];
    }
  }

  lemma {:induction false} PointNone(s: string)
    requires AllDigits(s)
    ensures Point(s) == |s|
  {
    if s != [] {
      PointNone(s[1..]);
    }
  }

  lemma MagnitudeNatural(n: nat)
    ensures Magnitude(Natural(n)) == Truncated(n, 1)
  {
    var s := Natural(n);
    PointNone(s);
    DigitsNatural(n);
    assert s[..|s|] + [] == s;
    hide Truncated, Natural;
  }

  function Abs(n: int): nat
  {
    if n < 0 then -n else n
  }

  lemma PyIntDecimal(n: int)
    ensures PyInt(Decimal(n)) == if n < 0 then Negated(Truncated(-n, 1)) else Same(Truncated(n, 1))
  {
    var s := Natural(Abs(n));
    MagnitudeNatural(Abs(n));
    assert IsDigit(s[0]);
    hide Truncated, Natural, Magnitude, Negated, Same;
    if n < 0 {
      assert Decimal(n) == "-" + s;
      assert ("-" + s)[1..] == s;
    }
  }

  /** int(float(str(n))) is n exactly when n is a double. */
  lemma DecimalSurvives(n: int)
    ensures PyInt(Decimal(n)) == Some(n) <==> Representable(Abs(n))
  {
    PyIntDecimal(n);
    IntegerSurvives(Abs(n));
    hide Truncated, PyInt, Decimal, Representable;
  }

  /** Whatever int accepts, printing the result and reading it again changes nothing. */
  lemma AcceptedSurvives(s: string)
    requires PyInt(s).Some?
    ensures Representable(Abs(PyInt(s).value))
    ensures PyInt(Decimal(PyInt(s).value)) == PyInt(s)
  {
    var body := if s != [] && s[0] == '-' then s[1..] else s;
    MagnitudeIsRepresentable(body);
    hide Magnitude, Representable;
    DecimalSurvives(PyInt(s).value);
  }

  lemma MagnitudeIsRepresentable(s: string)
    requires Magnitude(s).Some?
    ensures Representable(Magnitude(s).value)
  {
    var p := Point(s);
    var fraction := if p < |s| then s[p + 1..] else [];
    ResultIsRepresentable(Digits(s[..p] + fraction), Power10(|fraction|));
  }

  /** The whole part is right below 2^53: "-34.01" gives -34. */
  lemma Bracketed(n: nat, d: nat, v: nat)
    requires d > 0 && n < P53 * d
    ensures v * d <= n ==> v <= Truncated(n, d).value
    ensures n <= v * d ==> Truncated(n, d).value <= v
  {
    SmallBetween(n, d, 0, v);
    assert v * Pow2(0) * d == v * d;
  }
}
