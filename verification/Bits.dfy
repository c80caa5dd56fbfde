/** Unsigned words of any width as natural numbers, with the bitwise operators the
    integer codec is written in.  A word of width n is a number below Pow2(n). */
module Bits {

  type byte = x: int | 0 <= x < 256

  function Pow2(n: nat): (p: nat)
    ensures p >= 1
  {
    if n == 0 then 1 else 2 * Pow2(n - 1)
  }

  /** Bit k of a, counting from the least significant one. */
  predicate Bit(a: nat, k: nat)
  {
    if k == 0 then a % 2 == 1 else Bit(a / 2, k - 1)
  }

  function And(a: nat, b: nat): nat
  {
    if a == 0 || b == 0 then 0
    else 2 * And(a / 2, b / 2) + if a % 2 == 1 && b % 2 == 1 then 1 else 0
  }

  function Or(a: nat, b: nat): nat
    decreases a + b
  {
    if a == 0 then b
    else if b == 0 then a
    else 2 * Or(a / 2, b / 2) + if a % 2 == 1 || b % 2 == 1 then 1 else 0
  }

  function Xor(a: nat, b: nat): nat
    decreases a + b
  {
    if a == 0 then b
    else if b == 0 then a
    else 2 * Xor(a / 2, b / 2) + if a % 2 != b % 2 then 1 else 0
  }

  /** Left shift in a word of width n: the bits pushed past the width are lost. */
  function Shl(n: nat, a: nat, k: nat): (r: nat)
    requires a < Pow2(n)
    ensures r < Pow2(n)
    decreases k
  {
    if k == 0 then a
    else if 2 * a < Pow2(n) then Shl(n, 2 * a, k - 1)
    else Shl(n, 2 * a - Pow2(n), k - 1)
  }

  /** Logical right shift. */
  function Shr(a: nat, k: nat): (r: nat)
    ensures r <= a
    decreases k
  {
    if k == 0 then a else Shr(a / 2, k - 1)
  }

  /** Arithmetic right shift of a signed number: each step rounds down. */
  function Sar(v: int, k: nat): int
    decreases k
  {
    if k == 0 then v else Sar(v / 2, k - 1)
  }

  // The three operators mean what they should, bit by bit.

  lemma {:induction false} AndMeaning(a: nat, b: nat, k: nat)
    ensures Bit(And(a, b), k) <==> Bit(a, k) && Bit(b, k)
    decreases k
  {
    if a == 0 || b == 0 {
      ZeroBits(k);
    } else if k > 0 {
      AndMeaning(a / 2, b / 2, k - 1);
    }
  }

  lemma {:induction false} OrMeaning(a: nat, b: nat, k: nat)
    ensures Bit(Or(a, b), k) <==> Bit(a, k) || Bit(b, k)
    decreases k
  {
    if a == 0 || b == 0 {
      ZeroBits(k);
    } else if k > 0 {
      OrMeaning(a / 2, b / 2, k - 1);
    }
  }

  lemma {:induction false} XorMeaning(a: nat, b: nat, k: nat)
    ensures Bit(Xor(a, b), k) <==> Bit(a, k) != Bit(b, k)
    decreases k
  {
    if a == 0 || b == 0 {
      ZeroBits(k);
    } else if k > 0 {
      XorMeaning(a / 2, b / 2, k - 1);
    }
  }

  lemma {:induction false} ZeroBits(k: nat)
    ensures !Bit(0, k)
  {
    if k > 0 {
      ZeroBits(k - 1);
    }
  }

  lemma {:induction false} Pow2Add(a: nat, b: nat)
    ensures Pow2(a + b) == Pow2(a) * Pow2(b)
  {
    if a > 0 {
      Pow2Add(a - 1, b);
      calc {
        Pow2(a + b);
        2 * (Pow2(a - 1) * Pow2(b));
        Pow2(a) * Pow2(b);
      }
    }
  }

  lemma {:induction false} Pow2Mono(a: nat, b: nat)
    requires a <= b
    ensures Pow2(a) <= Pow2(b)
    ensures a < b ==> Pow2(a) < Pow2(b)
  {
    if a < b {
      Pow2Mono(a, b - 1);
    }
  }

  /** The number made of the k low bits of a. */
  function Low(a: nat, k: nat): nat
    decreases k
  {
    if k == 0 then 0 else 2 * Low(a / 2, k - 1) + a % 2
  }

  lemma {:induction false} LowMeaning(a: nat, k: nat)
    ensures Low(a, k) == a % Pow2(k)
    decreases k
  {
    if k > 0 {
      LowMeaning(a / 2, k - 1);
      HalfMod(a, Pow2(k - 1));
    }
  }

  lemma {:induction false} ZeroLow(k: nat)
    ensures Low(0, k) == 0
  {
    if k > 0 {
      ZeroLow(k - 1);
    }
  }

  lemma OnesHalf(k: nat)
    requires k > 0
    ensures (Pow2(k) - 1) / 2 == Pow2(k - 1) - 1 && (Pow2(k) - 1) % 2 == 1
  {
  }

  /** Masking with k one bits keeps the k low bits. */
  lemma {:induction false} AndMask(a: nat, k: nat)
    ensures And(a, Pow2(k) - 1) == Low(a, k)
    decreases k
  {
    if a == 0 {
      ZeroLow(k);
    } else if k > 0 {
      AndMask(a / 2, k - 1);
      OnesHalf(k);
    }
  }

  /** The low bit and the rest of a remainder by an even number. */
  lemma HalfMod(a: nat, p: nat)
    requires p > 0
    ensures a % (2 * p) == 2 * ((a / 2) % p) + a % 2
  {
    var q, r := (a / 2) / p, (a / 2) % p;
    assert a / 2 == q * p + r;
    assert a == (2 * p) * q + (2 * r + a % 2) by {
      assert (2 * p) * q == 2 * (q * p);
    }
    ModUnique(a, 2 * p, q, 2 * r + a % 2);
  }

  lemma ModUnique(a: int, m: int, q: int, r: int)
    requires m > 0 && a == m * q + r && 0 <= r < m
    ensures a / m == q && a % m == r
  {
    var q', r' := a / m, a % m;
    var d := q - q';
    assert m * d == r' - r by {
      assert m * d == m * q - m * q';
    }
    if d > 0 {
      AtLeastOnce(m, d);
    } else if d < 0 {
      AtLeastOnce(m, -d);
    }
  }

  lemma AtLeastOnce(m: int, d: int)
    requires m > 0 && d >= 1
    ensures m * d >= m
  {
    assert m * d == m * (d - 1) + m;
    assert m * (d - 1) >= 0;
  }

  /** Writing a field above the k bits already in place is addition. */
  lemma {:induction false} OrDisjoint(a: nat, b: nat, k: nat)
    requires a < Pow2(k)
    ensures Or(a, b * Pow2(k)) == a + b * Pow2(k)
    decreases k
  {
    if a > 0 && b > 0 {
      OrDisjoint(a / 2, b, k - 1);
      FieldAbove(b, k);
      OrDoubled(a, b * Pow2(k - 1));
    }
  }

  lemma FieldAbove(b: nat, k: nat)
    requires b > 0 && k > 0
    ensures b * Pow2(k - 1) > 0
    ensures b * Pow2(k) == 2 * (b * Pow2(k - 1))
  {
    var p := Pow2(k - 1);
    AtLeastOnce(p, b);
    assert b * (2 * p) == 2 * (b * p);
  }

  lemma OrDoubled(a: nat, c: nat)
    requires a > 0 && c > 0
    ensures Or(a, 2 * c) == 2 * Or(a / 2, c) + a % 2
  {
  }

  /** Exclusive or with a word of ones is complement. */
  lemma {:induction false} XorOnes(a: nat, k: nat)
    requires a < Pow2(k)
    ensures Xor(a, Pow2(k) - 1) == Pow2(k) - 1 - a
    decreases k
  {
    if k > 0 && a > 0 {
      XorOnes(a / 2, k - 1);
      OnesHalf(k);
    }
  }

  lemma {:induction false} ShlMeaning(n: nat, a: nat, k: nat)
    requires a < Pow2(n)
    ensures Shl(n, a, k) == (a * Pow2(k)) % Pow2(n)
    decreases k
  {
    if k == 0 {
      ModUnique(a, Pow2(n), 0, a);
    } else {
      var m, p := Pow2(n), Pow2(k - 1);
      var c := if 2 * a < m then 0 else 1;
      var b := 2 * a - c * m;
      ShlMeaning(n, b, k - 1);
      ShiftedOut(m, p, a, b, c);
    }
  }

  lemma ShiftedOut(m: nat, p: nat, a: nat, b: nat, c: nat)
    requires m > 0 && 2 * a == c * m + b
    ensures (a * (2 * p)) % m == (b * p) % m
  {
    var q, r := (b * p) / m, (b * p) % m;
    assert a * (2 * p) == m * (c * p + q) + r by {
      assert (c * m + b) * p == m * (c * p) + b * p;
      assert a * (2 * p) == (2 * a) * p;
      assert m * (c * p + q) == m * (c * p) + m * q;
    }
    ModUnique(a * (2 * p), m, c * p + q, r);
  }

  lemma {:induction false} ShrMeaning(a: nat, k: nat)
    ensures Shr(a, k) == a / Pow2(k)
    decreases k
  {
    if k > 0 {
      ShrMeaning(a / 2, k - 1);
      HalfDiv(a, Pow2(k - 1));
    }
  }

  lemma HalfDiv(a: nat, p: nat)
    requires p > 0
    ensures a / (2 * p) == (a / 2) / p
  {
    var q, r := (a / 2) / p, (a / 2) % p;
    assert a / 2 == p * q + r;
    Twice(p, q);
    ModUnique(a, 2 * p, q, 2 * r + a % 2);
  }

  lemma Twice(p: nat, q: nat)
    ensures (2 * p) * q == 2 * (p * q)
  {
  }

  lemma {:induction false} SevenMore(k: nat)
    ensures Pow2(k + 7) == 128 * Pow2(k)
  {
    if k > 0 {
      SevenMore(k - 1);
    } else {
      assert Pow2(7) == 128;
    }
  }
}
