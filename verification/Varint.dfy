/** Integers on the wire: unsigned numbers in groups of seven bits, low group first
    (the ULEB128 format, section 7.6 of DWARF Version 5), signed numbers through the
    ZigZag mapping, and fixed-size little-endian words. */
module Varint {
  import Collections
  import opened Bits

  /** Where an encoder puts its bytes. */
  class Sink {
    var data: seq<byte>

    constructor ()
      ensures data == []
    {
      data := [];
    }

    method Put(b: byte)
      modifies this
      ensures data == old(data) + [b]
    {
      data := data + [b];
    }

    method Write(bs: seq<byte>)
      modifies this
      ensures data == old(data) + bs
    {
      data := data + bs;
    }
  }

  /** Where a decoder gets its bytes: data holds those not read yet. */
  class Source {
    var data: seq<byte>

    constructor (bs: seq<byte>)
      ensures data == bs
    {
      data := bs;
    }

    /** The next byte, or -1 at the end of the input. */
    method Get() returns (b: int)
      modifies this
      ensures old(data) == [] ==> b == -1 && data == []
      ensures old(data) != [] ==> b == old(data)[0] && data == old(data)[1..]
    {
      if data == [] {
        b := -1;
      } else {
        b, data := data[0], data[1..];
      }
    }
  }

  // ----- unsigned -----

  /** The format: every byte but the last carries the continuation bit. */
  function Encode(v: nat): (s: seq<byte>)
    ensures |s| >= 1
    ensures v == 0 ==> s == [0]
  {
    if v < 128 then [v] else [v % 128 + 128] + Encode(v / 128)
  }

  /** The number at the front of s and what follows it.  At the end of the input the
      reader sees -1, whose seven low bits are ones and which ends the number. */
  function Decode(s: seq<byte>): (r: (nat, seq<byte>))
    ensures |r.1| <= |s|
    ensures s != [] ==> |r.1| < |s|
  {
    if s == [] then (127, [])
    else if s[0] < 128 then (s[0], s[1..])
    else
      var (v, rest) := Decode(s[1..]);
      (s[0] - 128 + 128 * v, rest)
  }

  lemma DecodeMore(b: byte, s: seq<byte>)
    requires b >= 128
    ensures Decode([b] + s) == (b - 128 + 128 * Decode(s).0, Decode(s).1)
  {
    assert ([b] + s)[1..] == s;
  }

  method EncodeUnsigned(snk: Sink, n: nat, value: nat)
    requires value < Pow2(n)
    modifies snk
    ensures snk.data == old(snk.data) + Encode(value)
  {
    var v := value;
    while true
      invariant old(snk.data) + Encode(value) == snk.data + Encode(v)
      decreases v
    {
      var b := LowByte(v);
      ghost var was := v;
      v := ShiftGroup(v);
      if v == 0 {
        snk.Put(b);
        break;
      } else {
        b := SetContinued(b);
        assert Encode(was) == [b] + Encode(v);
        snk.Put(b);
      }
    }
  }

  /** The seven low bits. */
  method LowByte(v: nat) returns (b: byte)
    ensures b == v % 128
  {
    MaskSeven(v);
    b := And(v, 0x7f);
  }

  /** What remains above them. */
  method ShiftGroup(v: nat) returns (w: nat)
    ensures w == v / 128
  {
    ShrMeaning(v, 7);
    w := Shr(v, 7);
  }

  /** The continuation bit added. */
  method SetContinued(b: byte) returns (c: byte)
    requires b < 128
    ensures c == b + 128
  {
    OrDisjoint(b, 1, 7);
    c := Or(b, 0x80);
  }

  /** The next byte and its seven low bits; -1 at the end of the input. */
  method GetGroup(src: Source) returns (b: int, group: nat)
    modifies src
    ensures -1 <= b < 256 && group < 128
    ensures b < 128 ==> Decode(old(src.data)) == (group, src.data)
    ensures b >= 128 ==> Decode(old(src.data)) == (group + 128 * Decode(src.data).0, Decode(src.data).1)
    ensures b >= 128 ==> |src.data| < |old(src.data)|
  {
    b := src.Get();
    group := LowSeven(b);
  }

  /** The seven low bits of the word that stands for what Get returned. */
  method LowSeven(b: int) returns (group: nat)
    requires -1 <= b < 256
    ensures group == if b < 0 then 127 else b % 128
  {
    SevenBits(32, b);
    group := And(Word(32, b), 0x7f);
  }

  /** Whatever the input, the loop computes the number of the format, truncated to the
      width, and leaves the rest of the input. */
  method DecodeUnsigned(src: Source, n: nat) returns (v: nat)
    requires n >= 8
    modifies src
    ensures v == Decode(old(src.data)).0 % Pow2(n)
    ensures src.data == Decode(old(src.data)).1
  {
    ghost var input := src.data;
    ghost var sum: nat := 0;
    var shift: nat := 0;
    v := 0;
    ModUnique(0, Pow2(n), 0, 0);
    while true
      invariant Accumulated(n, Decode(input).0, v, shift, Decode(src.data).0, sum)
      invariant Decode(input).1 == Decode(src.data).1
      decreases |src.data|
    {
      ghost var before := src.data;
      var b, group := GetGroup(src);
      ghost var more := if b < 0x80 then 0 else Decode(src.data).0;
      sum := Step(n, Decode(input).0, v, shift, group, more, Decode(before).0, sum);
      v := Or(v, Shl(n, group, shift));
      if b < 0x80 {
        Last(n, Decode(input).0, v, shift + 7, sum);
        break;
      }
      shift := shift + 7;
    }
  }

  /** The decoder's invariant: the number read is the sum so far plus what is still to
      come, shifted, and v is that sum in a word of width n. */
  ghost predicate Accumulated(n: nat, total: nat, v: nat, shift: nat, more: nat, sum: nat)
  {
    sum < Pow2(shift) && Truncates(n, sum, v) && total == sum + Raise(more, shift)
  }

  /** x with k zero bits below it. */
  ghost function Raise(x: nat, k: nat): nat
  {
    if k == 0 then x else 2 * Raise(x, k - 1)
  }

  lemma {:induction false} RaiseMeaning(x: nat, k: nat)
    ensures Raise(x, k) == x * Pow2(k)
  {
    if k > 0 {
      RaiseMeaning(x, k - 1);
      assert x * (2 * Pow2(k - 1)) == 2 * (x * Pow2(k - 1));
    }
  }

  ghost predicate Truncates(n: nat, sum: nat, v: nat)
  {
    v == sum % Pow2(n)
  }

  lemma Accumulate(n: nat, v: nat, shift: nat, group: nat, sum: nat)
    requires group < Pow2(n) && sum < Pow2(shift) && Truncates(n, sum, v)
    ensures Truncates(n, sum + Raise(group, shift), Or(v, Shl(n, group, shift)))
  {
    ShlMeaning(n, group, shift);
    RaiseMeaning(group, shift);
    OrShifted(n, sum, group, shift);
  }

  /** One round of the loop, on a group whose number is all: group and then more. */
  lemma Step(n: nat, total: nat, v: nat, shift: nat, group: nat, more: nat, all: nat, sum: nat)
    returns (sum': nat)
    requires n >= 8 && group < 128 && all == group + 128 * more
    requires Accumulated(n, total, v, shift, all, sum)
    ensures group < Pow2(n)
    ensures Accumulated(n, total, Or(v, Shl(n, group, shift)), shift + 7, more, sum')
  {
    Pow2Mono(8, n);
    assert Pow2(8) == 256;
    Accumulate(n, v, shift, group, sum);
    NextGroup(group, shift, more);
    sum' := sum + Raise(group, shift);
  }

  lemma Last(n: nat, total: nat, v: nat, shift: nat, sum: nat)
    requires Accumulated(n, total, v, shift, 0, sum)
    ensures v == total % Pow2(n)
  {
    RaiseMeaning(0, shift);
  }

  /** The low seven bits of what Get returns, -1 at the end of the input included. */
  lemma SevenBits(n: nat, b: int)
    requires n >= 8 && -1 <= b < 256
    ensures 0 - Pow2(n) <= b < Pow2(n)
    ensures And(Word(n, b), 0x7f) == if b < 0 then 127 else b % 128
  {
    WordSeven(n, b);
    MaskSeven(Word(n, b));
  }

  lemma WordSeven(n: nat, b: int)
    requires n >= 8 && -1 <= b < 256
    ensures 0 - Pow2(n) <= b < Pow2(n)
    ensures Word(n, b) % 128 == if b < 0 then 127 else b % 128
  {
    SevenMore(n - 7);
    assert Pow2(n - 7) >= 2;
  }

  lemma MaskSeven(v: nat)
    ensures And(v, 0x7f) == v % 128
  {
    AndMask(v, 7);
    LowMeaning(v, 7);
    assert Pow2(7) == 128;
  }

  lemma {:induction false} NextGroup(group: nat, shift: nat, more: nat)
    requires group < 128
    ensures Raise(group + 128 * more, shift) == Raise(group, shift) + Raise(more, shift + 7)
    ensures Raise(group, shift) <= 127 * Pow2(shift)
    ensures Pow2(shift + 7) == 128 * Pow2(shift)
  {
    if shift > 0 {
      NextGroup(group, shift - 1, more);
    } else {
      SevenUp(more);
    }
  }

  lemma SevenUp(more: nat)
    ensures Raise(more, 7) == 128 * more && Pow2(7) == 128
  {
    RaiseMeaning(more, 7);
    assert Pow2(7) == 128;
  }

  /** Truncating or-and-shift accumulation is addition modulo the width. */
  lemma OrShifted(n: nat, sum: nat, group: nat, shift: nat)
    requires sum < Pow2(shift)
    ensures Or(sum % Pow2(n), (group * Pow2(shift)) % Pow2(n)) == (sum + group * Pow2(shift)) % Pow2(n)
  {
    if shift <= n {
      var w := Pow2(n - shift);
      Pow2Add(shift, n - shift);
      Pow2Mono(shift, n);
      FieldInside(Pow2(n), Pow2(shift), w, sum, group);
      OrDisjoint(sum, group % w, shift);
    } else {
      Pow2Add(n, shift - n);
      FieldOutside(Pow2(n), Pow2(shift), Pow2(shift - n), sum, group);
    }
  }

  lemma FieldInside(m: nat, p: nat, w: nat, sum: nat, group: nat)
    requires p > 0 && w > 0 && m == p * w && sum < p
    ensures m > 0 && sum % m == sum
    ensures (group * p) % m == (group % w) * p
    ensures (sum + group * p) % m == sum + (group % w) * p
  {
    var q, r := group / w, group % w;
    AtLeastOnce(p, w);
    assert group == w * q + r;
    assert group * p == m * q + r * p by {
      assert (w * q + r) * p == (p * w) * q + r * p;
    }
    Scale(r + 1, w, p);
    assert (r + 1) * p == r * p + p && w * p == m;
    assert r * p >= 0;
    ModUnique(group * p, m, q, r * p);
    ModUnique(sum + group * p, m, q, sum + r * p);
    ModUnique(sum, m, 0, sum);
  }

  lemma FieldOutside(m: nat, p: nat, w: nat, sum: nat, group: nat)
    requires m > 0 && p == m * w
    ensures (group * p) % m == 0
    ensures (sum + group * p) % m == sum % m
  {
    var q, r := sum / m, sum % m;
    assert group * p == m * (w * group) by {
      assert group * (m * w) == m * (w * group);
    }
    ModUnique(group * p, m, w * group, 0);
    assert m * (q + w * group) == m * q + m * (w * group);
    ModUnique(sum + group * p, m, q + w * group, r);
  }

  lemma Scale(a: nat, b: nat, p: nat)
    requires a <= b
    ensures a * p <= b * p
  {
    assert b * p == a * p + (b - a) * p;
  }

  /** Printer then parser is the identity, whatever follows. */
  lemma {:induction false} RoundTrip(v: nat, t: seq<byte>)
    ensures Decode(Encode(v) + t) == (v, t)
    decreases v
  {
    if v < 128 {
      assert ([v] + t)[1..] == t;
    } else {
      var q, b := v / 128, v % 128 + 128;
      RoundTrip(q, t);
      DecodeMore(b, Encode(q) + t);
      Collections.Associate([b], Encode(q), t);
    }
  }

  /** Inside a word the truncation of the decoder loop is the identity, and no shift
      it makes (7 for every byte after the first) reaches the width. */
  lemma WordRoundTrip(n: nat, v: nat, t: seq<byte>)
    requires 0 < n && v < Pow2(n)
    ensures Decode(Encode(v) + t).0 % Pow2(n) == v
    ensures Decode(Encode(v) + t).1 == t
    ensures 7 * (|Encode(v)| - 1) < n
  {
    RoundTrip(v, t);
    ModUnique(v, Pow2(n), 0, v);
    var k := |Encode(v)| - 1;
    if k > 0 {
      Length(v, k);
      if n <= 7 * k {
        Pow2Mono(n, 7 * k);
        assert false;
      }
    }
  }

  /** The length is exactly the number of seven-bit groups that v needs. */
  lemma {:induction false} Length(v: nat, k: nat)
    requires k > 0
    ensures |Encode(v)| <= k <==> v < Pow2(7 * k)
    decreases k
  {
    Pow2Add(7 * (k - 1), 7);
    assert Pow2(7) == 128;
    assert Pow2(7 * k) == 128 * Pow2(7 * (k - 1));
    if v >= 128 {
      if k == 1 {
        assert Pow2(7 * 0) == 1;
      } else {
        Length(v / 128, k - 1);
        assert v / 128 < Pow2(7 * (k - 1)) <==> v < 128 * Pow2(7 * (k - 1));
      }
    } else {
      assert Pow2(7 * (k - 1)) >= 1;
    }
  }

  /** No encoding is a proper prefix of another one, and no two numbers share one. */
  lemma PrefixFree(v: nat, w: nat, t: seq<byte>)
    requires Encode(v) + t == Encode(w)
    ensures v == w && t == []
  {
    RoundTrip(v, t);
    RoundTrip(w, []);
    assert Encode(w) + [] == Encode(w);
  }

  // ----- signed -----

  /** Two's complement: the word of a signed number, and back. */
  function Word(n: nat, v: int): (u: nat)
    requires 0 - Pow2(n) <= v < Pow2(n)
    ensures u < Pow2(n)
  {
    if v < 0 then v + Pow2(n) else v
  }

  function Signed(n: nat, u: nat): int
    requires n > 0
  {
    if u < Pow2(n - 1) then u else u - Pow2(n)
  }

  predicate Fits(n: nat, v: int)
    requires n > 0
  {
    0 - Pow2(n - 1) <= v < Pow2(n - 1)
  }

  /** Twice the word, against the sign in every bit. */
  function ZigZag(n: nat, v: int): nat
    requires n > 0 && Fits(n, v)
  {
    SignSpread(n - 1, v);
    Xor(Shl(n, Word(n, v), 1), Word(n, Sar(v, n - 1)))
  }

  /** Half the word, against the low bit in every bit. */
  function UnZigZag(n: nat, u: nat): int
    requires n > 0
  {
    LowBit(u);
    Signed(n, Xor(Shr(u, 1), Word(n, 0 - And(u, 1))))
  }

  method EncodeSigned(snk: Sink, n: nat, v: int)
    requires n > 0 && Fits(n, v)
    modifies snk
    ensures snk.data == old(snk.data) + Encode(ZigZag(n, v))
  {
    ZigZagMeaning(n, v);
    EncodeUnsigned(snk, n, ZigZag(n, v));
  }

  method DecodeSigned(src: Source, n: nat) returns (v: int)
    requires n >= 8
    modifies src
    ensures v == UnZigZag(n, Decode(old(src.data)).0 % Pow2(n))
    ensures src.data == Decode(old(src.data)).1
  {
    var u := DecodeUnsigned(src, n);
    v := UnZigZag(n, u);
  }

  lemma {:induction false} SignSpread(k: nat, v: int)
    requires 0 - Pow2(k) <= v < Pow2(k)
    ensures Sar(v, k) == if v >= 0 then 0 else -1
    decreases k
  {
    if k > 0 {
      SignSpread(k - 1, v / 2);
    }
  }

  lemma XorZero(a: nat)
    ensures Xor(a, 0) == a
  {
  }

  lemma LowBit(u: nat)
    ensures And(u, 1) == u % 2 && Shr(u, 1) == u / 2
  {
    AndMask(u, 1);
  }

  lemma Doubled(n: nat, u: nat)
    requires n > 0 && u < Pow2(n)
    ensures Shl(n, u, 1) == if u < Pow2(n - 1) then 2 * u else 2 * u - Pow2(n)
  {
  }

  lemma ZigZagPositive(n: nat, v: int)
    requires n > 0 && Fits(n, v) && v >= 0
    ensures ZigZag(n, v) == 2 * v
  {
    SignSpread(n - 1, v);
    Doubled(n, Word(n, v));
  }

  lemma ZigZagNegative(n: nat, v: int)
    requires n > 0 && Fits(n, v) && v < 0
    ensures ZigZag(n, v) == -2 * v - 1
  {
    SignSpread(n - 1, v);
    Doubled(n, Word(n, v));
    XorOnes(2 * v + Pow2(n), n);
  }

  /** What the shifts and the exclusive or compute: they interleave the negative numbers
      with the others. */
  function Interleave(v: int): (u: nat)
  {
    if v >= 0 then 2 * v else -2 * v - 1
  }

  function Deinterleave(u: nat): (v: int)
    ensures Interleave(v) == u
  {
    if u % 2 == 0 then u / 2 else 0 - u / 2 - 1
  }

  lemma ZigZagMeaning(n: nat, v: int)
    requires n > 0 && Fits(n, v)
    ensures ZigZag(n, v) == Interleave(v) < Pow2(n)
  {
    if v >= 0 {
      ZigZagPositive(n, v);
    } else {
      ZigZagNegative(n, v);
    }
  }

  lemma UnZigZagEven(n: nat, u: nat, h: nat)
    requires n > 0 && h < Pow2(n - 1)
    requires And(u, 1) == 0 && Shr(u, 1) == h
    ensures UnZigZag(n, u) == h
  {
    XorZero(h);
  }

  lemma UnZigZagOdd(n: nat, u: nat, h: nat)
    requires n > 0 && h < Pow2(n - 1)
    requires And(u, 1) == 1 && Shr(u, 1) == h
    ensures UnZigZag(n, u) == 0 - h - 1
  {
    Complement(n, h);
  }

  lemma Complement(n: nat, h: nat)
    requires n > 0 && h < Pow2(n - 1)
    ensures Signed(n, Xor(h, Pow2(n) - 1)) == 0 - h - 1
  {
    XorOnes(h, n);
  }

  lemma UnZigZagMeaning(n: nat, u: nat)
    requires n > 0 && u < Pow2(n)
    ensures UnZigZag(n, u) == Deinterleave(u)
    ensures Fits(n, UnZigZag(n, u))
  {
    LowBit(u);
    if u % 2 == 0 {
      UnZigZagEven(n, u, u / 2);
    } else {
      UnZigZagOdd(n, u, u / 2);
    }
  }

  /** The mapping is a bijection between the signed and the unsigned n-bit numbers. */
  lemma ZigZagBijection(n: nat)
    requires n > 0
    ensures forall v | Fits(n, v) :: ZigZag(n, v) < Pow2(n) && UnZigZag(n, ZigZag(n, v)) == v
    ensures forall u: nat | u < Pow2(n) :: Fits(n, UnZigZag(n, u)) && ZigZag(n, UnZigZag(n, u)) == u
  {
    forall v | Fits(n, v)
      ensures ZigZag(n, v) < Pow2(n) && UnZigZag(n, ZigZag(n, v)) == v
    {
      UnZag(n, v, ZigZag(n, v));
    }
    forall u: nat | u < Pow2(n)
      ensures Fits(n, UnZigZag(n, u)) && ZigZag(n, UnZigZag(n, u)) == u
    {
      ReZag(n, u);
    }
  }

  lemma UnZag(n: nat, v: int, u: nat)
    requires n > 0 && Fits(n, v) && u == ZigZag(n, v)
    ensures u < Pow2(n) && UnZigZag(n, u) == v
  {
    ZigZagMeaning(n, v);
    UnZigZagMeaning(n, u);
    Inverse(v, u);
  }

  lemma Inverse(v: int, u: nat)
    requires u == Interleave(v)
    ensures Deinterleave(u) == v
  {
  }

  lemma ReZag(n: nat, u: nat)
    requires n > 0 && u < Pow2(n)
    ensures Fits(n, UnZigZag(n, u)) && ZigZag(n, UnZigZag(n, u)) == u
  {
    UnZigZagMeaning(n, u);
    ZigZagMeaning(n, Deinterleave(u));
  }

  lemma SignedRoundTrip(n: nat, v: int, t: seq<byte>)
    requires n > 0 && Fits(n, v)
    ensures UnZigZag(n, Decode(Encode(ZigZag(n, v)) + t).0 % Pow2(n)) == v
    ensures Decode(Encode(ZigZag(n, v)) + t).1 == t
  {
    UnZag(n, v, ZigZag(n, v));
    WordRoundTrip(n, ZigZag(n, v), t);
  }

  /** A signed number takes at most k bytes exactly when 7k bits hold it: small
      magnitudes are short whatever their sign. */
  lemma SignedLength(n: nat, v: int, k: nat)
    requires n > 0 && k > 0 && Fits(n, v)
    ensures |Encode(ZigZag(n, v))| <= k <==> Fits(7 * k, v)
  {
    ZigZagMeaning(n, v);
    Length(ZigZag(n, v), k);
  }

  // ----- fixed -----

  /** The k bytes of a word, least significant first. */
  function Little(v: nat, k: nat): (s: seq<byte>)
    ensures |s| == k
  {
    if k == 0 then [] else [v % 256] + Little(v / 256, k - 1)
  }

  function FromLittle(s: seq<byte>): nat
  {
    if s == [] then 0 else s[0] + 256 * FromLittle(s[1..])
  }

  lemma {:induction false} LittleRoundTrip(v: nat, k: nat)
    requires v < Pow2(8 * k)
    ensures FromLittle(Little(v, k)) == v
    decreases k
  {
    if k > 0 {
      Pow2Add(8 * (k - 1), 8);
      assert Pow2(8) == 256;
      assert Pow2(8 * k) == 256 * Pow2(8 * (k - 1));
      LittleRoundTrip(v / 256, k - 1);
      assert Little(v, k)[1..] == Little(v / 256, k - 1);
    }
  }

  lemma {:induction false} LittleInverse(s: seq<byte>)
    ensures FromLittle(s) < Pow2(8 * |s|)
    ensures Little(FromLittle(s), |s|) == s
  {
    if s != [] {
      LittleInverse(s[1..]);
      Pow2Add(8 * |s[1..]|, 8);
      assert Pow2(8) == 256;
      assert Pow2(8 * |s|) == 256 * Pow2(8 * |s[1..]|);
      var v := FromLittle(s);
      assert v % 256 == s[0] && v / 256 == FromLittle(s[1..]);
    }
  }
}
