/** The formats byte by byte, with every constant written out. */
module WireFormat {
  import opened Wrappers
  import opened Bits
  import Collections
  import V = Varint
  import C = Codec
  import P = Package

  lemma Widths()
    ensures Pow2(7) == 0x80 && Pow2(8) == 0x100 && Pow2(15) == 0x8000 && Pow2(16) == 0x1_0000
    ensures Pow2(31) == 0x8000_0000 && Pow2(32) == 0x1_0000_0000
    ensures Pow2(63) == 0x8000_0000_0000_0000 && Pow2(64) == 0x1_0000_0000_0000_0000
  {
    assert Pow2(7) == 0x80 && Pow2(8) == 0x100;
    hide Pow2;
    Pow2Add(7, 8);
    Pow2Add(8, 8);
    Pow2Add(15, 16);
    Pow2Add(16, 16);
    Pow2Add(31, 32);
    Pow2Add(32, 32);
  }

  // ----- numbers -----

  lemma Nested(v: nat, a: nat, b: nat)
    requires a > 0 && b > 0
    ensures (v / a) / b == v / (a * b)
  {
    var q, r := v / a, v % a;
    var p, t := q / b, q % b;
    Expand(v, a, b, q, r, p, t);
    Wider(a, t, b);
    ModUnique(v, a * b, p, a * t + r);
  }

  lemma Expand(v: nat, a: nat, b: nat, q: nat, r: nat, p: nat, t: nat)
    requires v == a * q + r && q == b * p + t
    ensures v == (a * b) * p + (a * t + r)
  {
    assert a * (b * p + t) == a * (b * p) + a * t;
    assert a * (b * p) == (a * b) * p;
  }

  lemma {:induction false} Wider(a: nat, t: nat, b: nat)
    requires t < b
    ensures 0 <= a * t && a * t + a <= a * b
    decreases b
  {
    if t + 1 < b {
      Wider(a, t, b - 1);
      assert a * b == a * (b - 1) + a;
    } else {
      assert a * (t + 1) == a * t + a;
    }
  }

  /** Byte i of a number holds its bits from 7 i on, and the mark that another byte follows. */
  lemma {:induction false} Groups(v: nat, i: nat)
    requires i < |V.Encode(v)|
    ensures V.Encode(v)[i] == (v / Pow2(7 * i)) % 128 + if i + 1 < |V.Encode(v)| then 128 else 0
    decreases i
  {
    if i > 0 {
      Groups(v / 128, i - 1);
      var p := Pow2(7 * (i - 1));
      SevenMore(7 * (i - 1));
      Nested(v, 128, p);
      hide Pow2;
    }
  }

  /** Byte i of a fixed word holds its bits from 8 i on. */
  lemma {:induction false} LittleAt(v: nat, k: nat, i: nat)
    requires i < k
    ensures V.Little(v, k)[i] == (v / Pow2(8 * i)) % 256
    decreases i
  {
    if i > 0 {
      LittleAt(v / 256, k - 1, i - 1);
      Pow2Add(8, 8 * (i - 1));
      assert Pow2(8) == 256;
      Nested(v, 256, Pow2(8 * (i - 1)));
      hide Pow2;
    }
  }

  /** At the end of the input every number has one more byte, of seven ones. */
  lemma EndOfInput(b: byte)
    ensures V.Decode([]) == (127, []) && V.Decode([b]) == (if b < 128 then b else b - 128 + 128 * 127, [])
  {
  }

  /** The ranges of the integer types at each width. */
  lemma UnsignedRange(n: nat, max: nat, x: int)
    requires (n == 8 && max == 0xff) || (n == 16 && max == 0xffff)
          || (n == 32 && max == 0xffff_ffff) || (n == 64 && max == 0xffff_ffff_ffff_ffff)
    ensures C.HasType(C.U(n), C.Num(x)) <==> 0 <= x <= max
    ensures C.HasType(C.Fixed(n / 8), C.Num(x)) <==> 0 <= x <= max
  {
    Widths();
    hide Pow2;
    assert 8 * (n / 8) == n;
  }

  lemma SignedRange(n: nat, max: nat, x: int)
    requires (n == 8 && max == 0x7f) || (n == 16 && max == 0x7fff)
          || (n == 32 && max == 0x7fff_ffff) || (n == 64 && max == 0x7fff_ffff_ffff_ffff)
    ensures C.HasType(C.S(n), C.Num(x)) <==> 0 - max - 1 <= x <= max
  {
    Widths();
    hide Pow2;
  }

  /** How each of them is written; an enum like the integers it is made of. */
  lemma ScalarBytes(n: nat, x: int)
    requires n >= 8
    ensures C.HasType(C.U(n), C.Num(x)) ==>
      C.Encode(C.U(n), C.Num(x)) == V.Encode(x) && C.Encode(C.Enum(C.U(n)), C.Num(x)) == V.Encode(x)
    ensures C.HasType(C.S(n), C.Num(x)) ==>
      && C.Encode(C.S(n), C.Num(x)) == V.Encode(if x >= 0 then 2 * x else -2 * x - 1)
      && C.Encode(C.Enum(C.S(n)), C.Num(x)) == V.Encode(if x >= 0 then 2 * x else -2 * x - 1)
    ensures C.HasType(C.Fixed(n), C.Num(x)) ==> C.Encode(C.Fixed(n), C.Num(x)) == V.Little(x, n)
  {
    if V.Fits(n, x) {
      V.ZigZagMeaning(n, x);
    }
    hide Pow2, V.ZigZag;
  }

  // ----- vectors and tuples -----

  /** A vector has its type whenever its elements have theirs and a 64-bit size counts them. */
  lemma VecTyped(e: C.Schema, xs: seq<C.Value>)
    requires C.WellFormed(e) && forall x | x in xs :: C.HasType(e, x)
    requires |xs| < 0x1_0000_0000_0000_0000
    ensures C.HasType(C.Vec(e), C.Items(xs))
  {
    Widths();
    hide Pow2;
  }

  lemma {:induction false} ManyCount(e: C.Schema, count: nat, s: seq<byte>)
    requires C.WellFormed(e) && C.DecodeMany(e, count, s).Some?
    ensures |C.DecodeMany(e, count, s).value.0| == count
    decreases count
  {
    if count > 0 {
      ManyCount(e, count - 1, C.Decode(e, s).value.1);
    }
    hide C.Decode;
  }

  /** Any vector that is read has as many elements as the size in front of it says. */
  lemma VecCount(e: C.Schema, n: nat, s: seq<byte>)
    requires C.WellFormed(e) && n < 0x1_0000_0000_0000_0000
    ensures var r := C.Decode(C.Vec(e), V.Encode(n) + s);
      r.Some? ==> r.value.0.Items? && |r.value.0.items| == n
  {
    Widths();
    V.RoundTrip(n, s);
    ModUnique(n, Pow2(64), 0, n);
    hide Pow2, C.DecodeMany, V.Encode;
    if C.Decode(C.Vec(e), V.Encode(n) + s).Some? {
      ManyCount(e, n, s);
    }
  }

  function Each(e: C.Schema, xs: seq<C.Value>): (parts: seq<seq<byte>>)
    requires C.WellFormed(e) && forall x | x in xs :: C.HasType(e, x)
    ensures |parts| == |xs| && forall i | 0 <= i < |xs| :: parts[i] == C.Encode(e, xs[i])
  {
    seq(|xs|, i requires 0 <= i < |xs| => C.Encode(e, xs[i]))
  }

  lemma {:induction false} AllBytes(e: C.Schema, xs: seq<C.Value>)
    requires C.WellFormed(e) && forall x | x in xs :: C.HasType(e, x)
    ensures C.EncodeAll(e, xs) == P.Flatten(Each(e, xs))
  {
    if xs != [] {
      AllBytes(e, xs[1..]);
      assert Each(e, xs)[1..] == Each(e, xs[1..]);
    }
  }

  /** A vector is its size and its elements, one after the other. */
  lemma VecBytes(e: C.Schema, xs: seq<C.Value>)
    requires C.WellFormed(e) && C.HasType(C.Vec(e), C.Items(xs))
    ensures C.Encode(C.Vec(e), C.Items(xs)) == V.Encode(|xs|) + P.Flatten(Each(e, xs))
  {
    AllBytes(e, xs);
  }

  function Parts(ts: seq<C.Schema>, xs: seq<C.Value>): (parts: seq<seq<byte>>)
    requires |xs| == |ts| && forall t | t in ts :: C.WellFormed(t)
    requires forall i | 0 <= i < |ts| :: C.HasType(ts[i], xs[i])
    ensures |parts| == |xs| && forall i | 0 <= i < |xs| :: parts[i] == C.Encode(ts[i], xs[i])
  {
    seq(|xs|, i requires 0 <= i < |xs| => C.Encode(ts[i], xs[i]))
  }

  /** A tuple is its components, in order, and nothing else. */
  lemma {:induction false} TupleBytes(ts: seq<C.Schema>, xs: seq<C.Value>)
    requires |xs| == |ts| && forall t | t in ts :: C.WellFormed(t)
    requires forall i | 0 <= i < |ts| :: C.HasType(ts[i], xs[i])
    ensures C.HasType(C.Tuple(ts), C.Items(xs))
    ensures C.Encode(C.Tuple(ts), C.Items(xs)) == P.Flatten(Parts(ts, xs))
  {
    if ts != [] {
      TupleBytes(ts[1..], xs[1..]);
      assert Parts(ts, xs)[1..] == Parts(ts[1..], xs[1..]);
    }
  }

  // ----- headers -----

  /** direction 1 is a request, direction 2 a response; three bytes, and three more for a
      request, each written as a number. */
  lemma HeaderBytes(h: C.Header)
    ensures C.EncodeHeader(h)
         == V.Encode(h.dir) + V.Encode(h.sessionId) + V.Encode(h.operationId)
            + if h.dir == 1 then V.Encode(h.interfaceId) + V.Encode(h.methodId) + V.Encode(h.arity) else []
  {
    Three(h.dir, h.sessionId, h.operationId);
    Three(h.interfaceId, h.methodId, h.arity);
  }

  lemma Three(a: byte, b: byte, c: byte)
    ensures C.EncodeBytes([a, b, c]) == V.Encode(a) + V.Encode(b) + V.Encode(c)
  {
    assert [a, b, c][1..] == [b, c] && [b, c][1..] == [c] && [c][1..] == [];
    assert C.EncodeBytes([c]) == V.Encode(c) + [] == V.Encode(c);
    assert C.EncodeBytes([b, c]) == V.Encode(b) + V.Encode(c);
    Collections.Associate(V.Encode(a), V.Encode(b), V.Encode(c));
  }

  /** Reading a header into h: all of a request, the first three fields of anything else. */
  lemma HeaderRead(h: C.Header, sent: C.Header, t: seq<byte>)
    ensures C.DecodeHeader(h, C.EncodeHeader(sent) + t).1 == t
    ensures C.DecodeHeader(h, C.EncodeHeader(sent) + t).0
         == if sent.dir == 1 then sent
            else C.Header(sent.dir, sent.sessionId, sent.operationId, h.interfaceId, h.methodId, h.arity)
  {
    C.HeaderRoundTrip(h, sent, t);
  }

  /** The schemas of the headers, field by field. */
  lemma HeaderSchemas()
    ensures C.HEADER == C.Record(8, [
      C.Field(C.Always, C.U(8)), C.Field(C.Always, C.U(8)),
      C.Field(C.TagIs(1), C.U(8)), C.Field(C.TagIs(1), C.U(8)), C.Field(C.TagIs(1), C.U(8))])
    ensures C.MESSAGE_HEADER == C.Record(8, [
      C.Field(C.TagBit(0), C.S(32)), C.Field(C.TagBit(0), C.S(32)), C.Field(C.TagBit(1), C.S(32))])
    ensures C.DATAGRAM_HEADER == C.Record(8, [C.Field(C.Always, C.S(32)), C.Field(C.Always, C.S(32))])
  {
  }

  function Int32(v: int): seq<byte>
    requires -0x8000_0000 <= v <= 0x7fff_ffff
  {
    Widths();
    V.Encode(V.ZigZag(32, v))
  }

  lemma {:induction false} FieldBytes(g: C.Guard, tag: nat, v: int)
    requires -0x8000_0000 <= v <= 0x7fff_ffff
    ensures var f, x := C.Field(g, C.S(32)), C.Guarded(C.Present(g, tag), v);
      C.HasFieldType(f, tag, x) && C.EncodeField(f, tag, x) == if C.Present(g, tag) then Int32(v) else []
  {
    Widths();
  }

  lemma {:induction false} FieldsCons(f: C.Field, fs: seq<C.Field>, tag: nat, x: C.Value, xs: seq<C.Value>)
    requires C.Typed([f] + fs, [x] + xs, tag) && C.WellFormed(f.schema) && C.HasFieldType(f, tag, x)
    ensures C.Typed(fs, xs, tag)
    ensures C.EncodeFields([f] + fs, tag, [x] + xs) == C.EncodeField(f, tag, x) + C.EncodeFields(fs, tag, xs)
  {
    assert ([f] + fs)[1..] == fs && ([x] + xs)[1..] == xs;
    forall i | 0 <= i < |fs|
      ensures C.HasFieldType(fs[i], tag, xs[i])
    {
      assert C.HasFieldType(([f] + fs)[i + 1], tag, ([x] + xs)[i + 1]);
    }
  }

  /** Bit 0 of the flag announces seq and channel, in this order, bit 1 the receipt. */
  lemma MessageHeaderBytes(flag: byte, num: int, channel: int, receipt: int)
    requires -0x8000_0000 <= num <= 0x7fff_ffff && -0x8000_0000 <= channel <= 0x7fff_ffff
    requires -0x8000_0000 <= receipt <= 0x7fff_ffff
    ensures C.HasType(C.MESSAGE_HEADER, C.MessageValue(flag, num, channel, receipt))
    ensures C.Encode(C.MESSAGE_HEADER, C.MessageValue(flag, num, channel, receipt))
         == V.Encode(flag) + (if flag % 2 == 1 then Int32(num) + Int32(channel) else [])
            + if (flag / 2) % 2 == 1 then Int32(receipt) else []
  {
    Widths();
    hide Pow2, V.ZigZag, V.Encode, Int32;
    MessageFields(flag, num, channel, receipt);
    var low, high := flag % 2 == 1, (flag / 2) % 2 == 1;
    Bits01(flag);
    var a, b, c := if low then Int32(num) else [], if low then Int32(channel) else [], if high then Int32(receipt) else [];
    assert V.Encode(flag) + (a + (b + c)) == V.Encode(flag) + (a + b) + c;
    assert !low ==> a + b == [];
  }

  lemma MessageFields(flag: byte, num: int, channel: int, receipt: int)
    requires -0x8000_0000 <= num <= 0x7fff_ffff && -0x8000_0000 <= channel <= 0x7fff_ffff
    requires -0x8000_0000 <= receipt <= 0x7fff_ffff
    ensures var v := C.MessageValue(flag, num, channel, receipt);
      && C.Typed(C.MESSAGE_HEADER.fields, v.items, flag)
      && C.EncodeFields(C.MESSAGE_HEADER.fields, flag, v.items)
         == (if C.Present(C.TagBit(0), flag) then Int32(num) else [])
            + ((if C.Present(C.TagBit(0), flag) then Int32(channel) else [])
               + if C.Present(C.TagBit(1), flag) then Int32(receipt) else [])
  {
    var f, h := C.Field(C.TagBit(0), C.S(32)), C.Field(C.TagBit(1), C.S(32));
    var items := C.MessageValue(flag, num, channel, receipt).items;
    assert C.MESSAGE_HEADER.fields == [f] + ([f] + [h]);
    assert items == [items[0]] + ([items[1]] + [items[2]]);
    hide Int32, C.EncodeFields, C.EncodeField, C.HasFieldType;
    FieldBytes(f.guard, flag, num);
    FieldBytes(f.guard, flag, channel);
    FieldBytes(h.guard, flag, receipt);
    ThreeFields(f, f, h, flag, items[0], items[1], items[2]);
  }

  lemma Bits01(flag: nat)
    ensures C.Present(C.TagBit(0), flag) <==> flag % 2 == 1
    ensures C.Present(C.TagBit(1), flag) <==> (flag / 2) % 2 == 1
  {
    assert Bit(flag, 1) == Bit(flag / 2, 0);
  }

  lemma {:induction false} ThreeFields(f: C.Field, g: C.Field, h: C.Field, tag: nat, x: C.Value, y: C.Value, z: C.Value)
    requires C.WellFormed(f.schema) && C.WellFormed(g.schema) && C.WellFormed(h.schema)
    requires C.HasFieldType(f, tag, x) && C.HasFieldType(g, tag, y) && C.HasFieldType(h, tag, z)
    ensures C.Typed([f] + ([g] + [h]), [x] + ([y] + [z]), tag)
    ensures C.EncodeFields([f] + ([g] + [h]), tag, [x] + ([y] + [z]))
         == C.EncodeField(f, tag, x) + (C.EncodeField(g, tag, y) + C.EncodeField(h, tag, z))
  {
    TypedThree(f, g, h, tag, x, y, z);
    hide C.EncodeField, C.HasFieldType, C.Typed;
    FieldsCons(f, [g] + [h], tag, x, [y] + [z]);
    FieldsCons(g, [h], tag, y, [z]);
    OneField(h, tag, z);
  }

  lemma {:induction false} TypedThree(f: C.Field, g: C.Field, h: C.Field, tag: nat, x: C.Value, y: C.Value, z: C.Value)
    requires C.WellFormed(f.schema) && C.WellFormed(g.schema) && C.WellFormed(h.schema)
    requires C.HasFieldType(f, tag, x) && C.HasFieldType(g, tag, y) && C.HasFieldType(h, tag, z)
    ensures C.Typed([f] + ([g] + [h]), [x] + ([y] + [z]), tag)
  {
    var fs, xs := [f] + ([g] + [h]), [x] + ([y] + [z]);
    assert fs == [f, g, h] && xs == [x, y, z];
    forall i | 0 <= i < 3
      ensures C.WellFormed(fs[i].schema) && C.HasFieldType(fs[i], tag, xs[i])
    {
      if i == 0 {
        assert fs[i] == f && xs[i] == x;
      } else if i == 1 {
        assert fs[i] == g && xs[i] == y;
      } else {
        assert fs[i] == h && xs[i] == z;
      }
    }
    assert forall t | t in fs :: t == f || t == g || t == h;
  }

  lemma {:induction false} OneField(h: C.Field, tag: nat, z: C.Value)
    requires C.WellFormed(h.schema) && C.HasFieldType(h, tag, z)
    ensures C.Typed([h], [z], tag) && C.EncodeFields([h], tag, [z]) == C.EncodeField(h, tag, z)
  {
    hide C.HasFieldType, C.EncodeField;
    assert [h] == [h] + [] && [z] == [z] + [];
    FieldsCons(h, [], tag, z, []);
    assert C.EncodeField(h, tag, z) + [] == C.EncodeField(h, tag, z);
  }

  lemma DatagramHeaderBytes(flag: byte, timestamp: int, num: int)
    requires -0x8000_0000 <= timestamp <= 0x7fff_ffff && -0x8000_0000 <= num <= 0x7fff_ffff
    ensures C.HasType(C.DATAGRAM_HEADER, C.Rec(flag, [C.Num(timestamp), C.Num(num)]))
    ensures C.Encode(C.DATAGRAM_HEADER, C.Rec(flag, [C.Num(timestamp), C.Num(num)]))
         == V.Encode(flag) + Int32(timestamp) + Int32(num)
  {
    Widths();
    hide Pow2, Int32;
    C.DatagramHeaderRoundTrip(flag, timestamp, num, []);
    var f, x, y := C.Field(C.Always, C.S(32)), C.Num(timestamp), C.Num(num);
    assert C.DATAGRAM_HEADER.fields == [f] + [f] && [x, y] == [x] + [y];
    FieldBytes(C.Always, flag, timestamp);
    FieldBytes(C.Always, flag, num);
    TwoFields(f, flag, x, y);
    hide C.EncodeFields, C.EncodeField, C.HasFieldType;
    Collections.Associate(V.Encode(flag), Int32(timestamp), Int32(num));
  }

  lemma {:induction false} TwoFields(f: C.Field, tag: nat, x: C.Value, y: C.Value)
    requires C.WellFormed(f.schema) && C.HasFieldType(f, tag, x) && C.HasFieldType(f, tag, y)
    ensures C.Typed([f] + [f], [x] + [y], tag)
    ensures C.EncodeFields([f] + [f], tag, [x] + [y]) == C.EncodeField(f, tag, x) + C.EncodeField(f, tag, y)
  {
    FieldsCons(f, [f], tag, x, [y]);
    assert [f] == [f] + [] && [y] == [y] + [];
    FieldsCons(f, [], tag, y, []);
    assert C.EncodeField(f, tag, y) + [] == C.EncodeField(f, tag, y);
    hide C.EncodeField, C.HasFieldType;
  }

  // ----- packages -----

  /** The sizes of the packets as numbers. */
  function SizeBytes(ps: seq<seq<byte>>): (parts: seq<seq<byte>>)
    ensures |parts| == |ps| && forall i | 0 <= i < |ps| :: parts[i] == V.Encode(|ps[i]|)
  {
    seq(|ps|, i requires 0 <= i < |ps| => V.Encode(|ps[i]|))
  }

  lemma {:induction false} ListBytes(ps: seq<seq<byte>>)
    ensures P.EncodeSizes(P.Sizes(ps)) == P.Flatten(SizeBytes(ps))
  {
    if ps != [] {
      ListBytes(ps[1..]);
      assert SizeBytes(ps)[1..] == SizeBytes(ps[1..]);
    }
  }

  /** A package below 2^32 bytes: four bytes of size, least significant first, that count
      the rest; the sizes of the packets; a zero byte; the packets. */
  lemma PackageBytes(ps: seq<seq<byte>>)
    requires var n := |P.Flatten(SizeBytes(ps))| + 1 + |P.Flatten(ps)|; n < 0x1_0000_0000
    ensures var sizes, body := P.Flatten(SizeBytes(ps)), P.Flatten(ps);
      var n := |sizes| + 1 + |body|;
      P.Wire(ps) == [n % 256, (n / 256) % 256, (n / 0x1_0000) % 256, n / 0x100_0000] + (sizes + [0] + body)
  {
    ListBytes(ps);
    P.SizesSum(ps);
    P.TerminatorIsZero();
    var n := |P.Flatten(SizeBytes(ps))| + 1 + |P.Flatten(ps)|;
    hide P.Flatten, SizeBytes, P.Sizes, P.Recorded, P.EncodeSizes, V.Little, V.Encode;
    assert |P.Contents(ps)| == n;
    FourBytes(n);
  }

  lemma FourBytes(n: nat)
    requires n < 0x1_0000_0000
    ensures V.Little(n, 4) == [n % 256, (n / 256) % 256, (n / 0x1_0000) % 256, n / 0x100_0000]
  {
    var a, b, c := n / 256, n / 256 / 256, n / 256 / 256 / 256;
    assert V.Little(c, 1) == [c % 256] + V.Little(c / 256, 0) == [c % 256];
    assert V.Little(b, 2) == [b % 256] + V.Little(c, 1) == [b % 256, c % 256];
    assert V.Little(a, 3) == [a % 256] + V.Little(b, 2) == [a % 256, b % 256, c % 256];
    assert V.Little(n, 4) == [n % 256] + V.Little(a, 3);
  }

  /** What four bytes of size mean to a receiver. */
  lemma FromFourBytes(a: byte, b: byte, c: byte, d: byte)
    ensures V.FromLittle([a, b, c, d]) == a + 256 * b + 0x1_0000 * c + 0x100_0000 * d
  {
    assert [a, b, c, d][1..] == [b, c, d] && [b, c, d][1..] == [c, d] && [c, d][1..] == [d] && [d][1..] == [];
    assert V.FromLittle([d]) == d + 256 * V.FromLittle([]) == d;
    assert V.FromLittle([c, d]) == c + 256 * V.FromLittle([d]);
    assert V.FromLittle([b, c, d]) == b + 256 * V.FromLittle([c, d]);
    assert V.FromLittle([a, b, c, d]) == a + 256 * V.FromLittle([b, c, d]);
  }
}
