/** The composite codec: schemas built from integers, enums, fixed words, vectors, tuples
    and records whose later fields depend on a leading tag. */
module Codec {
  import Collections
  import opened Wrappers
  import opened Bits
  import V = Varint

  datatype Schema =
    | U(bits: nat)
    | S(bits: nat)
    | Enum(repr: Schema)
    | Fixed(bytes: nat)
    | Vec(elem: Schema)
    | Tuple(parts: seq<Schema>)
    | Record(bits: nat, fields: seq<Field>)

  /** A field of a record is on the wire when its guard holds of the tag. */
  datatype Field = Field(guard: Guard, schema: Schema)

  datatype Guard = Always | TagIs(n: nat) | TagBit(k: nat)

  datatype Value = Num(n: int) | Items(items: seq<Value>) | Rec(tag: nat, items: seq<Value>) | Absent

  predicate Present(g: Guard, tag: nat)
  {
    match g
    case Always => true
    case TagIs(n) => tag == n
    case TagBit(k) => Bit(tag, k)
  }

  const SIZE_BITS := 64

  predicate WellFormed(sc: Schema)
  {
    match sc
    case U(n) => n >= 8
    case S(n) => n >= 8
    case Enum(r) => (r.U? || r.S?) && WellFormed(r)
    case Fixed(k) => true
    case Vec(e) => WellFormed(e)
    case Tuple(ps) => forall p | p in ps :: WellFormed(p)
    case Record(n, fs) => n >= 8 && forall f | f in fs :: WellFormed(f.schema)
  }

  predicate HasType(sc: Schema, v: Value)
    requires WellFormed(sc)
    decreases sc
  {
    match sc
    case U(n) => v.Num? && 0 <= v.n < Pow2(n)
    case S(n) => v.Num? && V.Fits(n, v.n)
    case Enum(r) => HasType(r, v)
    case Fixed(k) => v.Num? && 0 <= v.n < Pow2(8 * k)
    case Vec(e) => v.Items? && |v.items| < Pow2(SIZE_BITS) && forall x | x in v.items :: HasType(e, x)
    case Tuple(ps) => v.Items? && |v.items| == |ps| && forall i | 0 <= i < |ps| :: HasType(ps[i], v.items[i])
    case Record(n, fs) =>
      && v.Rec? && v.tag < Pow2(n) && |v.items| == |fs|
      && forall i | 0 <= i < |fs| :: HasFieldType(fs[i], v.tag, v.items[i])
  }

  predicate HasFieldType(f: Field, tag: nat, v: Value)
    requires WellFormed(f.schema)
    decreases f
  {
    if Present(f.guard, tag) then HasType(f.schema, v) else v == Absent
  }

  // ----- printing -----

  function Encode(sc: Schema, v: Value): seq<byte>
    requires WellFormed(sc) && HasType(sc, v)
    decreases sc, 0
  {
    match sc
    case U(n) => V.Encode(v.n)
    case S(n) => V.Encode(V.ZigZag(n, v.n))
    case Enum(r) => Encode(r, v)
    case Fixed(k) => V.Little(v.n, k)
    case Vec(e) => V.Encode(|v.items|) + EncodeAll(e, v.items)
    case Tuple(ps) => EncodeParts(ps, v.items)
    case Record(n, fs) => V.Encode(v.tag) + EncodeFields(fs, v.tag, v.items)
  }

  function EncodeAll(e: Schema, xs: seq<Value>): seq<byte>
    requires WellFormed(e) && forall x | x in xs :: HasType(e, x)
    decreases e, |xs| + 1
  {
    if xs == [] then [] else Encode(e, xs[0]) + EncodeAll(e, xs[1..])
  }

  function EncodeParts(ps: seq<Schema>, xs: seq<Value>): seq<byte>
    requires |xs| == |ps| && forall p | p in ps :: WellFormed(p)
    requires forall i | 0 <= i < |ps| :: HasType(ps[i], xs[i])
    decreases ps, 0
  {
    if ps == [] then [] else Encode(ps[0], xs[0]) + EncodeParts(ps[1..], xs[1..])
  }

  function EncodeFields(fs: seq<Field>, tag: nat, xs: seq<Value>): seq<byte>
    requires |xs| == |fs| && forall f | f in fs :: WellFormed(f.schema)
    requires forall i | 0 <= i < |fs| :: HasFieldType(fs[i], tag, xs[i])
    decreases fs, 0
  {
    if fs == [] then []
    else
      EncodeField(fs[0], tag, xs[0]) + EncodeFields(fs[1..], tag, xs[1..])
  }

  function EncodeField(f: Field, tag: nat, x: Value): seq<byte>
    requires WellFormed(f.schema) && HasFieldType(f, tag, x)
    decreases f, 0
  {
    if Present(f.guard, tag) then Encode(f.schema, x) else []
  }

  // ----- parsing -----

  /** None stands for a fixed word cut short by the end of the input. */
  function Decode(sc: Schema, s: seq<byte>): Option<(Value, seq<byte>)>
    requires WellFormed(sc)
    decreases sc, 0
  {
    match sc
    case U(n) =>
      var (u, rest) := V.Decode(s);
      Some((Num(u % Pow2(n)), rest))
    case S(n) =>
      var (u, rest) := V.Decode(s);
      Some((Num(V.UnZigZag(n, u % Pow2(n))), rest))
    case Enum(r) => Decode(r, s)
    case Fixed(k) =>
      if |s| < k then None else Some((Num(V.FromLittle(s[..k])), s[k..]))
    case Vec(e) =>
      var (size, rest) := V.Decode(s);
      AsItems(DecodeMany(e, size % Pow2(SIZE_BITS), rest))
    case Tuple(ps) => AsItems(DecodeParts(ps, s))
    case Record(n, fs) =>
      var (tag, rest) := V.Decode(s);
      match DecodeFields(fs, tag % Pow2(n), rest)
      case None => None
      case Some((xs, rest')) => Some((Rec(tag % Pow2(n), xs), rest'))
  }

  function AsItems(r: Option<(seq<Value>, seq<byte>)>): Option<(Value, seq<byte>)>
  {
    match r
    case None => None
    case Some((xs, rest)) => Some((Items(xs), rest))
  }

  function DecodeMany(e: Schema, count: nat, s: seq<byte>): Option<(seq<Value>, seq<byte>)>
    requires WellFormed(e)
    decreases e, count + 1
  {
    if count == 0 then Some(([], s))
    else
      match Decode(e, s)
      case None => None
      case Some((x, rest)) => Cons(x, DecodeMany(e, count - 1, rest))
  }

  function DecodeParts(ps: seq<Schema>, s: seq<byte>): Option<(seq<Value>, seq<byte>)>
    requires forall p | p in ps :: WellFormed(p)
    decreases ps, 0
  {
    if ps == [] then Some(([], s))
    else
      match Decode(ps[0], s)
      case None => None
      case Some((x, rest)) => Cons(x, DecodeParts(ps[1..], rest))
  }

  function DecodeFields(fs: seq<Field>, tag: nat, s: seq<byte>): Option<(seq<Value>, seq<byte>)>
    requires forall f | f in fs :: WellFormed(f.schema)
    decreases fs, 0
  {
    if fs == [] then Some(([], s))
    else
      match DecodeField(fs[0], tag, s)
      case None => None
      case Some((x, rest)) => Cons(x, DecodeFields(fs[1..], tag, rest))
  }

  function DecodeField(f: Field, tag: nat, s: seq<byte>): Option<(Value, seq<byte>)>
    requires WellFormed(f.schema)
    decreases f, 0
  {
    if Present(f.guard, tag) then Decode(f.schema, s) else Some((Absent, s))
  }

  // ----- the codec undoes itself -----

  lemma {:induction false} RoundTrip(sc: Schema, v: Value, t: seq<byte>)
    requires WellFormed(sc) && HasType(sc, v)
    ensures Decode(sc, Encode(sc, v) + t) == Some((v, t))
    decreases sc, 0
  {
    match sc
    case U(n) =>
      V.WordRoundTrip(n, v.n, t);
    case S(n) =>
      V.SignedRoundTrip(n, v.n, t);
    case Enum(r) =>
      RoundTrip(r, v, t);
    case Fixed(k) =>
      RoundTripFixed(k, v.n, t);
    case Vec(e) =>
      RoundTripAll(e, v.items, t);
      Prefixed(SIZE_BITS, |v.items|, EncodeAll(e, v.items), t);
    case Tuple(ps) =>
      RoundTripParts(ps, v.items, t);
    case Record(n, fs) =>
      RoundTripFields(fs, v.tag, v.items, t);
      Prefixed(n, v.tag, EncodeFields(fs, v.tag, v.items), t);
  }

  lemma RoundTripFixed(k: nat, n: nat, t: seq<byte>)
    requires n < Pow2(8 * k)
    ensures Decode(Fixed(k), V.Little(n, k) + t) == Some((Num(n), t))
  {
    V.LittleRoundTrip(n, k);
    var s := V.Little(n, k);
    assert (s + t)[..k] == s && (s + t)[k..] == t;
  }

  /** A size or a tag in front of a body is read back, and the body is what is left. */
  lemma Prefixed(n: nat, size: nat, body: seq<byte>, t: seq<byte>)
    requires n > 0 && size < Pow2(n)
    ensures V.Decode(V.Encode(size) + body + t).0 % Pow2(n) == size
    ensures V.Decode(V.Encode(size) + body + t).1 == body + t
  {
    V.WordRoundTrip(n, size, body + t);
    Collections.Associate(V.Encode(size), body, t);
  }

  lemma {:induction false} RoundTripAll(e: Schema, xs: seq<Value>, t: seq<byte>)
    requires WellFormed(e) && forall x | x in xs :: HasType(e, x)
    ensures DecodeMany(e, |xs|, EncodeAll(e, xs) + t) == Some((xs, t))
    decreases e, |xs| + 1
  {
    if xs == [] {
      assert EncodeAll(e, xs) + t == t;
    } else {
      var tail := EncodeAll(e, xs[1..]);
      Collections.Associate(Encode(e, xs[0]), tail, t);
      RoundTrip(e, xs[0], tail + t);
      RoundTripAll(e, xs[1..], t);
      assert [xs[0]] + xs[1..] == xs;
    }
  }

  lemma {:induction false} RoundTripParts(ps: seq<Schema>, xs: seq<Value>, t: seq<byte>)
    requires |xs| == |ps| && forall p | p in ps :: WellFormed(p)
    requires forall i | 0 <= i < |ps| :: HasType(ps[i], xs[i])
    ensures DecodeParts(ps, EncodeParts(ps, xs) + t) == Some((xs, t))
    decreases ps, 0
  {
    if ps == [] {
      assert EncodeParts(ps, xs) + t == t;
    } else {
      var tail := EncodeParts(ps[1..], xs[1..]);
      Collections.Associate(Encode(ps[0], xs[0]), tail, t);
      RoundTrip(ps[0], xs[0], tail + t);
      RoundTripParts(ps[1..], xs[1..], t);
      assert [xs[0]] + xs[1..] == xs;
    }
  }

  lemma {:induction false} RoundTripFields(fs: seq<Field>, tag: nat, xs: seq<Value>, t: seq<byte>)
    requires |xs| == |fs| && forall f | f in fs :: WellFormed(f.schema)
    requires forall i | 0 <= i < |fs| :: HasFieldType(fs[i], tag, xs[i])
    ensures DecodeFields(fs, tag, EncodeFields(fs, tag, xs) + t) == Some((xs, t))
    decreases fs, 0
  {
    if fs == [] {
      assert EncodeFields(fs, tag, xs) + t == t;
    } else {
      var tail := EncodeFields(fs[1..], tag, xs[1..]);
      Collections.Associate(EncodeField(fs[0], tag, xs[0]), tail, t);
      RoundTripField(fs[0], tag, xs[0], tail + t);
      RoundTripFields(fs[1..], tag, xs[1..], t);
      assert [xs[0]] + xs[1..] == xs;
    }
  }

  /** A field whose guard fails is not on the wire: reading it consumes nothing. */
  lemma {:induction false} RoundTripField(f: Field, tag: nat, x: Value, t: seq<byte>)
    requires WellFormed(f.schema) && HasFieldType(f, tag, x)
    ensures DecodeField(f, tag, EncodeField(f, tag, x) + t) == Some((x, t))
    decreases f, 0
  {
    if Present(f.guard, tag) {
      RoundTrip(f.schema, x, t);
    } else {
      assert [] + t == t;
    }
  }

  /** Whatever two values are printed, equal texts come from equal values, and no text
      is a proper prefix of another. */
  lemma PrefixFree(sc: Schema, v: Value, w: Value, t: seq<byte>)
    requires WellFormed(sc) && HasType(sc, v) && HasType(sc, w)
    requires Encode(sc, v) + t == Encode(sc, w)
    ensures v == w && t == []
  {
    RoundTrip(sc, v, t);
    RoundTrip(sc, w, []);
    assert Encode(sc, w) + [] == Encode(sc, w);
  }

  // ----- the decoder as the archive runs it -----

  /** Reads one value from src. */
  method DecodeValue(src: V.Source, sc: Schema) returns (r: Option<Value>)
    requires WellFormed(sc)
    modifies src
    ensures match Decode(sc, old(src.data))
            case None => r == None
            case Some((v, rest)) => r == Some(v) && src.data == rest
    decreases sc, 0
  {
    match sc
    case U(n) =>
      var u := V.DecodeUnsigned(src, n);
      r := Some(Num(u));
    case S(n) =>
      var v := V.DecodeSigned(src, n);
      r := Some(Num(v));
    case Enum(repr) =>
      r := DecodeValue(src, repr);
    case Fixed(k) =>
      if |src.data| < k {
        r := None;
      } else {
        r := Some(Num(V.FromLittle(src.data[..k])));
        src.data := src.data[k..];
      }
    case Vec(e) =>
      var size := V.DecodeUnsigned(src, SIZE_BITS);
      var xs := DecodeLoop(src, e, size);
      r := match xs case None => None case Some(l) => Some(Items(l));
    case Tuple(ps) =>
      var xs := DecodeTuple(src, ps, 0);
      r := match xs case None => None case Some(l) => Some(Items(l));
    case Record(n, fs) =>
      var tag := V.DecodeUnsigned(src, n);
      var xs := DecodeRecord(src, fs, tag, 0);
      r := match xs case None => None case Some(l) => Some(Rec(tag, l));
  }

  /** The vector decoder: size is known, the elements are filled in one by one. */
  method DecodeLoop(src: V.Source, e: Schema, size: nat) returns (r: Option<seq<Value>>)
    requires WellFormed(e)
    modifies src
    ensures match DecodeMany(e, size, old(src.data))
            case None => r == None
            case Some((xs, rest)) => r == Some(xs) && src.data == rest
    decreases e, size + 1
  {
    ghost var all := DecodeMany(e, size, src.data);
    var v: seq<Value> := [];
    var i := 0;
    PrependNil(all);
    while i < size
      invariant 0 <= i <= size && |v| == i
      invariant all == Prepend(v, DecodeMany(e, size - i, src.data))
    {
      ghost var before := src.data;
      var x := DecodeValue(src, e);
      if x.None? {
        return None;
      }
      PrependCons(v, x.value, DecodeMany(e, size - i - 1, src.data));
      v := v + [x.value];
      i := i + 1;
    }
    assert v + [] == v;
    r := Some(v);
  }

  /** The tuple reader: recursion over the index of the part. */
  method DecodeTuple(src: V.Source, ps: seq<Schema>, index: nat) returns (r: Option<seq<Value>>)
    requires index <= |ps| && forall p | p in ps :: WellFormed(p)
    modifies src
    ensures match DecodeParts(ps[index..], old(src.data))
            case None => r == None
            case Some((xs, rest)) => r == Some(xs) && src.data == rest
    decreases ps, |ps| - index
  {
    if index >= |ps| {
      return Some([]);
    }
    assert ps[index..][0] == ps[index] && ps[index..][1..] == ps[index + 1..];
    var x := DecodeValue(src, ps[index]);
    if x.None? {
      return None;
    }
    var more := DecodeTuple(src, ps, index + 1);
    r := match more case None => None case Some(xs) => Some([x.value] + xs);
  }

  /** The serialize functions with conditional fields. */
  method DecodeRecord(src: V.Source, fs: seq<Field>, tag: nat, index: nat) returns (r: Option<seq<Value>>)
    requires index <= |fs| && forall f | f in fs :: WellFormed(f.schema)
    modifies src
    ensures match DecodeFields(fs[index..], tag, old(src.data))
            case None => r == None
            case Some((xs, rest)) => r == Some(xs) && src.data == rest
    decreases fs, |fs| - index
  {
    if index >= |fs| {
      return Some([]);
    }
    assert fs[index..][0] == fs[index] && fs[index..][1..] == fs[index + 1..];
    var x := DecodeFieldValue(src, fs[index], tag);
    if x.None? {
      return None;
    }
    var more := DecodeRecord(src, fs, tag, index + 1);
    r := match more case None => None case Some(xs) => Some([x.value] + xs);
  }

  method DecodeFieldValue(src: V.Source, f: Field, tag: nat) returns (r: Option<Value>)
    requires WellFormed(f.schema)
    modifies src
    ensures match DecodeField(f, tag, old(src.data))
            case None => r == None
            case Some((x, rest)) => r == Some(x) && src.data == rest
    decreases f, 0
  {
    if Present(f.guard, tag) {
      r := DecodeValue(src, f.schema);
    } else {
      r := Some(Absent);
    }
  }

  // ----- the headers -----

  /** The packet header.  interfaceId, methodId and arity are on the wire for requests
      only. */
  datatype Header = Header(dir: byte, sessionId: byte, operationId: byte,
                           interfaceId: byte, methodId: byte, arity: byte)

  const REQUEST: byte := 1
  const RESPONSE: byte := 2

  /** A run of one-byte fields, each printed as an unsigned integer. */
  function EncodeBytes(bs: seq<byte>): (s: seq<byte>)
    ensures |s| >= |bs|
  {
    if bs == [] then [] else V.Encode(bs[0]) + EncodeBytes(bs[1..])
  }

  function DecodeBytes(k: nat, s: seq<byte>): (r: (seq<byte>, seq<byte>))
    ensures |r.0| == k
    ensures |r.1| <= |s|
  {
    if k == 0 then ([], s)
    else
      var (v, rest) := V.Decode(s);
      var (bs, rest') := DecodeBytes(k - 1, rest);
      ([v % 256] + bs, rest')
  }

  lemma {:induction false} BytesRoundTrip(bs: seq<byte>, t: seq<byte>)
    ensures DecodeBytes(|bs|, EncodeBytes(bs) + t) == (bs, t)
  {
    if bs == [] {
      assert [] + t == t;
    } else {
      Collections.Associate(V.Encode(bs[0]), EncodeBytes(bs[1..]), t);
      V.RoundTrip(bs[0], EncodeBytes(bs[1..]) + t);
      BytesRoundTrip(bs[1..], t);
      assert [bs[0]] + bs[1..] == bs;
    }
  }

  function EncodeHeader(h: Header): (s: seq<byte>)
    ensures |s| >= 3
  {
    EncodeBytes([h.dir, h.sessionId, h.operationId])
    + if h.dir == REQUEST then EncodeBytes([h.interfaceId, h.methodId, h.arity]) else []
  }

  /** Reading into h, which keeps its last three fields unless a request arrives. */
  function DecodeHeader(h: Header, s: seq<byte>): (r: (Header, seq<byte>))
    ensures |r.1| <= |s|
  {
    var (a, s1) := DecodeBytes(3, s);
    if a[0] == REQUEST then
      var (b, s2) := DecodeBytes(3, s1);
      (Header(a[0], a[1], a[2], b[0], b[1], b[2]), s2)
    else (Header(a[0], a[1], a[2], h.interfaceId, h.methodId, h.arity), s1)
  }

  /** What is left in h after a header sent was read into it. */
  function Received(h: Header, sent: Header): Header
  {
    if sent.dir == REQUEST then sent
    else sent.(interfaceId := h.interfaceId, methodId := h.methodId, arity := h.arity)
  }

  lemma HeaderRoundTrip(h: Header, sent: Header, t: seq<byte>)
    ensures DecodeHeader(h, EncodeHeader(sent) + t) == (Received(h, sent), t)
  {
    var a, b := [sent.dir, sent.sessionId, sent.operationId], [sent.interfaceId, sent.methodId, sent.arity];
    var tail := if sent.dir == REQUEST then EncodeBytes(b) else [];
    Collections.Associate(EncodeBytes(a), tail, t);
    BytesRoundTrip(a, tail + t);
    if sent.dir == REQUEST {
      BytesRoundTrip(b, t);
    } else {
      assert [] + t == t;
    }
  }

  /** A run of byte fields with one guard. */
  function ByteFields(g: Guard, k: nat): seq<Field>
  {
    seq(k, _ => Field(g, U(8)))
  }

  function ByteValues(present: bool, bs: seq<byte>): seq<Value>
  {
    seq(|bs|, i requires 0 <= i < |bs| => Guarded(present, bs[i]))
  }

  /** The packet header as a schema of the composite codec. */
  const HEADER := Record(8, ByteFields(Always, 2) + ByteFields(TagIs(REQUEST), 3))

  /** The headers of the datagram session: a flag byte, then ints that its bits guard. */
  const MESSAGE_HEADER := Record(8, [
    Field(TagBit(0), S(32)), Field(TagBit(0), S(32)), Field(TagBit(1), S(32))])

  const DATAGRAM_HEADER := Record(8, [Field(Always, S(32)), Field(Always, S(32))])

  function Guarded(present: bool, n: int): Value
  {
    if present then Num(n) else Absent
  }

  function HeaderValue(h: Header): Value
  {
    Rec(h.dir, ByteValues(true, [h.sessionId, h.operationId])
             + ByteValues(h.dir == REQUEST, [h.interfaceId, h.methodId, h.arity]))
  }

  function MessageValue(flag: byte, num: int, channel: int, receipt: int): Value
  {
    Rec(flag, [Guarded(Bit(flag, 0), num), Guarded(Bit(flag, 0), channel), Guarded(Bit(flag, 1), receipt)])
  }

  lemma HeaderIsRecord(h: Header)
    ensures WellFormed(HEADER) && HasType(HEADER, HeaderValue(h))
    ensures Encode(HEADER, HeaderValue(h)) == EncodeHeader(h)
  {
    assert Pow2(8) == 256;
    var a, b := [h.sessionId, h.operationId], [h.interfaceId, h.methodId, h.arity];
    ByteRun(Always, h.dir, a);
    ByteRun(TagIs(REQUEST), h.dir, b);
    AppendTyped(ByteFields(Always, 2), ByteValues(true, a),
                ByteFields(TagIs(REQUEST), 3), ByteValues(h.dir == REQUEST, b), h.dir);
    AppendFields(ByteFields(Always, 2), ByteValues(true, a),
                 ByteFields(TagIs(REQUEST), 3), ByteValues(h.dir == REQUEST, b), h.dir);
    assert [h.dir] + a == [h.dir, h.sessionId, h.operationId];
    assert ([h.dir] + a)[1..] == a;
    Collections.Associate(V.Encode(h.dir), EncodeBytes(a), if h.dir == REQUEST then EncodeBytes(b) else []);
  }

  ghost predicate Typed(fs: seq<Field>, xs: seq<Value>, tag: nat)
  {
    && |xs| == |fs|
    && (forall f | f in fs :: WellFormed(f.schema))
    && forall i | 0 <= i < |fs| :: HasFieldType(fs[i], tag, xs[i])
  }

  lemma {:induction false} ByteRun(g: Guard, tag: nat, bs: seq<byte>)
    ensures Typed(ByteFields(g, |bs|), ByteValues(Present(g, tag), bs), tag)
    ensures EncodeFields(ByteFields(g, |bs|), tag, ByteValues(Present(g, tag), bs))
         == if Present(g, tag) then EncodeBytes(bs) else []
  {
    assert Pow2(8) == 256;
    if bs != [] {
      ByteRun(g, tag, bs[1..]);
      var fs, xs := ByteFields(g, |bs|), ByteValues(Present(g, tag), bs);
      assert EncodeField(fs[0], tag, xs[0]) == if Present(g, tag) then V.Encode(bs[0]) else [];
      assert ByteFields(g, |bs|)[1..] == ByteFields(g, |bs[1..]|);
      assert ByteValues(Present(g, tag), bs)[1..] == ByteValues(Present(g, tag), bs[1..]);
    }
  }

  lemma {:induction false} AppendTyped(fs: seq<Field>, xs: seq<Value>, gs: seq<Field>, ys: seq<Value>, tag: nat)
    requires Typed(fs, xs, tag) && Typed(gs, ys, tag)
    ensures Typed(fs + gs, xs + ys, tag)
  {
    forall i | 0 <= i < |fs + gs|
      ensures HasFieldType((fs + gs)[i], tag, (xs + ys)[i])
    {
      if i >= |fs| {
        assert HasFieldType(gs[i - |fs|], tag, ys[i - |fs|]);
      }
    }
  }

  lemma {:induction false} AppendFields(fs: seq<Field>, xs: seq<Value>, gs: seq<Field>, ys: seq<Value>, tag: nat)
    requires Typed(fs, xs, tag) && Typed(gs, ys, tag) && Typed(fs + gs, xs + ys, tag)
    ensures EncodeFields(fs + gs, tag, xs + ys) == EncodeFields(fs, tag, xs) + EncodeFields(gs, tag, ys)
  {
    if fs == [] {
      assert fs + gs == gs && xs + ys == ys;
    } else {
      assert (fs + gs)[1..] == fs[1..] + gs && (xs + ys)[1..] == xs[1..] + ys;
      AppendFields(fs[1..], xs[1..], gs, ys, tag);
    }
  }

  /** A reliable message carries seq and channel, a message wanting a receipt carries
      receipt, and what its flag does not announce takes no bytes. */
  lemma MessageHeaderRoundTrip(flag: byte, num: int, channel: int, receipt: int, t: seq<byte>)
    requires V.Fits(32, num) && V.Fits(32, channel) && V.Fits(32, receipt)
    ensures WellFormed(MESSAGE_HEADER)
    ensures HasType(MESSAGE_HEADER, MessageValue(flag, num, channel, receipt))
    ensures Decode(MESSAGE_HEADER, Encode(MESSAGE_HEADER, MessageValue(flag, num, channel, receipt)) + t)
         == Some((MessageValue(flag, num, channel, receipt), t))
  {
    assert Pow2(8) == 256;
    var v := MessageValue(flag, num, channel, receipt);
    var fs := MESSAGE_HEADER.fields;
    forall i | 0 <= i < 3
      ensures HasFieldType(fs[i], flag, v.items[i])
    {
    }
    RoundTrip(MESSAGE_HEADER, v, t);
  }

  lemma DatagramHeaderRoundTrip(flag: byte, timestamp: int, num: int, t: seq<byte>)
    requires V.Fits(32, timestamp) && V.Fits(32, num)
    ensures WellFormed(DATAGRAM_HEADER)
    ensures HasType(DATAGRAM_HEADER, Rec(flag, [Num(timestamp), Num(num)]))
    ensures Decode(DATAGRAM_HEADER, Encode(DATAGRAM_HEADER, Rec(flag, [Num(timestamp), Num(num)])) + t)
         == Some((Rec(flag, [Num(timestamp), Num(num)]), t))
  {
    assert Pow2(8) == 256;
    var v := Rec(flag, [Num(timestamp), Num(num)]);
    var fs := DATAGRAM_HEADER.fields;
    forall i | 0 <= i < 2
      ensures HasFieldType(fs[i], flag, v.items[i])
    {
    }
    RoundTrip(DATAGRAM_HEADER, v, t);
  }

  /** archive >> header, field by field. */
  method ReadHeader(src: V.Source, h: Header) returns (r: Header)
    modifies src
    ensures (r, src.data) == DecodeHeader(h, old(src.data))
  {
    var dir, sid, oid := ReadThree(src);
    r := h.(dir := dir, sessionId := sid, operationId := oid);
    if dir == REQUEST {
      var iid, mid, arity := ReadThree(src);
      r := r.(interfaceId := iid, methodId := mid, arity := arity);
    }
  }

  method ReadThree(src: V.Source) returns (x: byte, y: byte, z: byte)
    modifies src
    ensures ([x, y, z], src.data) == DecodeBytes(3, old(src.data))
  {
    ghost var s0 := src.data;
    x := ReadByte(src);
    ghost var s1 := src.data;
    y := ReadByte(src);
    ghost var s2 := src.data;
    z := ReadByte(src);
    OneMore(0, s2, z, src.data, []);
    assert [z] == [z] + [];
    OneMore(1, s1, y, s2, [z]);
    assert [y, z] == [y] + [z];
    OneMore(2, s0, x, s1, [y, z]);
    assert [x, y, z] == [x] + [y, z];
  }

  method ReadByte(src: V.Source) returns (x: byte)
    modifies src
    ensures x == V.Decode(old(src.data)).0 % 256
    ensures src.data == V.Decode(old(src.data)).1
  {
    assert Pow2(8) == 256;
    x := V.DecodeUnsigned(src, 8);
  }

  lemma OneMore(k: nat, s: seq<byte>, x: byte, rest: seq<byte>, more: seq<byte>)
    requires x == V.Decode(s).0 % 256 && rest == V.Decode(s).1
    requires DecodeBytes(k, rest).0 == more
    ensures DecodeBytes(k + 1, s) == ([x] + more, DecodeBytes(k, rest).1)
  {
  }

  method WriteHeader(snk: V.Sink, h: Header)
    modifies snk
    ensures snk.data == old(snk.data) + EncodeHeader(h)
  {
    WriteThree(snk, h.dir, h.sessionId, h.operationId);
    if h.dir == REQUEST {
      WriteThree(snk, h.interfaceId, h.methodId, h.arity);
    }
  }

  method WriteThree(snk: V.Sink, x: byte, y: byte, z: byte)
    modifies snk
    ensures snk.data == old(snk.data) + EncodeBytes([x, y, z])
  {
    assert Pow2(8) == 256;
    V.EncodeUnsigned(snk, 8, x);
    V.EncodeUnsigned(snk, 8, y);
    V.EncodeUnsigned(snk, 8, z);
    assert [x, y, z][1..] == [y, z] && [y, z][1..] == [z];
    assert EncodeBytes([z]) == V.Encode(z);
    assert EncodeBytes([y, z]) == V.Encode(y) + V.Encode(z);
  }
}
