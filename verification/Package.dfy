/** Packages: a batch of packets behind a size, with the list of the packets' sizes in
    front of their bytes. */
module Package {
  import Collections
  import opened Wrappers
  import opened Bits
  import V = Varint
  import E = Endian

  /** uint32_t */
  const WORD := 0x1_0000_0000

  /** Sizes and counts are held in int while a package is taken apart. */
  const LIMIT := 0x8000_0000

  function Flatten(ps: seq<seq<byte>>): seq<byte>
  {
    if ps == [] then [] else ps[0] + Flatten(ps[1..])
  }

  function Sizes(ps: seq<seq<byte>>): (ns: seq<nat>)
    ensures |ns| == |ps|
  {
    if ps == [] then [] else [|ps[0]|] + Sizes(ps[1..])
  }

  function Sum(ns: seq<nat>): nat
  {
    if ns == [] then 0 else ns[0] + Sum(ns[1..])
  }

  function EncodeSizes(ns: seq<nat>): seq<byte>
  {
    if ns == [] then [] else V.Encode(ns[0]) + EncodeSizes(ns[1..])
  }

  /** The end of the size list.  The literal 0 that pack writes is a signed int. */
  function Terminator(): seq<byte>
  {
    TerminatorFits();
    V.Encode(V.ZigZag(32, 0))
  }

  lemma TerminatorFits()
    ensures V.Fits(32, 0) && V.ZigZag(32, 0) == 0
  {
    V.ZigZagMeaning(32, 0);
  }

  /** ... and the reader meets it as an unsigned number: the mapping keeps zero. */
  lemma TerminatorIsZero()
    ensures Terminator() == [0] == V.Encode(0)
  {
    TerminatorFits();
  }

  /** Sizes as they are kept, in 32 bits. */
  function Recorded(ns: seq<nat>): (rs: seq<nat>)
    ensures |rs| == |ns|
  {
    if ns == [] then [] else [ns[0] % WORD] + Recorded(ns[1..])
  }

  function Contents(ps: seq<seq<byte>>): seq<byte>
  {
    EncodeSizes(Recorded(Sizes(ps))) + Terminator() + Flatten(ps)
  }

  /** What a package looks like on the wire. */
  function Wire(ps: seq<seq<byte>>): seq<byte>
  {
    V.Little(|Contents(ps)| % WORD, 4) + Contents(ps)
  }

  /** The size list at the front of s.  None: the list has no end, and the reader, which
      at the end of its input keeps getting a non-zero size, never returns. */
  function UnpackSizes(s: seq<byte>): (r: Option<(seq<nat>, seq<byte>)>)
    ensures r.Some? ==> |r.value.1| < |s| && 0 !in r.value.0
    decreases |s|
  {
    if s == [] then None
    else
      var (v, rest) := V.Decode(s);
      if v % WORD == 0 then Some(([], rest))
      else Cons(v % WORD, UnpackSizes(rest))
  }

  function BeforeZero(ns: seq<nat>): seq<nat>
  {
    if ns == [] || ns[0] == 0 then [] else [ns[0]] + BeforeZero(ns[1..])
  }

  // ----- the format undoes itself -----

  /** Reading a size list back stops at its first zero. */
  lemma {:induction false} SizesReadBack(ns: seq<nat>, t: seq<byte>)
    requires forall i | 0 <= i < |ns| :: ns[i] < WORD
    ensures UnpackSizes(EncodeSizes(ns) + (Terminator() + t)).Some?
    ensures UnpackSizes(EncodeSizes(ns) + (Terminator() + t)).value.0 == BeforeZero(ns)
    ensures 0 !in ns ==> UnpackSizes(EncodeSizes(ns) + (Terminator() + t)).value.1 == t
  {
    var e := Terminator() + t;
    if ns == [] {
      TerminatorIsZero();
      UnpackOne(0, t);
      assert [] + e == e;
    } else {
      SizesReadBack(ns[1..], t);
      UnpackOne(ns[0], EncodeSizes(ns[1..]) + e);
      Collections.Associate(V.Encode(ns[0]), EncodeSizes(ns[1..]), e);
    }
  }

  lemma UnpackOne(n: nat, more: seq<byte>)
    requires n < WORD
    ensures UnpackSizes(V.Encode(n) + more)
         == if n == 0 then Some(([], more)) else Cons(n, UnpackSizes(more))
  {
    V.RoundTrip(n, more);
    assert V.Encode(n) + more != [];
    assert n % WORD == n;
  }

  /** The recorded sizes read back as recorded exactly when no packet is empty. */
  lemma SizesRoundTrip(ns: seq<nat>, t: seq<byte>)
    requires forall i | 0 <= i < |ns| :: ns[i] < WORD
    ensures UnpackSizes(EncodeSizes(ns) + (Terminator() + t)) == Some((ns, t)) <==> 0 !in ns
  {
    SizesReadBack(ns, t);
    NoZero(ns);
  }

  lemma {:induction false} NoZero(ns: seq<nat>)
    ensures BeforeZero(ns) == ns <==> 0 !in ns
    ensures 0 !in BeforeZero(ns)
  {
    if ns != [] {
      NoZero(ns[1..]);
    }
  }

  /** The sizes of the packets account for every byte of the body, and they are recorded
      as they are unless the body has 2^32 bytes or more. */
  lemma {:induction false} SizesSum(ps: seq<seq<byte>>)
    ensures Sum(Sizes(ps)) == |Flatten(ps)|
    ensures |Flatten(ps)| < WORD ==> Recorded(Sizes(ps)) == Sizes(ps)
  {
    if ps != [] {
      SizesSum(ps[1..]);
      assert Sizes(ps)[1..] == Sizes(ps[1..]);
    }
  }

  lemma {:induction false} RecordedAppend(ns: seq<nat>, n: nat)
    ensures Recorded(ns + [n]) == Recorded(ns) + [n % WORD]
  {
    if ns == [] {
      assert ns + [n] == [n];
      assert Recorded([n]) == [n % WORD] + Recorded([]);
    } else {
      assert (ns + [n])[1..] == ns[1..] + [n];
      RecordedAppend(ns[1..], n);
    }
  }

  /** The difference of two counters kept in 32 bits. */
  lemma Difference(a: nat, b: nat)
    ensures ((a + b) % WORD - a % WORD) % WORD == b % WORD
  {
    var q, r := b / WORD, b % WORD;
    var k := (a + b) / WORD - a / WORD - q;
    assert (a + b) % WORD - a % WORD == WORD * (0 - k) + r;
    ModUnique((a + b) % WORD - a % WORD, WORD, 0 - k, r);
  }

  lemma {:induction false} FlattenAppend(ps: seq<seq<byte>>, qs: seq<seq<byte>>)
    ensures Flatten(ps + qs) == Flatten(ps) + Flatten(qs)
  {
    if ps == [] {
      assert ps + qs == qs;
    } else {
      assert (ps + qs)[1..] == ps[1..] + qs;
      FlattenAppend(ps[1..], qs);
    }
  }

  lemma FlattenOne(p: seq<byte>)
    ensures Flatten([p]) == p
  {
    var ps := [p];
    assert ps[1..] == [] && Flatten(ps) == ps[0] + Flatten(ps[1..]);
  }

  lemma {:induction false} SizesAppend(ps: seq<seq<byte>>, p: seq<byte>)
    ensures Sizes(ps + [p]) == Sizes(ps) + [|p|]
  {
    if ps == [] {
      assert ps + [p] == [p];
    } else {
      assert (ps + [p])[1..] == ps[1..] + [p];
      SizesAppend(ps[1..], p);
    }
  }

  lemma {:induction false} EncodeSizesAppend(ns: seq<nat>, n: nat)
    ensures EncodeSizes(ns + [n]) == EncodeSizes(ns) + V.Encode(n)
  {
    if ns == [] {
      assert ns + [n] == [n];
      assert EncodeSizes([n]) == V.Encode(n) + EncodeSizes([]);
    } else {
      assert (ns + [n])[1..] == ns[1..] + [n];
      EncodeSizesAppend(ns[1..], n);
    }
  }

  lemma {:induction false} SizesBelow(ps: seq<seq<byte>>)
    ensures forall i | 0 <= i < |ps| :: Sizes(ps)[i] <= |Flatten(ps)|
    ensures 0 in Sizes(ps) ==> [] in ps
  {
    if ps != [] {
      SizesBelow(ps[1..]);
    }
  }

  // ----- the package being written -----

  class OutPackage {
    var packetSizesBuf: seq<byte>
    var streamBuf: seq<byte>
    var lastSize: nat

    /** The packets ended so far; what follows them in streamBuf is the one being written. */
    ghost var packets: seq<seq<byte>>

    ghost predicate Valid()
      reads this
    {
      && Flatten(packets) <= streamBuf
      && lastSize == |Flatten(packets)| % WORD
      && packetSizesBuf == EncodeSizes(Recorded(Sizes(packets)))
    }

    ghost function Unfinished(): seq<byte>
      requires Valid()
      reads this
    {
      streamBuf[|Flatten(packets)|..]
    }

    constructor ()
      ensures Valid() && packets == [] && Unfinished() == []
    {
      packetSizesBuf, streamBuf, lastSize := [], [], 0;
      packets := [];
    }

    method Size() returns (n: nat)
      requires Valid()
      ensures n == (|packetSizesBuf| + |streamBuf|) % WORD
    {
      n := (|packetSizesBuf| + |streamBuf|) % WORD;
    }

    method BeginPacket()
    {
    }

    method Write(bs: seq<byte>)
      requires Valid()
      modifies this
      ensures Valid() && packets == old(packets) && Unfinished() == old(Unfinished()) + bs
    {
      streamBuf := streamBuf + bs;
    }

    method WritePacketSize(n: nat)
      requires n < WORD
      modifies this
      ensures packetSizesBuf == old(packetSizesBuf) + V.Encode(n)
      ensures streamBuf == old(streamBuf) && lastSize == old(lastSize) && packets == old(packets)
    {
      Pow2Word();
      var snk := new V.Sink();
      V.EncodeUnsigned(snk, 32, n);
      packetSizesBuf := packetSizesBuf + snk.data;
    }

    /** Whatever was written since the last packet ended is the new packet. */
    method EndPacket()
      requires Valid()
      modifies this
      ensures Valid() && packets == old(packets) + [old(Unfinished())] && Unfinished() == []
      ensures streamBuf == old(streamBuf)
    {
      ghost var p := Unfinished();
      var newSize := |streamBuf| % WORD;
      WritePacketSize((newSize - lastSize) % WORD);
      Difference(|Flatten(packets)|, |p|);
      lastSize := newSize;
      SizesAppend(packets, p);
      RecordedAppend(Sizes(packets), |p|);
      EncodeSizesAppend(Recorded(Sizes(packets)), |p| % WORD);
      FlattenAppend(packets, [p]);
      FlattenOne(p);
      assert streamBuf == Flatten(packets) + p;
      packets := packets + [p];
    }

    /** Ends the size list and hands out the three buffers to write.  The sizes of a
        packed package can only be consumed, not added to. */
    method Pack(machine: E.Machine) returns (data: seq<byte>)
      requires Valid() && Unfinished() == []
      modifies this
      ensures data == Wire(packets) && packets == old(packets)
      ensures packetSizesBuf == old(packetSizesBuf) + Terminator()
      ensures streamBuf == old(streamBuf) && lastSize == 0
    {
      TerminatorFits();
      var snk := new V.Sink();
      V.EncodeSigned(snk, 32, 0);
      packetSizesBuf := packetSizesBuf + snk.data;
      assert streamBuf == Flatten(packets);
      var packageSize := (|packetSizesBuf| + |streamBuf|) % WORD;
      var sizeBuf := SizeBuffer(machine, packageSize);
      Collections.Associate(sizeBuf, packetSizesBuf, streamBuf);
      data := sizeBuf + packetSizesBuf + streamBuf;
      lastSize := 0;
    }

    /** After the write completed. */
    method Consume()
      requires lastSize == 0
      modifies this
      ensures Valid() && packets == [] && Unfinished() == []
    {
      packetSizesBuf, streamBuf := [], [];
      packets := [];
    }
  }

  /** The size as the machine keeps it, in the order of the wire. */
  method SizeBuffer(machine: E.Machine, size: nat) returns (bytes: seq<byte>)
    requires size < WORD
    ensures bytes == V.Little(size, 4)
  {
    Pow2Word();
    var rep := new byte[4](i requires 0 <= i < 4 => E.Memory(machine, size, 4)[i]);
    assert rep[..] == E.Memory(machine, size, 4);
    E.NativeToLittle(machine, rep);
    E.WireOrder(machine, machine, size, 4);
    bytes := rep[..];
  }

  /** Four bytes of the wire as the machine's number. */
  method UnpackSize(machine: E.Machine, bytes: seq<byte>) returns (size: nat)
    requires |bytes| == 4
    ensures size == V.FromLittle(bytes)
  {
    var rep := new byte[4](i requires 0 <= i < 4 => bytes[i]);
    assert rep[..] == bytes;
    E.NativeToLittle(machine, rep);
    E.ReversedTwice(bytes);
    size := E.Word(machine, rep[..]);
  }

  lemma Pow2Word()
    ensures Pow2(32) == WORD
  {
    SevenMore(25);
    SevenMore(18);
    SevenMore(11);
    SevenMore(4);
    assert Pow2(4) == 16;
  }

  // ----- the size list being read -----

  /** Returns exactly when the list has an end. */
  method UnpackPacketSizes(src: V.Source) returns (sizes: seq<nat>)
    requires UnpackSizes(src.data).Some?
    modifies src
    ensures Some((sizes, src.data)) == UnpackSizes(old(src.data))
  {
    Pow2Word();
    ghost var all := UnpackSizes(src.data);
    sizes := [];
    while true
      invariant UnpackSizes(src.data).Some?
      invariant all.value.0 == sizes + UnpackSizes(src.data).value.0
      invariant all.Some? && all.value.1 == UnpackSizes(src.data).value.1
      decreases |src.data|
    {
      ghost var before := src.data;
      var packetSize := V.DecodeUnsigned(src, 32);
      if packetSize == 0 {
        break;
      }
      assert UnpackSizes(before) == Cons(packetSize, UnpackSizes(src.data));
      assert sizes + ([packetSize] + UnpackSizes(src.data).value.0) == sizes + [packetSize] + UnpackSizes(src.data).value.0;
      sizes := sizes + [packetSize];
    }
    assert sizes + [] == sizes;
  }
}
