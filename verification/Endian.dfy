/** Byte order: what the words that frame the packages look like in memory and on the wire. */
module Endian {
  import opened Bits
  import V = Varint

  /** How the machine keeps a word in memory. */
  datatype Machine = LittleEndian | BigEndian

  function Reversed(s: seq<byte>): (r: seq<byte>)
    ensures |r| == |s|
    ensures forall i | 0 <= i < |s| :: r[i] == s[|s| - 1 - i]
  {
    if s == [] then [] else Reversed(s[1..]) + [s[0]]
  }

  lemma ReversedTwice(s: seq<byte>)
    ensures Reversed(Reversed(s)) == s
  {
  }

  /** The k bytes of v at rising addresses. */
  function Memory(m: Machine, v: nat, k: nat): (s: seq<byte>)
    ensures |s| == k
  {
    if m.LittleEndian? then V.Little(v, k) else Reversed(V.Little(v, k))
  }

  function Word(m: Machine, s: seq<byte>): nat
  {
    V.FromLittle(if m.LittleEndian? then s else Reversed(s))
  }

  /** At address i a little-endian machine keeps byte i of the word, a big-endian machine
      byte k - 1 - i, counted from the least significant one. */
  lemma MemoryAt(v: nat, k: nat, i: nat)
    requires i < k
    ensures Memory(LittleEndian, v, k)[i] == V.Little(v, k)[i]
    ensures Memory(BigEndian, v, k)[i] == V.Little(v, k)[k - 1 - i]
  {
  }

  lemma WordOfMemory(m: Machine, v: nat, k: nat)
    requires v < Pow2(8 * k)
    ensures Word(m, Memory(m, v, k)) == v
  {
    V.LittleRoundTrip(v, k);
    ReversedTwice(V.Little(v, k));
  }

  /** In place: the outermost bytes are swapped through a temporary, then those inside. */
  method Reorder(rep: array<byte>)
    requires rep.Length == 2 || rep.Length == 4 || rep.Length == 8
    modifies rep
    ensures rep[..] == Reversed(old(rep[..]))
  {
    var tmp: byte;
    var last := rep.Length - 1;
    tmp := rep[0];
    rep[0] := rep[last];
    rep[last] := tmp;
    if rep.Length > 2 {
      tmp := rep[1];
      rep[1] := rep[last - 1];
      rep[last - 1] := tmp;
    }
    if rep.Length > 4 {
      tmp := rep[2];
      rep[2] := rep[last - 2];
      rep[last - 2] := tmp;
      tmp := rep[3];
      rep[3] := rep[last - 3];
      rep[last - 3] := tmp;
    }
  }

  /** Copying: s moves up through the source while t moves down through the target. */
  method ReorderCopy(source: array<byte>, target: array<byte>)
    requires source.Length == target.Length > 0 && source != target
    modifies target
    ensures target[..] == Reversed(source[..])
  {
    var s, t := 0, target.Length - 1;
    target[t] := source[s];
    while t > 0
      invariant 0 <= t == target.Length - 1 - s
      invariant forall i | t <= i < target.Length :: target[i] == source[source.Length - 1 - i]
    {
      t, s := t - 1, s + 1;
      target[t] := source[s];
    }
  }

  method NativeToLittle(m: Machine, rep: array<byte>)
    requires rep.Length == 2 || rep.Length == 4 || rep.Length == 8
    modifies rep
    ensures rep[..] == ToLittle(m, old(rep[..]))
  {
    if m.BigEndian? {
      Reorder(rep);
    }
  }

  /** The same exchange of bytes takes a word out of the machine's order and back into it. */
  function ToLittle(m: Machine, s: seq<byte>): (r: seq<byte>)
    ensures |r| == |s|
  {
    if m.BigEndian? then Reversed(s) else s
  }

  /** On every machine a word goes out least significant byte first, whatever the receiving
      machine is it gets the word back, and converting twice changes nothing. */
  lemma WireOrder(sender: Machine, receiver: Machine, v: nat, k: nat)
    requires v < Pow2(8 * k)
    ensures ToLittle(sender, Memory(sender, v, k)) == V.Little(v, k)
    ensures Word(receiver, ToLittle(receiver, ToLittle(sender, Memory(sender, v, k)))) == v
    ensures ToLittle(sender, ToLittle(sender, Memory(sender, v, k))) == Memory(sender, v, k)
  {
    ReversedTwice(V.Little(v, k));
    WordOfMemory(receiver, v, k);
  }
}
