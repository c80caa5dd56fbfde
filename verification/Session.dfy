/** The client session as the code has it: fields that methods update, and a package object
    that is filled, packed and dropped. */
module Session {
  import Collections
  import opened Wrappers
  import opened Bits
  import V = Varint
  import C = Codec
  import P = Package
  import E = Endian
  import F = Framing
  import M = SessionModel

  lemma {:induction false} StreamAppend(pkgs: seq<F.Packets>, ps: F.Packets)
    ensures F.Stream(pkgs + [ps]) == F.Stream(pkgs) + P.Wire(F.Raw(ps))
  {
    hide P.Wire;
    if pkgs == [] {
      assert pkgs + [ps] == [ps];
      assert F.Stream([ps]) == P.Wire(F.Raw(ps)) + F.Stream([]);
    } else {
      assert (pkgs + [ps])[1..] == pkgs[1..] + [ps];
      StreamAppend(pkgs[1..], ps);
      Collections.Associate(P.Wire(F.Raw(pkgs[0])), F.Stream(pkgs[1..]), P.Wire(F.Raw(ps)));
    }
  }

  lemma {:induction false} UntagAllAppend(pkgs: seq<seq<M.Sent>>, ps: seq<M.Sent>)
    ensures M.UntagAll(pkgs + [ps]) == M.UntagAll(pkgs) + [M.Untag(ps)]
  {
    if pkgs == [] {
      assert pkgs + [ps] == [ps];
    } else {
      assert (pkgs + [ps])[1..] == pkgs[1..] + [ps];
      UntagAllAppend(pkgs[1..], ps);
    }
  }

  lemma {:induction false} RawAppend(ps: seq<M.Sent>, p: M.Sent)
    ensures F.Raw(M.Untag(ps + [p])) == F.Raw(M.Untag(ps)) + [F.PacketBytes(p.packet)]
  {
    hide F.PacketBytes;
    if ps == [] {
      assert ps + [p] == [p];
      assert M.Untag([p]) == [p.packet];
    } else {
      assert (ps + [p])[1..] == ps[1..] + [p];
      RawAppend(ps[1..], p);
      assert M.Untag(ps + [p])[1..] == M.Untag(ps[1..] + [p]);
      assert M.Untag(ps)[1..] == M.Untag(ps[1..]);
    }
  }

  class Session {
    const machine: E.Machine
    var sessionId: byte
    var enableBatch: bool
    var package: P.OutPackage?
    var waitMap: map<byte, nat>

    /** What the connection was given to write, in order. */
    var wire: seq<byte>

    ghost var open: seq<M.Sent>
    ghost var outbox: seq<seq<M.Sent>>

    /** The bytes in the package and on the wire are those of the packets of State(). */
    ghost predicate Valid()
      reads this, package
    {
      && (package == null ==> open == [])
      && (package != null ==> package.Valid() && package.packets == F.Raw(M.Untag(open)))
      && wire == F.Stream(M.UntagAll(outbox))
    }

    ghost predicate BetweenPackets()
      requires Valid()
      reads this, package
    {
      package != null ==> package.Unfinished() == []
    }

    ghost function State(): M.State
      reads this
    {
      M.State(sessionId, enableBatch, if package == null then None else Some(open), waitMap, outbox)
    }

    /** The packets gathered in the package, as bytes. */
    ghost function Gathered(): seq<seq<byte>>
      reads this, package
    {
      if package == null then [] else package.packets
    }

    /** Where the bytes of a packet go: in a batch into the package, otherwise to the wire,
        together with what the package held. */
    ghost predicate Placed(batch: bool, wire0: seq<byte>, gathered: seq<seq<byte>>, p: seq<byte>)
      reads this, package
    {
      if batch then wire == wire0 && Gathered() == gathered + [p]
      else wire == wire0 + P.Wire(gathered + [p]) && package == null
    }

    constructor (sid: byte, machine: E.Machine)
      ensures Valid() && BetweenPackets() && State() == M.State(sid, false, None, map[], []) && package == null
    {
      this.machine := machine;
      sessionId, enableBatch, package, waitMap, wire := sid, false, null, map[], [];
      open, outbox := [], [];
    }

    /** Walks the keys in ascending order with an 8-bit counter. */
    method GetFreeOperationId() returns (ret: byte)
      ensures ret == M.FreeId(waitMap.Keys)
    {
      hide M.FreeFrom, M.Below;
      assert M.FreeId(waitMap.Keys) == M.FreeFrom(waitMap.Keys, 0);
      ret := 0;
      var rest := waitMap.Keys;
      ghost var n := 0;
      assert rest == waitMap.Keys - M.Below(0);
      while rest != {}
        invariant 0 <= n <= M.IDS && ret == n % M.IDS
        invariant rest == waitMap.Keys - M.Below(n)
        invariant M.FreeId(waitMap.Keys) == M.FreeFrom(waitMap.Keys, n)
        decreases |rest|
      {
        var first := Least(rest);
        M.ScanStep(waitMap.Keys, rest, n, first);
        if ret == first {
          ret := (ret + 1) % M.IDS;
          rest := rest - {first};
          n := n + 1;
        } else {
          return;
        }
      }
      assert waitMap.Keys <= M.Below(n) + rest;
      M.ScanEnd(waitMap.Keys, n);
    }

    static method Least(s: set<byte>) returns (m: byte)
      requires s != {}
      ensures m in s && forall x | x in s :: m <= x
    {
      m :| m in s;
      var rest := s - {m};
      while rest != {}
        invariant m in s && rest <= s
        invariant forall x | x in s :: x in rest || m <= x
        decreases |rest|
      {
        var y :| y in rest;
        if y < m {
          m := y;
        }
        rest := rest - {y};
      }
    }

    method BeginPacket(iid: byte, mid: byte, arity: byte) returns (oid: byte)
      requires Valid() && BetweenPackets()
      modifies this, package
      ensures Valid() && package != null && (old(package) != null ==> package == old(package))
      ensures old(package) == null ==> fresh(package)
      ensures State() == old(State()).(open := Some(M.Opened(old(State()))))
      ensures wire == old(wire) && oid == M.FreeId(waitMap.Keys)
      ensures package.Unfinished() == C.EncodeHeader(C.Header(C.REQUEST, sessionId, oid, iid, mid, arity))
    {
      if package == null {
        package := new P.OutPackage();
      }
      oid := GetFreeOperationId();
      var h := C.Header(C.REQUEST, sessionId, oid, iid, mid, arity);
      package.BeginPacket();
      var snk := new V.Sink();
      C.WriteHeader(snk, h);
      package.Write(snk.data);
    }

    method Write(args: seq<byte>)
      requires Valid() && package != null
      modifies package
      ensures Valid() && package.Unfinished() == old(package.Unfinished()) + args
    {
      package.Write(args);
    }

    /** p: the packet that was written. */
    method EndPacket(ghost p: M.Sent)
      requires Valid() && package != null && package.Unfinished() == F.PacketBytes(p.packet)
      modifies this, package
      ensures Valid() && BetweenPackets() && (package == null || package == old(package))
      ensures State() == M.AddPacket(old(State()), p)
      ensures Placed(old(enableBatch), old(wire), old(Gathered()), old(package.Unfinished()))
    {
      package.EndPacket();
      RawAppend(open, p);
      open := open + [p];
      if !enableBatch {
        EndSend();
      }
    }

    /** Packs the package, hands it to the connection and forgets it. */
    method EndSend()
      requires Valid() && package != null && BetweenPackets()
      modifies this, package
      ensures Valid() && package == null && enableBatch == old(enableBatch)
      ensures State() == M.Flush(old(State())) && wire == old(wire) + P.Wire(old(package.packets))
    {
      var data := package.Pack(machine);
      StreamAppend(M.UntagAll(outbox), M.Untag(open));
      UntagAllAppend(outbox, open);
      wire := wire + data;
      outbox := outbox + [open];
      package, open := null, [];
    }

    method Send(iid: byte, mid: byte, arity: byte, args: seq<byte>, ghost call: nat) returns (oid: byte)
      requires Valid() && BetweenPackets()
      modifies this, package
      ensures Valid() && BetweenPackets() && oid == M.FreeId(old(waitMap.Keys))
      ensures package == null || package == old(package) || fresh(package)
      ensures State() == M.AddPacket(old(State()), M.RequestPacket(old(State()), iid, mid, arity, args, call))
      ensures Placed(old(enableBatch), old(wire), old(Gathered()),
                     C.EncodeHeader(C.Header(1, sessionId, oid, iid, mid, arity)) + args)
    {
      ghost var p := M.RequestPacket(State(), iid, mid, arity, args, call);
      oid := BeginPacket(iid, mid, arity);
      Write(args);
      EndPacket(p);
    }

    method Wait(oid: byte, call: nat)
      requires Valid()
      modifies this`waitMap
      ensures Valid() && State() == M.Register(old(State()), oid, call)
      ensures waitMap == if oid in old(waitMap) then old(waitMap) else old(waitMap)[oid := call]
    {
      if oid !in waitMap {
        waitMap := waitMap[oid := call];
      }
    }

    /** call names the promise that a non-void request makes. */
    method Request(void: bool, iid: byte, mid: byte, arity: byte, args: seq<byte>, call: nat)
      requires Valid() && BetweenPackets()
      modifies this, package
      ensures Valid() && BetweenPackets()
      ensures State() == M.Request(old(State()), void, iid, mid, arity, args, call)
      ensures Placed(old(enableBatch), old(wire), old(Gathered()),
                     C.EncodeHeader(C.Header(1, sessionId, M.FreeId(old(waitMap.Keys)), iid, mid, arity)) + args)
    {
      var oid := Send(iid, mid, arity, args, call);
      if !void {
        Wait(oid, call);
      }
    }

    method BeginBatch()
      requires Valid()
      modifies this`enableBatch
      ensures Valid() && State() == M.BeginBatch(old(State())) && enableBatch
    {
      enableBatch := true;
    }

    /** There has to be a package: with none the connection is handed a null one. */
    method EndBatch()
      requires Valid() && BetweenPackets() && package != null
      modifies this, package
      ensures Valid() && BetweenPackets() && State() == M.EndBatch(old(State()))
      ensures !enableBatch && package == null && wire == old(wire) + P.Wire(old(package.packets))
    {
      enableBatch := false;
      EndSend();
    }

    /** A response arrived under oid: the promise it fulfils. */
    method Response(oid: byte) returns (call: Option<nat>)
      requires Valid()
      modifies this`waitMap
      ensures Valid() && (call, State()) == M.Respond(old(State()), oid)
      ensures call == (if oid in old(waitMap) then Some(old(waitMap)[oid]) else None) && waitMap == old(waitMap) - {oid}
    {
      if oid in waitMap {
        call := Some(waitMap[oid]);
        waitMap := waitMap - {oid};
      } else {
        call := None;
      }
    }

    /** The bytes written are read back, at the other end, as exactly the packets sent. */
    lemma ReadBack(env: F.Env)
      requires Valid() && F.Sendable(env, M.UntagAll(outbox))
      ensures F.Got(env, wire) == (F.SeenAll(env, M.UntagAll(outbox)), F.IDLE)
    {
      F.WholeStream(env, M.UntagAll(outbox));
    }
  }
}
