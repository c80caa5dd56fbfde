/** A client session as a value: the operation ids it hands out, the packages it fills and
    the promises that wait for a response. */
module SessionModel {
  import Collections
  import opened Wrappers
  import opened Bits
  import C = Codec
  import F = Framing

  // ----- operation ids -----

  /** The 8-bit ids. */
  const IDS := 256

  /** The first number from i on that is not a key; past the last id the counter wraps. */
  function FreeFrom(keys: set<byte>, i: nat): (r: byte)
    requires i <= IDS
    decreases IDS - i
  {
    if i == IDS then 0 else if i in keys then FreeFrom(keys, i + 1) else i
  }

  function FreeId(keys: set<byte>): byte
  {
    FreeFrom(keys, 0)
  }

  function Below(n: nat): (s: set<byte>)
    requires n <= IDS
    ensures |s| == n && forall b: byte :: b in s <==> b < n
  {
    if n == 0 then {} else Below(n - 1) + {n - 1}
  }

  lemma {:induction false} FreeFromMeaning(keys: set<byte>, i: nat)
    requires i <= IDS && Below(i) <= keys
    ensures FreeFrom(keys, i) in keys ==> Below(IDS) <= keys && FreeFrom(keys, i) == 0
    ensures FreeFrom(keys, i) !in keys ==> Below(FreeFrom(keys, i)) <= keys
    decreases IDS - i
  {
    if i < IDS && i in keys {
      FreeFromMeaning(keys, i + 1);
    }
  }

  /** There is no more to say than how many ids are taken. */
  lemma AllTaken(keys: set<byte>)
    ensures |keys| <= IDS
    ensures Below(IDS) <= keys <==> |keys| == IDS
  {
    assert keys <= Below(IDS);
    Collections.Subset(keys, Below(IDS));
    if Below(IDS) <= keys {
      Collections.Subset(Below(IDS), keys);
    } else {
      var b: byte :| b !in keys;
      assert keys <= Below(IDS) - {b};
      Collections.Subset(keys, Below(IDS) - {b});
    }
  }

  /** The scan finds the least id that no promise waits under exactly while there is one:
      with all 256 taken it wraps to 0, which is taken. */
  lemma FreeIdMeaning(keys: set<byte>)
    ensures FreeId(keys) !in keys <==> |keys| < IDS
    ensures |keys| < IDS ==> forall j: byte | j < FreeId(keys) :: j in keys
    ensures |keys| >= IDS ==> FreeId(keys) == 0 && 0 in keys
    ensures FreeId(keys) <= |keys|
  {
    FreeFromMeaning(keys, 0);
    AllTaken(keys);
    if |keys| < IDS {
      Collections.Subset(Below(FreeId(keys)), keys);
    } else {
      assert 0 in Below(IDS);
    }
  }

  /** The next key met is the counter, or nothing holds the counter. */
  lemma ScanStep(keys: set<byte>, rest: set<byte>, n: nat, first: byte)
    requires n <= IDS && rest == keys - Below(n)
    requires first in rest && forall x | x in rest :: first <= x
    ensures n < IDS
    ensures first == n ==> rest - {first} == keys - Below(n + 1) && FreeFrom(keys, n) == FreeFrom(keys, n + 1)
    ensures first != n ==> FreeFrom(keys, n) == n
  {
    var b: byte := n;
    assert b in keys ==> b in rest;
  }

  lemma ScanEnd(keys: set<byte>, n: nat)
    requires n <= IDS && keys <= Below(n)
    ensures FreeFrom(keys, n) == n % IDS
  {
    hide Below;
    if n < IDS {
      var b: byte := n;
      assert b !in Below(n);
    }
  }

  // ----- sessions as values -----

  /** A packet and the call it belongs to.  The call is not on the wire. */
  datatype Sent = Sent(packet: F.Packet, call: nat)

  /** open: the package being filled; wait: the promise, named by its call, under each
      operation id; outbox: the packages given to the connection. */
  datatype State = State(
    sid: byte, batch: bool, open: Option<seq<Sent>>, wait: map<byte, nat>, outbox: seq<seq<Sent>>)

  function Untag(ps: seq<Sent>): (r: seq<F.Packet>)
    ensures |r| == |ps|
  {
    if ps == [] then [] else [ps[0].packet] + Untag(ps[1..])
  }

  function UntagAll(pkgs: seq<seq<Sent>>): (r: seq<F.Packets>)
    ensures |r| == |pkgs|
  {
    if pkgs == [] then [] else [Untag(pkgs[0])] + UntagAll(pkgs[1..])
  }

  function Opened(s: State): seq<Sent>
  {
    match s.open case None => [] case Some(ps) => ps
  }

  function RequestPacket(s: State, iid: byte, mid: byte, arity: byte, body: seq<byte>, call: nat): Sent
  {
    Sent(F.Packet(C.Header(C.REQUEST, s.sid, FreeId(s.wait.Keys), iid, mid, arity), body), call)
  }

  /** _endSend */
  function Flush(s: State): State
  {
    s.(open := None, outbox := s.outbox + [Opened(s)])
  }

  /** end_packet: outside a batch the package leaves with its one packet. */
  function AddPacket(s: State, p: Sent): State
  {
    var s' := s.(open := Some(Opened(s) + [p]));
    if s.batch then s' else Flush(s')
  }

  /** wait: emplace leaves an entry that is already there alone. */
  function Register(s: State, oid: byte, call: nat): State
  {
    if oid in s.wait then s else s.(wait := s.wait[oid := call])
  }

  /** request: a void call borrows an id and registers nothing. */
  function Request(s: State, void: bool, iid: byte, mid: byte, arity: byte, body: seq<byte>, call: nat): State
  {
    var s' := AddPacket(s, RequestPacket(s, iid, mid, arity, body, call));
    if void then s' else Register(s', FreeId(s.wait.Keys), call)
  }

  function BeginBatch(s: State): State
  {
    s.(batch := true)
  }

  function EndBatch(s: State): State
  {
    Flush(s.(batch := false))
  }

  /** _response: the promise fulfilled, if one waits under oid. */
  function Respond(s: State, oid: byte): (Option<nat>, State)
  {
    if oid in s.wait then (Some(s.wait[oid]), s.(wait := s.wait - {oid})) else (None, s)
  }

  // ----- runs of one session -----

  datatype Op =
    | Call(void: bool, iid: byte, mid: byte, arity: byte, body: seq<byte>, call: nat)
    | Answer(oid: byte)
    | Begin
    | End

  function Do(s: State, op: Op): State
  {
    match op
    case Call(void, iid, mid, arity, body, call) => Request(s, void, iid, mid, arity, body, call)
    case Answer(oid) => Respond(s, oid).1
    case Begin => BeginBatch(s)
    case End => EndBatch(s)
  }

  /** The calls and answers among ops. */
  function Unbatched(ops: seq<Op>): seq<Op>
  {
    if ops == [] then []
    else if ops[0].Begin? || ops[0].End? then Unbatched(ops[1..])
    else [ops[0]] + Unbatched(ops[1..])
  }

  function Run(s: State, ops: seq<Op>): State
    decreases |ops|
  {
    if ops == [] then s else Run(Do(s, ops[0]), ops[1..])
  }

  /** The largest number of promises waiting at any moment of a run. */
  function Peak(s: State, ops: seq<Op>): nat
    decreases |ops|
  {
    if ops == [] then |s.wait|
    else
      var later := Peak(Do(s, ops[0]), ops[1..]);
      if later > |s.wait| then later else |s.wait|
  }

  /** Ids stay dense: after any run of calls and answers every id in use is below the
      largest number of calls that ever waited together. */
  lemma {:induction false} IdsBelowPeak(s: State, ops: seq<Op>, bound: nat)
    requires forall k | k in s.wait :: k < bound
    ensures forall k | k in Run(s, ops).wait :: k < bound || k < Peak(s, ops)
    decreases |ops|
  {
    if ops != [] {
      var s', rest := Do(s, ops[0]), ops[1..];
      FreeIdMeaning(s.wait.Keys);
      var more := if |s'.wait| > bound then |s'.wait| else bound;
      forall k | k in s'.wait
        ensures k < more
      {
        if k !in s.wait {
          assert s'.wait.Keys == s.wait.Keys + {k};
          assert k == FreeId(s.wait.Keys) <= |s.wait.Keys| < |s'.wait.Keys|;
        }
      }
      IdsBelowPeak(s', rest, more);
      PeakNow(s', rest);
    }
  }

  lemma PeakNow(s: State, ops: seq<Op>)
    ensures |s.wait| <= Peak(s, ops)
  {
  }

  /** All packets of a session so far, sent or still in its open package. */
  function AllPackets(s: State): seq<Sent>
  {
    Join(s.outbox) + Opened(s)
  }

  function Join(pkgs: seq<seq<Sent>>): seq<Sent>
  {
    if pkgs == [] then [] else pkgs[0] + Join(pkgs[1..])
  }

  lemma {:induction false} JoinAppend(pkgs: seq<seq<Sent>>, ps: seq<Sent>)
    ensures Join(pkgs + [ps]) == Join(pkgs) + ps
  {
    if pkgs == [] {
      assert pkgs + [ps] == [ps] && Join([ps]) == ps + Join([]);
    } else {
      assert (pkgs + [ps])[1..] == pkgs[1..] + [ps];
      JoinAppend(pkgs[1..], ps);
      assert pkgs[0] + (Join(pkgs[1..]) + ps) == (pkgs[0] + Join(pkgs[1..])) + ps;
    }
  }

  lemma FlushKeepsPackets(s: State)
    ensures AllPackets(Flush(s)) == AllPackets(s)
  {
    JoinAppend(s.outbox, Opened(s));
    assert AllPackets(Flush(s)) == Join(s.outbox) + Opened(s) + [];
  }

  lemma AddPacketAppends(s: State, p: Sent)
    ensures AllPackets(AddPacket(s, p)) == AllPackets(s) + [p]
  {
    var s' := s.(open := Some(Opened(s) + [p]));
    assert AllPackets(s') == AllPackets(s) + [p];
    FlushKeepsPackets(s');
  }

  lemma DoSame(s: State, t: State, op: Op)
    requires s.sid == t.sid && s.wait == t.wait && AllPackets(s) == AllPackets(t)
    ensures Do(s, op).sid == Do(t, op).sid && Do(s, op).wait == Do(t, op).wait
    ensures AllPackets(Do(s, op)) == AllPackets(Do(t, op))
    ensures op.Begin? || op.End? ==>
              Do(s, op).sid == s.sid && Do(s, op).wait == s.wait && AllPackets(Do(s, op)) == AllPackets(s)
  {
    match op
    case Call(_, _, _, _, _, _) =>
      var p := RequestPacket(s, op.iid, op.mid, op.arity, op.body, op.call);
      AddPacketAppends(s, p);
      AddPacketAppends(t, p);
    case Answer(_) =>
    case Begin =>
    case End =>
      FlushKeepsPackets(s.(batch := false));
      FlushKeepsPackets(t.(batch := false));
  }

  /** Batching changes when packets leave, not which packets, their order, their ids or the
      promises: two runs with the same calls and answers, whatever batches each of them
      begins and ends in between. */
  lemma {:induction false} BatchTransparent(s: State, t: State, ops: seq<Op>, ops': seq<Op>)
    requires s.sid == t.sid && s.wait == t.wait && AllPackets(s) == AllPackets(t)
    requires Unbatched(ops) == Unbatched(ops')
    ensures Run(s, ops).wait == Run(t, ops').wait
    ensures AllPackets(Run(s, ops)) == AllPackets(Run(t, ops'))
    decreases |ops| + |ops'|
  {
    hide Do, AllPackets;
    if ops != [] && (ops[0].Begin? || ops[0].End?) {
      DoSame(s, s, ops[0]);
      BatchTransparent(Do(s, ops[0]), t, ops[1..], ops');
    } else if ops' != [] && (ops'[0].Begin? || ops'[0].End?) {
      DoSame(t, t, ops'[0]);
      BatchTransparent(s, Do(t, ops'[0]), ops, ops'[1..]);
    } else if ops != [] {
      assert ops' != [] && ops[0] == Unbatched(ops)[0] == ops'[0];
      assert Unbatched(ops[1..]) == Unbatched(ops)[1..] == Unbatched(ops'[1..]);
      DoSame(s, t, ops[0]);
      BatchTransparent(Do(s, ops[0]), Do(t, ops[0]), ops[1..], ops'[1..]);
    }
  }
}
