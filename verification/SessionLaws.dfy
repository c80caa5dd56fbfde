/** What a session sends and keeps, said of its calls alone: every packet with its header
    and arguments, every promise, and which packets leave together. */
module SessionLaws {
  import opened Wrappers
  import opened Bits
  import C = Codec
  import F = Framing
  import opened S = SessionModel

  predicate Plain(op: Op)
  {
    op.Call? || op.Answer?
  }

  predicate AllPlain(ops: seq<Op>)
  {
    forall i | 0 <= i < |ops| :: Plain(ops[i])
  }

  /** The promises after ops: a call with a result waits under the least free id, while
      there is one; an answer frees its id. */
  function Waits(wait: map<byte, nat>, ops: seq<Op>): map<byte, nat>
    decreases |ops|
  {
    if ops == [] then wait
    else Waits(NextWait(wait, ops[0]), ops[1..])
  }

  function NextWait(wait: map<byte, nat>, op: Op): map<byte, nat>
  {
    if op.Answer? then wait - {op.oid}
    else if op.Call? && !op.void && |wait| < 256 then wait[FreeId(wait.Keys) := op.call]
    else wait
  }

  /** The packets that ops call for, in order. */
  function Called(sid: byte, wait: map<byte, nat>, ops: seq<Op>): seq<Sent>
    decreases |ops|
  {
    if ops == [] then []
    else CalledBy(sid, wait, ops[0]) + Called(sid, NextWait(wait, ops[0]), ops[1..])
  }

  function CalledBy(sid: byte, wait: map<byte, nat>, op: Op): seq<Sent>
  {
    if op.Call? then [Sent(F.Packet(C.Header(1, sid, FreeId(wait.Keys), op.iid, op.mid, op.arity), op.body), op.call)]
    else []
  }

  /** One package for each packet. */
  function Singles(ps: seq<Sent>): seq<seq<Sent>>
  {
    if ps == [] then [] else [[ps[0]]] + Singles(ps[1..])
  }

  // ----- one operation -----

  /** A request adds one packet: its header, with the least free id, and its arguments. */
  lemma RequestAppends(s: State, void: bool, iid: byte, mid: byte, arity: byte, body: seq<byte>, call: nat)
    ensures AllPackets(Request(s, void, iid, mid, arity, body, call))
         == AllPackets(s) + [Sent(F.Packet(C.Header(1, s.sid, FreeId(s.wait.Keys), iid, mid, arity), body), call)]
  {
    AddPacketAppends(s, RequestPacket(s, iid, mid, arity, body, call));
  }

  lemma DoWaits(s: State, op: Op)
    ensures Do(s, op).wait == NextWait(s.wait, op) && Do(s, op).sid == s.sid
    ensures AllPackets(Do(s, op)) == AllPackets(s) + CalledBy(s.sid, s.wait, op)
  {
    FreeIdMeaning(s.wait.Keys);
    assert |s.wait.Keys| == |s.wait|;
    hide FreeId;
    match op
    case Call(void, iid, mid, arity, body, call) => RequestAppends(s, void, iid, mid, arity, body, call);
    case Answer(_) =>
    case Begin =>
    case End => FlushKeepsPackets(s.(batch := false));
  }

  /** In a batch a call stays in the package; outside one it leaves alone, if nothing was
      left open. */
  lemma DoPlain(s: State, op: Op)
    requires Plain(op)
    ensures Do(s, op).batch == s.batch
    ensures s.batch ==> Do(s, op).outbox == s.outbox && Opened(Do(s, op)) == Opened(s) + CalledBy(s.sid, s.wait, op)
    ensures !s.batch && s.open == None ==>
              Do(s, op).open == None && Do(s, op).outbox == s.outbox + Singles(CalledBy(s.sid, s.wait, op))
  {
    hide FreeId;
    if op.Call? {
      var ps := CalledBy(s.sid, s.wait, op);
      assert [] + ps == ps;
      assert Singles(ps) == [[ps[0]]] + Singles([]) == [ps];
    } else {
      assert Opened(s) + [] == Opened(s) && s.outbox + [] == s.outbox;
    }
  }

  // ----- whole runs -----

  /** Over any run, batched or not: the packets sent or waiting to be, and the promises. */
  lemma {:induction false} RunSends(s: State, ops: seq<Op>)
    ensures Run(s, ops).wait == Waits(s.wait, ops) && Run(s, ops).sid == s.sid
    ensures AllPackets(Run(s, ops)) == AllPackets(s) + Called(s.sid, s.wait, ops)
    decreases |ops|
  {
    if ops != [] {
      var s' := Do(s, ops[0]);
      DoWaits(s, ops[0]);
      hide Do, AllPackets, CalledBy, NextWait;
      RunSends(s', ops[1..]);
      assert (AllPackets(s) + CalledBy(s.sid, s.wait, ops[0])) + Called(s'.sid, s'.wait, ops[1..])
          == AllPackets(s) + (CalledBy(s.sid, s.wait, ops[0]) + Called(s'.sid, s'.wait, ops[1..]));
    } else {
      assert AllPackets(s) + [] == AllPackets(s);
    }
  }

  lemma {:induction false} Held(s: State, ops: seq<Op>)
    requires AllPlain(ops) && s.batch
    ensures Run(s, ops).batch && Run(s, ops).outbox == s.outbox
    ensures Opened(Run(s, ops)) == Opened(s) + Called(s.sid, s.wait, ops)
    decreases |ops|
  {
    if ops != [] {
      var s' := Do(s, ops[0]);
      assert Plain(ops[0]);
      DoPlain(s, ops[0]);
      DoWaits(s, ops[0]);
      hide Do, Opened, CalledBy, NextWait;
      Held(s', ops[1..]);
      assert (Opened(s) + CalledBy(s.sid, s.wait, ops[0])) + Called(s'.sid, s'.wait, ops[1..])
          == Opened(s) + (CalledBy(s.sid, s.wait, ops[0]) + Called(s'.sid, s'.wait, ops[1..]));
    } else {
      assert Opened(s) + [] == Opened(s);
    }
  }

  /** From the beginning of a batch to its end nothing leaves; then one package does, with
      what was open before and every packet called since, in order. */
  lemma BatchIsOnePackage(s: State, ops: seq<Op>)
    requires AllPlain(ops)
    ensures Run(Do(s, Begin), ops).outbox == s.outbox
    ensures var t := Do(Run(Do(s, Begin), ops), End);
      && t.outbox == s.outbox + [Opened(s) + Called(s.sid, s.wait, ops)]
      && t.open == None && !t.batch && t.wait == Waits(s.wait, ops)
  {
    Held(Do(s, Begin), ops);
    RunSends(Do(s, Begin), ops);
  }

  lemma SinglesAppend(a: seq<Sent>, b: seq<Sent>)
    ensures Singles(a + b) == Singles(a) + Singles(b)
  {
    if a == [] {
      assert a + b == b;
    } else {
      assert (a + b)[1..] == a[1..] + b;
      SinglesAppend(a[1..], b);
    }
  }

  /** Outside a batch every packet leaves as a package of its own, at once. */
  lemma {:induction false} EachLeavesAlone(s: State, ops: seq<Op>)
    requires AllPlain(ops) && !s.batch && s.open == None
    ensures var t := Run(s, ops);
      !t.batch && t.open == None && t.outbox == s.outbox + Singles(Called(s.sid, s.wait, ops))
    decreases |ops|
  {
    if ops != [] {
      var s' := Do(s, ops[0]);
      assert Plain(ops[0]);
      DoPlain(s, ops[0]);
      DoWaits(s, ops[0]);
      var first, more := CalledBy(s.sid, s.wait, ops[0]), Called(s'.sid, s'.wait, ops[1..]);
      hide Do, CalledBy, NextWait, Singles;
      EachLeavesAlone(s', ops[1..]);
      SinglesAppend(first, more);
      assert (s.outbox + Singles(first)) + Singles(more) == s.outbox + (Singles(first) + Singles(more));
    } else {
      assert s.outbox + [] == s.outbox;
    }
  }

  /** A session between batches has nothing open, from the start and ever after. */
  lemma {:induction false} NothingOpenBetween(s: State, ops: seq<Op>)
    requires s.batch || s.open == None
    ensures Run(s, ops).batch || Run(s, ops).open == None
    decreases |ops|
  {
    hide FreeId;
    if ops != [] {
      NothingOpenBetween(Do(s, ops[0]), ops[1..]);
    }
  }
}
