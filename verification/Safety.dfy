/** What holds in every reachable state of two peers: calls are executed at most once, ids
    lead back to the promise of exactly the call that drew them, and a promise gets the
    value its own call returned. */
module Safety {
  import opened Wrappers
  import opened Bits
  import C = Codec
  import opened S = SessionModel
  import opened Protocol

  // ----- runs -----

  predicate Legal(net: Net, steps: seq<Step>)
    decreases |steps|
  {
    steps == [] || (Enabled(net, steps[0]) && Legal(Apply(net, steps[0]), steps[1..]))
  }

  function After(net: Net, steps: seq<Step>): Net
    requires Legal(net, steps)
    decreases |steps|
  {
    if steps == [] then net else After(Apply(net, steps[0]), steps[1..])
  }

  // ----- execution at most once -----

  /** The calls numbered below n. */
  function Made(n: nat): multiset<nat>
  {
    if n == 0 then multiset{} else Made(n - 1) + multiset{n - 1}
  }

  /** Requests under way in either direction. */
  function Transit(net: Net): multiset<nat>
  {
    OutSum(net, true, Calls()) + OutSum(net, false, Calls())
  }

  /** Every call made is in exactly one place: on its way, executed, or dropped because
      the peer does not know its session, interface or method.  What a call returned is
      recorded only once it was executed. */
  ghost predicate Accounted(net: Net)
  {
    && Tidy(net)
    && Transit(net) + (net.served + net.dropped) == Made(net.next)
    && forall call :: call in net.results ==> call in net.served
  }

  lemma {:induction false} MadeOnce(n: nat, call: nat)
    ensures Made(n)[call] == if call < n then 1 else 0
  {
    if n > 0 {
      MadeOnce(n - 1, call);
    }
  }

  lemma AccountedInit(voids: set<(byte, byte)>)
    ensures Accounted(Init(voids))
  {
    var net := Init(voids);
    forall c
      ensures TidyPeer(net.peers.At(c))
    {
    }
  }

  /** ... with no bound on anything. */
  lemma AccountedStep(net: Net, step: Step)
    requires Accounted(net) && Enabled(net, step)
    ensures Accounted(Apply(net, step))
  {
    hide Apply, Transit, Tidy, Enabled, HandledCall;
    TidyStep(net, step);
    TransitStep(net, step);
    Ledger(net, step);
    var net' := Apply(net, step);
    Books(Transit(net), Transit(net'), net.served + net.dropped, net'.served + net'.dropped,
          HandledCall(net, step), if step.Invoke? then multiset{net.next} else multiset{});
  }

  lemma Books<T>(t: multiset<T>, t': multiset<T>, b: multiset<T>, b': multiset<T>, out: multiset<T>, more: multiset<T>)
    requires t' + out == t + more && b' == b + out
    ensures t' + b' == t + b + more
  {
    assert t' + b' == b + (t' + out);
  }

  /** What a step does to the books. */
  lemma Ledger(net: Net, step: Step)
    requires Tidy(net) && Enabled(net, step)
    requires forall call :: call in net.results ==> call in net.served
    ensures var net' := Apply(net, step);
            && net'.next == net.next + (if step.Invoke? then 1 else 0)
            && net'.served + net'.dropped == net.served + net.dropped + HandledCall(net, step)
            && forall call :: call in net'.results ==> call in net'.served
  {
    hide Replies, Request, OutSum;
  }

  function HandledCall(net: Net, step: Step): multiset<nat>
    requires Enabled(net, step)
  {
    if step.Handle? then Calls()(net.peers.At(step.x).todo[0]) else multiset{}
  }

  lemma TransitStep(net: Net, step: Step)
    requires Tidy(net) && Enabled(net, step)
    ensures Transit(Apply(net, step)) + HandledCall(net, step)
         == Transit(net) + if step.Invoke? then multiset{net.next} else multiset{}
  {
    hide OutSum, Apply, Enabled;
    var f, x := Calls(), step.x;
    StepSum(net, step, x, f);
    StepSum(net, step, !x, f);
    AddedCalls(net, step);
    RemovedSum(net, step, f);
    var net' := Apply(net, step);
    Collect(OutSum(net', x, f), OutSum(net', !x, f), OutSum(net, x, f), OutSum(net, !x, f),
            HandledCall(net, step), if step.Invoke? then multiset{net.next} else multiset{});
  }

  lemma Collect<T>(a': multiset<T>, b': multiset<T>, a: multiset<T>, b: multiset<T>, out: multiset<T>, more: multiset<T>)
    requires a' == a + more && b' + out == b
    ensures (a' + b') + out == (a + b) + more
    ensures (b' + a') + out == (b + a) + more
  {
    assert (a' + b') + out == a' + (b' + out);
  }

  lemma AddedCalls(net: Net, step: Step)
    requires Enabled(net, step)
    ensures Sum(Added(net, step, step.x), Calls()) == if step.Invoke? then multiset{net.next} else multiset{}
    ensures Added(net, step, !step.x) == [] && Removed(net, step, step.x) == []
  {
    var ps := Added(net, step, step.x);
    if ps != [] {
      SumOne(ps[0], Calls());
      assert ps == [ps[0]];
    }
  }

  lemma RemovedSum<T>(net: Net, step: Step, f: Sent -> multiset<T>)
    requires Enabled(net, step)
    ensures Sum(Removed(net, step, !step.x), f)
         == if step.Handle? then f(net.peers.At(step.x).todo[0]) else multiset{}
  {
    if step.Handle? {
      SumOne(net.peers.At(step.x).todo[0], f);
    }
  }

  /** In every reachable state no call was executed twice, none both executed and dropped,
      and none that is still on its way was either. */
  lemma {:induction false} ExecutedAtMostOnce(net: Net, steps: seq<Step>, call: nat)
    requires Accounted(net) && Legal(net, steps)
    ensures Accounted(After(net, steps))
    ensures var n := After(net, steps);
            n.served[call] + n.dropped[call] + Transit(n)[call] == if call < n.next then 1 else 0
    decreases |steps|
  {
    if steps == [] {
      MadeOnce(net.next, call);
      assert (Transit(net) + (net.served + net.dropped))[call] == Made(net.next)[call];
    } else {
      AccountedStep(net, steps[0]);
      ExecutedAtMostOnce(Apply(net, steps[0]), steps[1..], call);
    }
  }

  // ----- the right promise -----

  function SessionsOf(net: Net, c: Side): seq<State>
  {
    net.peers.At(c).sessions
  }

  function WaitingOf(net: Net, c: Side): set<Tag>
  {
    Waiting(SessionsOf(net, c))
  }

  /** Every waiting promise of side c is accounted for, once, by a packet under way or by a
      request that the other side dropped; and there is nothing else under way. */
  ghost predicate Matched(net: Net, c: Side)
  {
    && Sids(SessionsOf(net, c))
    && (forall t | t in WaitingOf(net, c) :: t.sid < IDS)
    && Flight(net, c) + net.lost.At(c) == multiset(WaitingOf(net, c))
  }

  /** The number of a session is its position in eight bits. */
  ghost predicate Sids(ss: seq<State>)
  {
    forall k | 0 <= k < |ss| :: ss[k].sid == k % IDS
  }

  /** No call waits twice, and none waits that was answered. */
  ghost predicate Distinct(net: Net)
  {
    && (forall c, t | t in WaitingOf(net, c) :: t.call < net.next)
    && (forall c, t, d, u | t in WaitingOf(net, c) && u in WaitingOf(net, d) && t.call == u.call :: c == d && t == u)
    && (forall c, t, i | t in WaitingOf(net, c) && 0 <= i < |net.done| :: net.done[i].promise != t.call)
  }

  /** Each promise was set once, by the response to its own call. */
  ghost predicate Fulfilled(net: Net)
  {
    && (forall i | 0 <= i < |net.done| :: net.done[i].promise == net.done[i].origin < net.next)
    && (forall i, j | 0 <= i < j < |net.done| :: net.done[i].promise != net.done[j].promise)
  }

  ghost predicate Inv(net: Net)
  {
    Tidy(net) && Matched(net, true) && Matched(net, false) && Distinct(net) && Fulfilled(net)
  }

  /** What a caller can check before a step: a call that expects a result is made in one of
      the first 256 sessions, while fewer than 256 calls wait there.  Sessions can be made
      without end. */
  predicate Within(net: Net, step: Step)
    requires Enabled(net, step)
  {
    match step
    case Invoke(x, k, iid, mid, _, _) => (iid, mid) in net.voids || (k < IDS && |SessionsOf(net, x)[k].wait| < IDS)
    case _ => true
  }

  lemma InvInit(voids: set<(byte, byte)>)
    ensures Inv(Init(voids))
  {
    var net := Init(voids);
    AccountedInit(voids);
    assert WaitingOf(net, true) == {} && WaitingOf(net, false) == {};
  }

  /** The tag that an invocation registers. */
  function NewTag(net: Net, x: Side, k: nat): Tag
    requires k < |SessionsOf(net, x)|
  {
    Tag(SessionsOf(net, x)[k].sid, FreeId(SessionsOf(net, x)[k].wait.Keys), net.next)
  }

  function Asked(net: Net, step: Step): multiset<Tag>
    requires Enabled(net, step)
  {
    match step
    case Invoke(x, k, iid, mid, _, _) => if (iid, mid) in net.voids then multiset{} else multiset{NewTag(net, x, k)}
    case _ => multiset{}
  }

  /** The waiting promise a handled packet answers, if it is a response. */
  function Answered(net: Net, step: Step): multiset<Tag>
    requires Enabled(net, step)
  {
    if step.Handle? then Replied()(net.peers.At(step.x).todo[0]) else multiset{}
  }

  /** The request a handled packet makes the peer drop, if it is one. */
  function Dropped(net: Net, step: Step): multiset<Tag>
    requires Enabled(net, step)
  {
    if step.Handle? && !Known(net.peers.At(step.x), net.peers.At(step.x).todo[0].packet.header)
    then Asks(net.voids)(net.peers.At(step.x).todo[0]) else multiset{}
  }

  lemma AddedTags(net: Net, step: Step)
    requires Enabled(net, step)
    ensures Sum(Added(net, step, step.x), Asks(net.voids)) == Asked(net, step)
    ensures Sum(Removed(net, step, !step.x), Asks(net.voids))
         == Dropped(net, step) + Sum(Added(net, step, step.x), Replied())
    ensures Sum(Removed(net, step, !step.x), Replied()) == Answered(net, step)
  {
    if step.Handle? {
      HandledTags(net, step.x, step.result);
    } else if step.Invoke? {
      var ps := Added(net, step, step.x);
      assert ps == [ps[0]];
      SumOne(ps[0], Asks(net.voids));
      SumOne(ps[0], Replied());
    }
  }

  lemma HandledTags(net: Net, x: Side, result: seq<byte>)
    requires Enabled(net, Handle(x, result))
    ensures var p := net.peers.At(x).todo[0];
            var rs := Replies(net, x, p, result);
            && Sum(rs, Asks(net.voids)) == multiset{}
            && Asks(net.voids)(p) == Dropped(net, Handle(x, result)) + Sum(rs, Replied())
            && Sum([p], Asks(net.voids)) == Asks(net.voids)(p)
            && Sum([p], Replied()) == Replied()(p)
  {
    var p := net.peers.At(x).todo[0];
    SumOne(p, Asks(net.voids));
    SumOne(p, Replied());
    SumOne(ResponseTo(p, result), Asks(net.voids));
    SumOne(ResponseTo(p, result), Replied());
  }

  /** A step changes what is under way by what it asks, answers and drops. */
  lemma FlightStep(net: Net, step: Step)
    requires Tidy(net) && Enabled(net, step)
    ensures Flight(Apply(net, step), step.x) + Answered(net, step) == Flight(net, step.x) + Asked(net, step)
    ensures Flight(Apply(net, step), !step.x) + Dropped(net, step) == Flight(net, !step.x)
  {
    hide OutSum, Apply, Enabled, Added, Removed, Asks, Replied, Dropped, Asked, Sum;
    var f, g, x := Asks(net.voids), Replied(), step.x;
    StepSum(net, step, x, f);
    StepSum(net, step, !x, f);
    StepSum(net, step, x, g);
    StepSum(net, step, !x, g);
    AddedTags(net, step);
    NothingElse(net, step, f);
    NothingElse(net, step, g);
    SameVoids(net, step);
    var net' := Apply(net, step);
    var reply := Sum(Added(net, step, x), g);
    Collect(OutSum(net', x, f), OutSum(net', !x, g), OutSum(net, x, f), OutSum(net, !x, g),
            Answered(net, step), Asked(net, step));
    Handover(OutSum(net', !x, f), OutSum(net', x, g), OutSum(net, !x, f), OutSum(net, x, g), Dropped(net, step), reply);
  }

  lemma Handover<T>(a': multiset<T>, b': multiset<T>, a: multiset<T>, b: multiset<T>, out: multiset<T>, over: multiset<T>)
    requires a' + (out + over) == a && b' == b + over
    ensures (a' + b') + out == a + b
  {
    assert (a' + b') + out == (a' + (out + over)) + b;
  }

  lemma NothingElse<T>(net: Net, step: Step, f: Sent -> multiset<T>)
    requires Enabled(net, step)
    ensures Sum(Added(net, step, !step.x), f) == multiset{}
    ensures Sum(Removed(net, step, step.x), f) == multiset{}
  {
  }

  lemma SameVoids(net: Net, step: Step)
    requires Enabled(net, step)
    ensures Apply(net, step).voids == net.voids
  {
    hide Replies, Request;
  }

  lemma WaitSame(ss: seq<State>, k: nat, s: State)
    requires k < |ss| && s.wait == ss[k].wait
    ensures Waiting(ss[k := s]) == Waiting(ss)
  {
    forall t
      ensures t in Waiting(ss[k := s]) <==> t in Waiting(ss)
    {
      WaitingMeans(ss, t);
      WaitingMeans(ss[k := s], t);
    }
  }

  lemma WaitingMeans(ss: seq<State>, t: Tag)
    ensures t in Waiting(ss) <==> 0 <= t.sid < |ss| && t.oid in ss[t.sid].wait && ss[t.sid].wait[t.oid] == t.call
  {
  }

  lemma WaitAdd(ss: seq<State>, k: nat, s: State, oid: byte, call: nat)
    requires k < |ss| && oid !in ss[k].wait && s.wait == ss[k].wait[oid := call]
    ensures Tag(k, oid, call) !in Waiting(ss)
    ensures Waiting(ss[k := s]) == Waiting(ss) + {Tag(k, oid, call)}
  {
    WaitingMeans(ss, Tag(k, oid, call));
    forall t
      ensures t in Waiting(ss[k := s]) <==> t in Waiting(ss) + {Tag(k, oid, call)}
    {
      WaitingMeans(ss, t);
      WaitingMeans(ss[k := s], t);
    }
  }

  lemma WaitRemove(ss: seq<State>, k: nat, s: State, oid: byte)
    requires k < |ss| && oid in ss[k].wait && s.wait == ss[k].wait - {oid}
    ensures Waiting(ss[k := s]) == Waiting(ss) - {Tag(k, oid, ss[k].wait[oid])}
  {
    forall t
      ensures t in Waiting(ss[k := s]) <==> t in Waiting(ss) - {Tag(k, oid, ss[k].wait[oid])}
    {
      WaitingMeans(ss, t);
      WaitingMeans(ss[k := s], t);
    }
  }

  lemma WaitMake(ss: seq<State>, s: State)
    requires s.wait == map[]
    ensures Waiting(ss + [s]) == Waiting(ss)
  {
    forall t
      ensures t in Waiting(ss + [s]) <==> t in Waiting(ss)
    {
      WaitingMeans(ss, t);
      WaitingMeans(ss + [s], t);
    }
  }

  /** The set of promises that wait changes by what is registered and what is answered. */
  lemma InvokeWaiting(net: Net, x: Side, k: nat, iid: byte, mid: byte, arity: byte, body: seq<byte>)
    requires k < |SessionsOf(net, x)|
    ensures var net' := Apply(net, Invoke(x, k, iid, mid, arity, body));
            var s := SessionsOf(net, x)[k];
            && WaitingOf(net', !x) == WaitingOf(net, !x)
            && (((iid, mid) in net.voids || |s.wait| >= IDS) ==> WaitingOf(net', x) == WaitingOf(net, x))
            && (((iid, mid) !in net.voids && |s.wait| < IDS) ==>
                  && Tag(k, FreeId(s.wait.Keys), net.next) !in WaitingOf(net, x)
                  && WaitingOf(net', x) == WaitingOf(net, x) + {Tag(k, FreeId(s.wait.Keys), net.next)})
  {
    var ss := SessionsOf(net, x);
    var s := ss[k];
    FreeIdMeaning(s.wait.Keys);
    var s' := Request(s, (iid, mid) in net.voids, iid, mid, arity, body, net.next).(outbox := []);
    if (iid, mid) in net.voids || |s.wait| >= IDS {
      WaitSame(ss, k, s');
    } else {
      WaitAdd(ss, k, s', FreeId(s.wait.Keys), net.next);
    }
  }

  /** Steps other than calls and handled packets register and answer nothing. */
  lemma QuietWaiting(net: Net, step: Step)
    requires Enabled(net, step) && !step.Invoke? && !step.Handle?
    ensures forall c :: WaitingOf(Apply(net, step), c) == WaitingOf(net, c)
  {
    var x := step.x;
    var ss := SessionsOf(net, x);
    match step
    case MakeSession(_) => WaitMake(ss, State.State(|ss| % IDS, false, None, map[], []));
    case StartBatch(_, k) => WaitSame(ss, k, BeginBatch(ss[k]).(outbox := []));
    case StopBatch(_, k) => WaitSame(ss, k, EndBatch(ss[k]).(outbox := []));
    case _ =>
  }

  /** A response under way names the promise of its own call: handling it sets exactly
      that promise and frees its id. */
  lemma HandleWaiting(net: Net, x: Side, result: seq<byte>)
    requires Inv(net) && Enabled(net, Handle(x, result))
    ensures var net' := HandlePacket(net, x, result);
            var p := net.peers.At(x).todo[0];
            && WaitingOf(net', !x) == WaitingOf(net, !x)
            && (p.packet.header.dir == C.RESPONSE ==>
                  && TagOf(p) in WaitingOf(net, x)
                  && WaitingOf(net', x) == WaitingOf(net, x) - {TagOf(p)}
                  && net'.done == net.done + [Fulfilment(p.call, p.call, p.packet.body)])
            && (p.packet.header.dir != C.RESPONSE ==>
                  WaitingOf(net', x) == WaitingOf(net, x) && net'.done == net.done)
  {
    hide HandlePacket, Inv, Waiting;
    if net.peers.At(x).todo[0].packet.header.dir == C.RESPONSE {
      RepliedIsWaiting(net, x, result);
      ResponseWaiting(net, x, result);
    } else {
      RequestWaiting(net, x, result);
    }
  }

  lemma RequestWaiting(net: Net, x: Side, result: seq<byte>)
    requires Enabled(net, Handle(x, result)) && net.peers.At(x).todo[0].packet.header.dir != C.RESPONSE
    ensures var net' := HandlePacket(net, x, result);
            && net'.done == net.done
            && SessionsOf(net', x) == SessionsOf(net, x) && SessionsOf(net', !x) == SessionsOf(net, !x)
  {
    hide Replies, Known;
  }

  lemma ResponseWaiting(net: Net, x: Side, result: seq<byte>)
    requires Enabled(net, Handle(x, result)) && net.peers.At(x).todo[0].packet.header.dir == C.RESPONSE
    requires TagOf(net.peers.At(x).todo[0]) in WaitingOf(net, x)
    ensures var net' := HandlePacket(net, x, result);
            var p := net.peers.At(x).todo[0];
            && WaitingOf(net', !x) == WaitingOf(net, !x)
            && WaitingOf(net', x) == WaitingOf(net, x) - {TagOf(p)}
            && net'.done == net.done + [Fulfilment(p.call, p.call, p.packet.body)]
  {
    hide Replies, Known, Waiting;
    var ss := SessionsOf(net, x);
    var p := net.peers.At(x).todo[0];
    var k, oid := p.packet.header.sessionId, p.packet.header.operationId;
    WaitingMeans(ss, TagOf(p));
    WaitRemove(ss, k, Respond(ss[k], oid).1, oid);
  }

  lemma RepliedIsWaiting(net: Net, x: Side, result: seq<byte>)
    requires Inv(net) && Enabled(net, Handle(x, result))
    requires net.peers.At(x).todo[0].packet.header.dir == C.RESPONSE
    ensures TagOf(net.peers.At(x).todo[0]) in WaitingOf(net, x)
  {
    hide Apply, HandlePacket, Asks, Waiting;
    var step, t := Handle(x, result), TagOf(net.peers.At(x).todo[0]);
    FlightStep(net, step);
    assert Answered(net, step) == multiset{t} && Asked(net, step) == multiset{};
    assert t in Flight(net, x) + Asked(net, step);
    assert Matched(net, x);
    assert t in Flight(net, x) + net.lost.At(x);
  }

  // ----- every step keeps it -----

  lemma SidsStep(net: Net, step: Step, c: Side)
    requires Enabled(net, step) && Sids(SessionsOf(net, c))
    ensures Sids(SessionsOf(Apply(net, step), c))
  {
    SameSids(net, step, c);
  }

  lemma SameSids(net: Net, step: Step, c: Side)
    requires Enabled(net, step)
    ensures var ss, ss' := SessionsOf(net, c), SessionsOf(Apply(net, step), c);
            && |ss'| == |ss| + (if step.MakeSession? && step.x == c then 1 else 0)
            && (forall k | 0 <= k < |ss| :: ss'[k].sid == ss[k].sid)
            && (|ss'| > |ss| ==> ss'[|ss|].sid == |ss| % IDS)
  {
    hide Replies, RequestPacket, FreeId, Known, HandlePacket, Request;
    match step
    case Invoke(x, k, iid, mid, arity, body) =>
      assert Request(SessionsOf(net, x)[k], (iid, mid) in net.voids, iid, mid, arity, body, net.next).sid == SessionsOf(net, x)[k].sid by {
        RequestSid(SessionsOf(net, x)[k], (iid, mid) in net.voids, iid, mid, arity, body, net.next);
      }
    case Handle(x, result) => HandleSids(net, x, result, c);
    case _ =>
  }

  lemma RequestSid(s: State, void: bool, iid: byte, mid: byte, arity: byte, body: seq<byte>, call: nat)
    ensures Request(s, void, iid, mid, arity, body, call).sid == s.sid
  {
  }

  lemma HandleSids(net: Net, x: Side, result: seq<byte>, c: Side)
    requires Enabled(net, Handle(x, result))
    ensures var ss, ss' := SessionsOf(net, c), SessionsOf(HandlePacket(net, x, result), c);
            |ss'| == |ss| && forall k | 0 <= k < |ss| :: ss'[k].sid == ss[k].sid
  {
    hide Replies, Known;
  }

  lemma LostStep(net: Net, step: Step)
    requires Enabled(net, step)
    ensures Apply(net, step).lost.At(step.x) == net.lost.At(step.x)
    ensures Apply(net, step).lost.At(!step.x) == net.lost.At(!step.x) + Dropped(net, step)
  {
    hide Replies, Request;
  }

  /** What registers and what is answered, side by side with what is asked and answered. */
  lemma WaitingStep(net: Net, step: Step)
    requires Inv(net) && Enabled(net, step)
    ensures WaitingOf(Apply(net, step), !step.x) == WaitingOf(net, !step.x)
    ensures Within(net, step) ==>
              multiset(WaitingOf(Apply(net, step), step.x)) + Answered(net, step)
              == multiset(WaitingOf(net, step.x)) + Asked(net, step)
  {
    hide Apply, Waiting, Inv, FreeId;
    match step
    case Invoke(x, k, iid, mid, arity, body) =>
      InvSids(net, x);
      InvokeWaiting(net, x, k, iid, mid, arity, body);
    case Handle(x, result) =>
      HandleApplies(net, x, result);
      HandleWaiting(net, x, result);
    case _ =>
      QuietWaiting(net, step);
  }

  lemma InvSids(net: Net, c: Side)
    requires Inv(net)
    ensures Sids(SessionsOf(net, c))
  {
    assert Matched(net, c);
  }

  lemma HandleApplies(net: Net, x: Side, result: seq<byte>)
    requires Enabled(net, Handle(x, result))
    ensures Apply(net, Handle(x, result)) == HandlePacket(net, x, result)
  {
  }

  lemma MatchedStep(net: Net, step: Step)
    requires Inv(net) && Enabled(net, step) && Within(net, step)
    ensures Matched(Apply(net, step), step.x) && Matched(Apply(net, step), !step.x)
  {
    hide Apply, Waiting, Flight, Asked, Answered, Dropped, Enabled;
    var x := step.x;
    assert Matched(net, x) && Matched(net, !x);
    InvSids(net, x);
    InvSids(net, !x);
    SidsStep(net, step, x);
    SidsStep(net, step, !x);
    FlightStep(net, step);
    LostStep(net, step);
    WaitingStep(net, step);
    var net' := Apply(net, step);
    AskedLow(net, step);
    assert forall t | t in WaitingOf(net', x) :: t in multiset(WaitingOf(net', x)) + Answered(net, step);
    Exchange(Flight(net, x), Flight(net', x), net.lost.At(x), multiset(WaitingOf(net, x)),
             multiset(WaitingOf(net', x)), Answered(net, step), Asked(net, step));
    assert Flight(net', !x) + (net.lost.At(!x) + Dropped(net, step)) == (Flight(net', !x) + Dropped(net, step)) + net.lost.At(!x);
  }

  lemma AskedLow(net: Net, step: Step)
    requires Enabled(net, step)
    ensures forall t | t in Asked(net, step) :: t.sid < IDS
  {
  }

  lemma Exchange<T>(f: multiset<T>, f': multiset<T>, l: multiset<T>, w: multiset<T>, w': multiset<T>, out: multiset<T>, more: multiset<T>)
    requires f' + out == f + more && w' + out == w + more && f + l == w
    ensures f' + l == w'
  {
    forall x
      ensures (f' + l)[x] == w'[x]
    {
      assert (f' + out)[x] == (f + more)[x] && (w' + out)[x] == (w + more)[x] && (f + l)[x] == w[x];
    }
  }

  /** Who waits after a step, and what was answered. */
  lemma BookStep(net: Net, step: Step)
    requires Inv(net) && Enabled(net, step) && Within(net, step)
    ensures var net', x := Apply(net, step), step.x;
            && WaitingOf(net', !x) == WaitingOf(net, !x)
            && net'.next == net.next + (if step.Invoke? then 1 else 0)
            && ((net'.done == net.done && WaitingOf(net', x) == WaitingOf(net, x))
                || (net'.done == net.done && step.Invoke?
                    && exists t: Tag :: t.call == net.next && WaitingOf(net', x) == WaitingOf(net, x) + {t})
                || exists t: Tag, v :: t in WaitingOf(net, x) && WaitingOf(net', x) == WaitingOf(net, x) - {t}
                                       && net'.done == net.done + [Fulfilment(t.call, t.call, v)])
  {
    hide Waiting, Inv, FreeId, HandlePacket, Request, Update;
    match step
    case Invoke(x, k, iid, mid, arity, body) =>
      InvokeWaiting(net, x, k, iid, mid, arity, body);
      UpdateKeeps(net, x, k, Request(SessionsOf(net, x)[k], (iid, mid) in net.voids, iid, mid, arity, body, net.next));
    case Handle(x, result) =>
      HandleWaiting(net, x, result);
      HandleKeepsNext(net, x, result);
    case StartBatch(x, k) =>
      QuietWaiting(net, step);
      UpdateKeeps(net, x, k, BeginBatch(SessionsOf(net, x)[k]));
    case StopBatch(x, k) =>
      QuietWaiting(net, step);
      UpdateKeeps(net, x, k, EndBatch(SessionsOf(net, x)[k]));
    case _ =>
      QuietWaiting(net, step);
  }

  lemma UpdateKeeps(net: Net, x: Side, k: nat, s: State)
    requires k < |SessionsOf(net, x)|
    ensures Update(net, x, k, s).next == net.next && Update(net, x, k, s).done == net.done
  {
  }

  lemma HandleKeepsNext(net: Net, x: Side, result: seq<byte>)
    requires Enabled(net, Handle(x, result))
    ensures HandlePacket(net, x, result).next == net.next
  {
    hide Replies, Known;
  }

  lemma DistinctStep(net: Net, step: Step)
    requires Inv(net) && Enabled(net, step) && Within(net, step)
    ensures Distinct(Apply(net, step)) && Fulfilled(Apply(net, step))
  {
    hide Apply, Waiting, Within, Matched, Tidy;
    BookStep(net, step);
    var net', x := Apply(net, step), step.x;
    if net'.done == net.done && WaitingOf(net', x) == WaitingOf(net, x) {
      KeepDistinct(net, net', x);
    } else if net'.done == net.done {
      var t: Tag :| t.call == net.next && WaitingOf(net', x) == WaitingOf(net, x) + {t};
      AddDistinct(net, net', x, t);
    } else {
      var t: Tag, v :| t in WaitingOf(net, x) && WaitingOf(net', x) == WaitingOf(net, x) - {t}
                       && net'.done == net.done + [Fulfilment(t.call, t.call, v)];
      MoveDistinct(net, net', x, t, v);
    }
  }

  lemma KeepDistinct(net: Net, net': Net, x: Side)
    requires Distinct(net) && Fulfilled(net) && net'.next >= net.next && net'.done == net.done
    requires WaitingOf(net', x) == WaitingOf(net, x) && WaitingOf(net', !x) == WaitingOf(net, !x)
    ensures Distinct(net') && Fulfilled(net')
  {
    hide WaitingOf;
    forall c: Side
      ensures WaitingOf(net', c) == WaitingOf(net, c)
    {
    }
  }

  lemma AddDistinct(net: Net, net': Net, x: Side, t: Tag)
    requires Distinct(net) && Fulfilled(net) && net'.next == net.next + 1 && net'.done == net.done
    requires WaitingOf(net', x) == WaitingOf(net, x) + {t} && WaitingOf(net', !x) == WaitingOf(net, !x)
    requires t.call == net.next
    ensures Distinct(net') && Fulfilled(net')
  {
    hide Waiting;
  }

  lemma MoveDistinct(net: Net, net': Net, x: Side, t: Tag, v: seq<byte>)
    requires Distinct(net) && Fulfilled(net) && net'.next >= net.next
    requires t in WaitingOf(net, x) && net'.done == net.done + [Fulfilment(t.call, t.call, v)]
    requires WaitingOf(net', x) == WaitingOf(net, x) - {t} && WaitingOf(net', !x) == WaitingOf(net, !x)
    ensures Distinct(net') && Fulfilled(net')
  {
    hide Waiting;
  }

  /** A step from a good state leads to a good state exactly when it stays within the
      8-bit ids. */
  lemma InvStep(net: Net, step: Step)
    requires Inv(net) && Enabled(net, step)
    ensures Inv(Apply(net, step)) <==> Within(net, step)
  {
    if Within(net, step) {
      TidyStep(net, step);
      MatchedStep(net, step);
      DistinctStep(net, step);
    } else {
      Overflow(net, step);
      if Inv(Apply(net, step)) {
        RightPromise(Apply(net, step), step.x, NewTag(net, step.x, step.k), NewTag(net, step.x, step.k));
      }
    }
  }

  /** The id of t leads, in its session, to the promise of the call of t. */
  ghost predicate Leads(net: Net, c: Side, t: Tag)
  {
    var ss := SessionsOf(net, c);
    0 <= t.sid < |ss| && t.oid in ss[t.sid].wait && ss[t.sid].wait[t.oid] == t.call
  }

  /** Beyond the ids a call that expects a result goes out under an id that does not lead to
      its promise: with all ids of the session taken the id leads to another call's. */
  lemma Overflow(net: Net, step: Step)
    requires Inv(net) && Enabled(net, step) && !Within(net, step)
    ensures step.Invoke? && NewTag(net, step.x, step.k) in Flight(Apply(net, step), step.x)
    ensures !Leads(Apply(net, step), step.x, NewTag(net, step.x, step.k))
    ensures step.k < IDS ==>
      var t, ss := NewTag(net, step.x, step.k), SessionsOf(Apply(net, step), step.x);
      0 <= t.sid < |ss| && t.oid in ss[t.sid].wait && ss[t.sid].wait[t.oid] != t.call
  {
    NewUnderWay(net, step);
    NewWaitsElsewhere(net, step);
    WaitingMeans(SessionsOf(Apply(net, step), step.x), NewTag(net, step.x, step.k));
    if step.k < IDS {
      var x, k := step.x, step.k;
      InvokeWaiting(net, x, k, step.iid, step.mid, step.arity, step.body);
      IdIsTaken(net, Apply(net, step), x, k);
    }
  }

  lemma NewWaitsElsewhere(net: Net, step: Step)
    requires Inv(net) && Enabled(net, step) && !Within(net, step)
    ensures NewTag(net, step.x, step.k) !in WaitingOf(Apply(net, step), step.x)
  {
    var x, k := step.x, step.k;
    InvokeWaiting(net, x, k, step.iid, step.mid, step.arity, step.body);
    assert Matched(net, x);
    hide Apply, Waiting, Flight, Tidy, FreeId;
    var t := NewTag(net, x, k);
    assert t !in WaitingOf(net, x) by {
      assert t.call == net.next;
    }
    assert t.sid == k % IDS;
  }

  /** All ids of the session taken: the promise the new id leads to is an older one. */
  lemma IdIsTaken(net: Net, net': Net, x: Side, k: nat)
    requires Inv(net) && k < |SessionsOf(net, x)| && k < IDS && |SessionsOf(net, x)[k].wait| >= IDS
    requires WaitingOf(net', x) == WaitingOf(net, x)
    ensures var t, ss := NewTag(net, x, k), SessionsOf(net', x);
      0 <= t.sid < |ss| && t.oid in ss[t.sid].wait && ss[t.sid].wait[t.oid] != t.call
  {
    var s := SessionsOf(net, x)[k];
    assert s.sid == k by {
      InvSids(net, x);
      SidIsPosition(SessionsOf(net, x), k);
    }
    FreeIdMeaning(s.wait.Keys);
    hide Waiting, FreeId, Sids, Matched, Tidy, Fulfilled;
    OlderPromise(SessionsOf(net, x), SessionsOf(net', x), k, FreeId(s.wait.Keys), net.next);
  }

  lemma SidIsPosition(ss: seq<State>, k: nat)
    requires Sids(ss) && k < |ss| && k < IDS
    ensures ss[k].sid == k
  {
  }

  lemma OlderPromise(ss: seq<State>, ss': seq<State>, k: nat, oid: byte, next: nat)
    requires Waiting(ss') == Waiting(ss) && k < |ss| && oid in ss[k].wait
    requires forall t | t in Waiting(ss) :: t.call < next
    ensures k < |ss'| && oid in ss'[k].wait && ss'[k].wait[oid] < next
  {
    hide Waiting;
    var u := Tag(k, oid, ss[k].wait[oid]);
    WaitingMeans(ss, u);
    WaitingMeans(ss', u);
  }

  lemma NewUnderWay(net: Net, step: Step)
    requires Tidy(net) && Enabled(net, step) && step.Invoke? && (step.iid, step.mid) !in net.voids
    ensures NewTag(net, step.x, step.k) in Flight(Apply(net, step), step.x)
  {
    FlightStep(net, step);
    hide Apply, Flight, FreeId;
    var t := NewTag(net, step.x, step.k);
    assert t in Flight(net, step.x) + Asked(net, step);
    assert Answered(net, step) == multiset{};
  }

  /** What a good state means for a packet under way that belongs to a call expecting a
      result: its id leads to the promise of that very call, and no other such packet of
      the session has the id. */
  lemma RightPromise(net: Net, c: Side, t: Tag, u: Tag)
    requires Inv(net) && t in Flight(net, c)
    ensures Leads(net, c, t) && Flight(net, c)[t] == 1
    ensures u in Flight(net, c) && u.sid == t.sid && u.oid == t.oid ==> u == t
  {
    assert Matched(net, c);
    var w := multiset(WaitingOf(net, c));
    assert (Flight(net, c) + net.lost.At(c))[t] == w[t];
    assert (Flight(net, c) + net.lost.At(c))[u] == w[u];
    WaitingMeans(SessionsOf(net, c), t);
    WaitingMeans(SessionsOf(net, c), u);
  }

  // ----- the right value -----

  /** A response whose value is not what its call returned. */
  function Wrong(results: map<nat, seq<byte>>): Sent -> multiset<nat>
  {
    (p: Sent) =>
      if p.packet.header.dir == C.RESPONSE && !(p.call in results && results[p.call] == p.packet.body)
      then multiset{p.call} else multiset{}
  }

  /** No response under way is wrong, and every promise set has the value that its call
      returned. */
  ghost predicate Truthful(net: Net)
  {
    && (forall c :: OutSum(net, c, Wrong(net.results)) == multiset{})
    && forall i | 0 <= i < |net.done| ::
         net.done[i].origin in net.results && net.results[net.done[i].origin] == net.done[i].value
  }

  predicate Grows(r: map<nat, seq<byte>>, r': map<nat, seq<byte>>)
  {
    forall call | call in r :: call in r' && r'[call] == r[call]
  }

  lemma WrongOut(net: Net, c: Side, r: map<nat, seq<byte>>, r': map<nat, seq<byte>>)
    requires Grows(r, r') && OutSum(net, c, Wrong(r)) == multiset{}
    ensures OutSum(net, c, Wrong(r')) == multiset{}
  {
    hide OutSum;
    NoneOut(net, c, Wrong(r), Wrong(r'));
  }

  /** A call is executed at most once, so what it returned is never overwritten. */
  lemma ResultsGrow(net: Net, step: Step)
    requires Accounted(net) && Enabled(net, step)
    ensures Grows(net.results, Apply(net, step).results)
  {
    if step.Handle? {
      var p := net.peers.At(step.x).todo[0];
      if p.packet.header.dir == C.REQUEST {
        NotServed(net, step);
      }
      HandleResults(net, step.x, step.result);
    } else {
      DoneSame(net, step);
    }
  }

  lemma NotServed(net: Net, step: Step)
    requires Accounted(net) && Enabled(net, step) && step.Handle?
    requires net.peers.At(step.x).todo[0].packet.header.dir == C.REQUEST
    ensures net.peers.At(step.x).todo[0].call !in net.served
  {
    hide Transit, Apply;
    var call := net.peers.At(step.x).todo[0].call;
    TransitStep(net, step);
    assert HandledCall(net, step) == multiset{call};
    Positive(Transit(Apply(net, step)), Transit(net), call);
    MadeOnce(net.next, call);
    assert (Transit(net) + (net.served + net.dropped))[call] == Made(net.next)[call];
  }

  lemma Positive<T>(a: multiset<T>, b: multiset<T>, x: T)
    requires a + multiset{x} == b + multiset{}
    ensures b[x] >= 1
  {
    assert (a + multiset{x})[x] == (b + multiset{})[x];
  }

  lemma HandleResults(net: Net, x: Side, result: seq<byte>)
    requires Enabled(net, Handle(x, result))
    ensures var p := net.peers.At(x).todo[0];
            && (p.packet.header.dir == C.REQUEST && p.call !in net.results ==>
                  Grows(net.results, HandlePacket(net, x, result).results))
            && (p.packet.header.dir != C.REQUEST ==> HandlePacket(net, x, result).results == net.results)
  {
    hide Replies, Known;
  }

  /** What is added to the way out is never wrong. */
  lemma AddedTrue(net: Net, step: Step, c: Side)
    requires Enabled(net, step)
    ensures Sum(Added(net, step, c), Wrong(Apply(net, step).results)) == multiset{}
  {
    hide Update, FreeId;
    var ps, f := Added(net, step, c), Wrong(Apply(net, step).results);
    if ps != [] {
      assert ps == [ps[0]];
      SumOne(ps[0], f);
    }
  }

  lemma TruthfulStep(net: Net, step: Step)
    requires Inv(net) && Accounted(net) && Truthful(net) && Enabled(net, step)
    ensures Truthful(Apply(net, step))
  {
    hide OutSum, Apply, Wrong, Added, Removed, Inv, Accounted, Enabled;
    ResultsGrow(net, step);
    var net' := Apply(net, step);
    var f := Wrong(net'.results);
    InvTidy(net);
    forall c
      ensures OutSum(net', c, f) == multiset{}
    {
      StepSum(net, step, c, f);
      AddedTrue(net, step, c);
      WrongOut(net, c, net.results, net'.results);
      NothingIn(OutSum(net', c, f), Sum(Removed(net, step, c), f), OutSum(net, c, f), Sum(Added(net, step, c), f));
    }
    DoneTrue(net, step);
  }

  lemma NothingIn<T>(a: multiset<T>, b: multiset<T>, c: multiset<T>, d: multiset<T>)
    requires a + b == c + d && c == multiset{} && d == multiset{}
    ensures a == multiset{}
  {
    assert a <= a + b;
  }

  lemma InvTidy(net: Net)
    requires Inv(net)
    ensures Tidy(net)
  {
  }

  lemma DoneTrue(net: Net, step: Step)
    requires Inv(net) && Truthful(net) && Enabled(net, step)
    requires Grows(net.results, Apply(net, step).results)
    ensures var net' := Apply(net, step);
            forall i | 0 <= i < |net'.done| ::
              net'.done[i].origin in net'.results && net'.results[net'.done[i].origin] == net'.done[i].value
  {
    hide OutSum, Inv, HandlePacket, Request, FreeId, Update;
    if step.Handle? {
      HandleWaiting(net, step.x, step.result);
      var p := net.peers.At(step.x).todo[0];
      if p.packet.header.dir == C.RESPONSE {
        HandledTrue(net, step.x);
      }
    } else {
      DoneSame(net, step);
    }
  }

  lemma DoneSame(net: Net, step: Step)
    requires Enabled(net, step) && !step.Handle?
    ensures Apply(net, step).done == net.done && Apply(net, step).results == net.results
  {
    hide Request, FreeId;
  }

  lemma HandledTrue(net: Net, x: Side)
    requires Truthful(net) && net.peers.At(x).todo != []
    ensures Wrong(net.results)(net.peers.At(x).todo[0]) == multiset{}
  {
    hide Wrong, PackageSum, OpenSum;
    var f := Wrong(net.results);
    assert f(net.peers.At(x).todo[0]) <= Sum(net.peers.At(x).todo, f);
    assert Sum(net.peers.At(x).todo, f) <= OutSum(net, !x, f);
    assert OutSum(net, !x, f) == multiset{};
  }

  ghost predicate Answers(n: Net)
  {
    && (forall i, j | 0 <= i < j < |n.done| :: n.done[i].promise != n.done[j].promise)
    && forall i | 0 <= i < |n.done| ::
         && n.done[i].promise == n.done[i].origin
         && n.done[i].origin in n.results && n.results[n.done[i].origin] == n.done[i].value
         && n.served[n.done[i].origin] == 1
  }

  lemma GoodAnswers(net: Net)
    requires Inv(net) && Accounted(net) && Truthful(net)
    ensures Answers(net)
  {
    hide OutSum, Transit, Tidy, Matched, Distinct;
    forall i | 0 <= i < |net.done|
      ensures net.served[net.done[i].origin] == 1
    {
      var call := net.done[i].origin;
      assert call in net.results && call in net.served;
      MadeOnce(net.next, call);
      assert (Transit(net) + (net.served + net.dropped))[call] == Made(net.next)[call];
    }
  }

  // ----- every run -----

  /** For every packet under way that belongs to a call expecting a result, the id leads to
      the promise of that very call, and no other such packet of the session has the id. */
  ghost predicate RightPromises(net: Net, c: Side)
  {
    && (forall t | t in Flight(net, c) :: Leads(net, c, t) && Flight(net, c)[t] == 1)
    && forall t, u | t in Flight(net, c) && u in Flight(net, c) && t.sid == u.sid && t.oid == u.oid :: t == u
  }

  /** What callers see: every response finds the promise of its own call, and every promise
      set so far was set once, by its own call, to what that call returned. */
  ghost predicate Correct(net: Net)
  {
    RightPromises(net, true) && RightPromises(net, false) && Answers(net)
  }

  ghost predicate CorrectAlong(net: Net, steps: seq<Step>)
    requires Legal(net, steps)
    decreases |steps|
  {
    Correct(net) && (steps == [] || CorrectAlong(Apply(net, steps[0]), steps[1..]))
  }

  predicate WithinAlong(net: Net, steps: seq<Step>)
    requires Legal(net, steps)
    decreases |steps|
  {
    steps == [] || (Within(net, steps[0]) && WithinAlong(Apply(net, steps[0]), steps[1..]))
  }

  lemma GoodIsCorrect(net: Net)
    requires Inv(net) && Accounted(net) && Truthful(net)
    ensures Correct(net)
  {
    GoodAnswers(net);
    PromisesAreRight(net, true);
    PromisesAreRight(net, false);
    hide Inv, Accounted, Truthful, Answers, RightPromises;
  }

  lemma PromisesAreRight(net: Net, c: Side)
    requires Inv(net)
    ensures RightPromises(net, c)
  {
    hide Inv, Flight, Leads;
    forall t | t in Flight(net, c)
      ensures Leads(net, c, t) && Flight(net, c)[t] == 1
    {
      RightPromise(net, c, t, t);
    }
    forall t, u | t in Flight(net, c) && u in Flight(net, c) && t.sid == u.sid && t.oid == u.oid
      ensures t == u
    {
      RightPromise(net, c, t, u);
    }
  }

  lemma OverflowIsWrong(net: Net, step: Step)
    requires Inv(net) && Enabled(net, step) && !Within(net, step)
    ensures !Correct(Apply(net, step))
  {
    Overflow(net, step);
    hide Apply, Inv, Within, Leads, Flight, Answers;
    assert step.x || !step.x;
  }

  /** Over every run of two peers, whatever is batched, dropped or delivered late: callers
      see the right thing in every state exactly when the run stays within the 8-bit ids. */
  lemma {:induction false} EveryRun(net: Net, steps: seq<Step>)
    requires Inv(net) && Accounted(net) && Truthful(net) && Legal(net, steps)
    ensures CorrectAlong(net, steps) <==> WithinAlong(net, steps)
    decreases |steps|
  {
    hide Inv, Accounted, Truthful, Correct, Within, Apply, Enabled;
    GoodIsCorrect(net);
    if steps != [] {
      if Within(net, steps[0]) {
        InvStep(net, steps[0]);
        AccountedStep(net, steps[0]);
        TruthfulStep(net, steps[0]);
        EveryRun(Apply(net, steps[0]), steps[1..]);
      } else {
        OverflowIsWrong(net, steps[0]);
      }
    }
  }

  /** Over every run within the 8-bit ids: every promise that is set is set once, by the
      response to its own call, to the value that the other side's method returned when it
      executed that call; and that call was executed once. */
  lemma {:induction false} EveryAnswer(net: Net, steps: seq<Step>)
    requires Inv(net) && Accounted(net) && Truthful(net) && Legal(net, steps) && WithinAlong(net, steps)
    ensures Inv(After(net, steps)) && Answers(After(net, steps))
    decreases |steps|
  {
    hide Inv, Accounted, Truthful, Within, Apply, Enabled, Answers;
    if steps == [] {
      GoodAnswers(net);
    } else {
      InvStep(net, steps[0]);
      AccountedStep(net, steps[0]);
      TruthfulStep(net, steps[0]);
      EveryAnswer(Apply(net, steps[0]), steps[1..]);
    }
  }

  /** The state two peers start from is good. */
  lemma Start(voids: set<(byte, byte)>)
    ensures Inv(Init(voids)) && Accounted(Init(voids)) && Truthful(Init(voids))
  {
    InvInit(voids);
    AccountedInit(voids);
    var net := Init(voids);
    forall c
      ensures OutSum(net, c, Wrong(net.results)) == multiset{}
    {
    }
  }

  /** Two peers that start with nothing. */
  lemma TwoPeers(voids: set<(byte, byte)>, steps: seq<Step>)
    requires Legal(Init(voids), steps)
    ensures CorrectAlong(Init(voids), steps) <==> WithinAlong(Init(voids), steps)
    ensures WithinAlong(Init(voids), steps) ==> Correct(After(Init(voids), steps))
  {
    hide Inv, Accounted, Truthful, Correct, After, CorrectAlong, WithinAlong;
    Start(voids);
    EveryRun(Init(voids), steps);
    if CorrectAlong(Init(voids), steps) {
      LastIsCorrect(Init(voids), steps);
    }
  }

  lemma {:induction false} LastIsCorrect(net: Net, steps: seq<Step>)
    requires Legal(net, steps) && CorrectAlong(net, steps)
    ensures Correct(After(net, steps))
    decreases |steps|
  {
    hide Correct, Apply, Enabled;
    if steps != [] {
      LastIsCorrect(Apply(net, steps[0]), steps[1..]);
    }
  }
}
