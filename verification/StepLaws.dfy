/** What each step of the two-peer system does, in the terms of sessions, packets and
    packages. */
module StepLaws {
  import opened Wrappers
  import opened Bits
  import C = Codec
  import F = Framing
  import opened S = SessionModel
  import opened Protocol

  /** The operation of a session that a step performs. */
  function OpOf(net: Net, step: Step): Op
    requires step.Invoke? || step.StartBatch? || step.StopBatch?
  {
    match step
    case Invoke(_, _, iid, mid, arity, body) => Call((iid, mid) in net.voids, iid, mid, arity, body, net.next)
    case StartBatch(_, _) => Begin
    case StopBatch(_, _) => End
  }

  /** A step of a session is its operation; what it sends is on the wire, in order, behind
      what was; no other session of either side changes. */
  lemma SessionStep(net: Net, step: Step)
    requires Tidy(net) && Enabled(net, step) && (step.Invoke? || step.StartBatch? || step.StopBatch?)
    ensures var net', x, k := Apply(net, step), step.x, step.k;
      var s := Do(net.peers.At(x).sessions[k], OpOf(net, step));
      && net'.peers.At(x) == net.peers.At(x).(sessions := net.peers.At(x).sessions[k := s.(outbox := [])])
      && net'.peers.At(!x) == net.peers.At(!x)
      && net'.wires.At(!x) == net.wires.At(!x) + s.outbox && net'.wires.At(x) == net.wires.At(x)
      && net'.next == net.next + if step.Invoke? then 1 else 0
  {
    assert TidyPeer(net.peers.At(step.x));
    hide Request, FreeId;
  }

  /** A new session takes its position as its number, in eight bits, with nothing waiting,
      open or bound. */
  lemma MakeSessionStep(net: Net, x: Side)
    ensures var net', p := Apply(net, MakeSession(x)), net.peers.At(x);
      && net'.peers.At(x) == p.(
           sessions := p.sessions + [State.State(|p.sessions| % 256, false, None, map[], [])],
           bound := p.bound + [map[]])
      && net'.peers.At(!x) == net.peers.At(!x) && net'.wires == net.wires
  {
  }

  /** A request: known, its call is executed, and unless the method is void the answer goes
      into the reply, with direction 2 and the session and operation id of the request;
      unknown, it is dropped. */
  lemma RequestStep(net: Net, x: Side, result: seq<byte>)
    requires Tidy(net) && Enabled(net, Handle(x, result)) && net.peers.At(x).todo[0].packet.header.dir == 1
    ensures var net', peer, p := Apply(net, Handle(x, result)), net.peers.At(x), net.peers.At(x).todo[0];
      var h := p.packet.header;
      var known := h.sessionId < |peer.bound| && h.interfaceId in peer.bound[h.sessionId]
                   && h.methodId in peer.bound[h.sessionId][h.interfaceId];
      var void := (h.interfaceId, h.methodId) in net.voids;
      && net'.served == net.served + (if known then multiset{p.call} else multiset{})
      && net'.dropped == net.dropped + (if known then multiset{} else multiset{p.call})
      && net'.peers.At(x) == peer.(
           todo := peer.todo[1..],
           reply := peer.reply
             + if known && !void
               then [Sent(F.Packet(C.Header(2, h.sessionId, h.operationId, h.interfaceId, h.methodId, h.arity), result), p.call)]
               else [])
      && net'.results == (if known && !void then net.results[p.call := result] else net.results)
      && net'.peers.At(!x) == net.peers.At(!x) && net'.wires == net.wires && net'.done == net.done
  {
    assert TidyPeer(net.peers.At(x));
  }

  /** A response: the promise under its id, if one waits in its session, is set to its body
      and forgotten; otherwise nothing happens. */
  lemma ResponseStep(net: Net, x: Side, result: seq<byte>)
    requires Tidy(net) && Enabled(net, Handle(x, result)) && net.peers.At(x).todo[0].packet.header.dir == 2
    ensures var net', peer, p := Apply(net, Handle(x, result)), net.peers.At(x), net.peers.At(x).todo[0];
      var k, oid := p.packet.header.sessionId, p.packet.header.operationId;
      var popped := peer.(todo := peer.todo[1..]);
      && (if k < |peer.sessions| && oid in peer.sessions[k].wait
          then
            var s := peer.sessions[k];
            && net'.peers.At(x) == popped.(sessions := peer.sessions[k := s.(wait := s.wait - {oid})])
            && net'.done == net.done + [Fulfilment(s.wait[oid], p.call, p.packet.body)]
          else net'.peers.At(x) == popped && net'.done == net.done)
      && net'.served == net.served && net'.dropped == net.dropped && net'.results == net.results
      && net'.peers.At(!x) == net.peers.At(!x) && net'.wires == net.wires
  {
    var peer := net.peers.At(x);
    assert peer.reply + [] == peer.reply;
  }

  /** Any package on its way can be taken next, whole; the reply leaves whole when all its
      packets were handled, unless it is empty. */
  lemma TakeStep(net: Net, x: Side, j: nat)
    requires Enabled(net, Take(x, j))
    ensures var net' := Apply(net, Take(x, j));
      && net'.peers.At(x) == net.peers.At(x).(busy := true, todo := net.wires.At(x)[j], reply := [])
      && net'.wires.At(x) == net.wires.At(x)[..j] + net.wires.At(x)[j + 1..] && net'.wires.At(!x) == net.wires.At(!x)
      && net'.peers.At(!x) == net.peers.At(!x)
  {
  }

  lemma FinishStep(net: Net, x: Side)
    requires Enabled(net, Finish(x))
    ensures var net', reply := Apply(net, Finish(x)), net.peers.At(x).reply;
      && net'.peers.At(x) == net.peers.At(x).(busy := false, reply := [])
      && net'.wires.At(!x) == net.wires.At(!x) + (if reply == [] then [] else [reply]) && net'.wires.At(x) == net.wires.At(x)
      && net'.peers.At(!x) == net.peers.At(!x)
  {
  }
}
