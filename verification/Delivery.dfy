/** What two peers have achieved once nothing is under way any more: every call was executed
    or dropped, every value returned has arrived, and only dropped calls still wait. */
module Delivery {
  import opened Bits
  import C = Codec
  import opened S = SessionModel
  import opened Protocol
  import opened Safety

  ghost predicate Pends(net: Net, call: nat)
  {
    exists c: Side, t: Tag :: t in WaitingOf(net, c) && t.call == call
  }

  ghost predicate IsDone(net: Net, call: nat)
  {
    exists i :: 0 <= i < |net.done| && net.done[i].promise == call
  }

  /** The promise of every call that returned a value waits or is set. */
  ghost predicate Kept(net: Net)
  {
    forall call | call in net.results :: Pends(net, call) || IsDone(net, call)
  }

  /** A call is booked as lost only when it was dropped. */
  ghost predicate LostDropped(net: Net)
  {
    forall c: Side, t | t in net.lost.At(c) :: t.call in net.dropped
  }

  lemma PromiseKept(net: Net, step: Step, call: nat)
    requires Inv(net) && Enabled(net, step) && Within(net, step)
    requires Pends(net, call) || IsDone(net, call)
    ensures Pends(Apply(net, step), call) || IsDone(Apply(net, step), call)
  {
    BookStep(net, step);
    hide Waiting, Inv, Within, Apply, Enabled, Pends, IsDone;
    var net', x := Apply(net, step), step.x;
    if net'.done == net.done && WaitingOf(net, x) <= WaitingOf(net', x) {
      StillThere(net, net', x, call);
    } else {
      var t: Tag, v :| t in WaitingOf(net, x) && WaitingOf(net', x) == WaitingOf(net, x) - {t}
                       && net'.done == net.done + [Fulfilment(t.call, t.call, v)];
      MovedOver(net, net', x, t, v, call);
    }
  }

  lemma StillThere(net: Net, net': Net, x: Side, call: nat)
    requires net'.done == net.done && WaitingOf(net, x) <= WaitingOf(net', x) && WaitingOf(net', !x) == WaitingOf(net, !x)
    requires Pends(net, call) || IsDone(net, call)
    ensures Pends(net', call) || IsDone(net', call)
  {
    hide WaitingOf;
    if Pends(net, call) {
      var c: Side, t :| t in WaitingOf(net, c) && t.call == call;
      assert c == x || c == !x;
      assert t in WaitingOf(net', c);
    }
  }

  lemma MovedOver(net: Net, net': Net, x: Side, t: Tag, v: seq<byte>, call: nat)
    requires WaitingOf(net', x) == WaitingOf(net, x) - {t} && WaitingOf(net', !x) == WaitingOf(net, !x)
    requires net'.done == net.done + [Fulfilment(t.call, t.call, v)]
    requires Pends(net, call) || IsDone(net, call)
    ensures Pends(net', call) || IsDone(net', call)
  {
    hide WaitingOf;
    var n := |net.done|;
    assert net'.done[n].promise == t.call;
    if IsDone(net, call) {
      var i :| 0 <= i < n && net.done[i].promise == call;
      assert net'.done[i] == net.done[i];
    } else {
      var c: Side, u :| u in WaitingOf(net, c) && u.call == call;
      assert c == x || c == !x;
      assert u == t || u in WaitingOf(net', c);
    }
  }

  /** A request that is handled is under way, so its promise waits. */
  lemma HandledPends(net: Net, x: Side)
    requires Inv(net) && net.peers.At(x).todo != []
    requires var h := net.peers.At(x).todo[0].packet.header; h.dir == C.REQUEST && !IsVoid(net, h)
    ensures Pends(net, net.peers.At(x).todo[0].call)
  {
    var p, f := net.peers.At(x).todo[0], Asks(net.voids);
    assert f(p)[TagOf(p)] == 1;
    hide Asks, PackageSum, OpenSum, Waiting, Tidy, Distinct, Fulfilled;
    assert f(p) <= Sum(net.peers.At(x).todo, f) <= OutSum(net, !x, f) <= Flight(net, !x);
    assert Matched(net, !x);
    assert (Flight(net, !x) + net.lost.At(!x))[TagOf(p)] == multiset(WaitingOf(net, !x))[TagOf(p)];
    assert TagOf(p) in WaitingOf(net, !x);
  }

  lemma HandledResult(net: Net, x: Side, result: seq<byte>, call: nat)
    requires Enabled(net, Handle(x, result))
    requires call in HandlePacket(net, x, result).results && call !in net.results
    ensures var p := net.peers.At(x).todo[0];
      p.packet.header.dir == C.REQUEST && !IsVoid(net, p.packet.header) && call == p.call
  {
    hide Replies, Known, Asks, Respond, IsVoid;
  }

  lemma NewResult(net: Net, step: Step, call: nat)
    requires Inv(net) && Enabled(net, step)
    requires call in Apply(net, step).results && call !in net.results
    ensures Pends(net, call)
  {
    hide Inv, Pends, HandlePacket, Update, Request;
    match step
    case Handle(x, result) =>
      HandledResult(net, x, result, call);
      HandledPends(net, x);
    case _ =>
      DoneSame(net, step);
  }

  lemma KeptStep(net: Net, step: Step)
    requires Inv(net) && Kept(net) && Enabled(net, step) && Within(net, step)
    ensures Kept(Apply(net, step))
  {
    hide Inv, Within, Apply, Enabled, Pends, IsDone;
    forall call | call in Apply(net, step).results
      ensures Pends(Apply(net, step), call) || IsDone(Apply(net, step), call)
    {
      if call !in net.results {
        NewResult(net, step, call);
      }
      PromiseKept(net, step, call);
    }
  }

  lemma DroppedGrows(net: Net, step: Step)
    requires Enabled(net, step)
    ensures net.dropped <= Apply(net, step).dropped
    ensures forall t | t in Dropped(net, step) :: t.call in Apply(net, step).dropped
  {
    hide Replies, Request, FreeId;
  }

  lemma LostDroppedStep(net: Net, step: Step)
    requires LostDropped(net) && Enabled(net, step)
    ensures LostDropped(Apply(net, step))
  {
    LostStep(net, step);
    DroppedGrows(net, step);
    hide Apply, Enabled, Dropped;
  }

  /** Nothing is under way: no package on a wire, none being taken apart, none open with
      packets in it. */
  predicate Quiet(net: Net)
  {
    forall c: Side ::
      && net.wires.At(c) == [] && !net.peers.At(c).busy
      && forall k | 0 <= k < |SessionsOf(net, c)| :: Opened(SessionsOf(net, c)[k]) == []
  }

  lemma {:induction false} NothingOpen<T>(ss: seq<State>, f: Sent -> multiset<T>)
    requires forall k | 0 <= k < |ss| :: Opened(ss[k]) == []
    ensures OpenSum(ss, f) == multiset{}
  {
    if ss != [] {
      NothingOpen(ss[1..], f);
    }
  }

  lemma QuietOut<T>(net: Net, c: Side, f: Sent -> multiset<T>)
    requires Tidy(net) && Quiet(net)
    ensures OutSum(net, c, f) == multiset{}
  {
    NothingOpen(SessionsOf(net, c), f);
    assert TidyPeer(net.peers.At(c)) && TidyPeer(net.peers.At(!c));
    assert net.wires.At(!c) == [];
  }

  ghost predicate Complete(net: Net)
  {
    && (forall call: nat :: net.served[call] + net.dropped[call] == if call < net.next then 1 else 0)
    && (forall c: Side, t | t in WaitingOf(net, c) :: net.dropped[t.call] == 1)
    && forall call | call in net.results ::
         exists i :: 0 <= i < |net.done| && net.done[i].promise == call && net.done[i].value == net.results[call]
  }

  lemma Booked(net: Net, call: nat)
    requires Accounted(net)
    ensures Transit(net)[call] + net.served[call] + net.dropped[call] == if call < net.next then 1 else 0
  {
    MadeOnce(net.next, call);
    assert (Transit(net) + (net.served + net.dropped))[call] == Made(net.next)[call];
  }

  lemma QuietWaits(net: Net, c: Side, t: Tag)
    requires Inv(net) && LostDropped(net) && Quiet(net) && t in WaitingOf(net, c)
    ensures t.call in net.dropped
  {
    QuietOut(net, c, Asks(net.voids));
    QuietOut(net, !c, Replied());
    hide OutSum, Waiting, Tidy, Quiet;
    assert Matched(net, c);
    assert (Flight(net, c) + net.lost.At(c))[t] == multiset(WaitingOf(net, c))[t];
  }

  lemma QuietIsComplete(net: Net)
    requires Inv(net) && Accounted(net) && Truthful(net) && Kept(net) && LostDropped(net) && Quiet(net)
    ensures Complete(net)
  {
    QuietOut(net, true, Calls());
    QuietOut(net, false, Calls());
    forall call: nat
      ensures net.served[call] + net.dropped[call] == if call < net.next then 1 else 0
    {
      Booked(net, call);
    }
    forall c: Side, t | t in WaitingOf(net, c)
      ensures net.dropped[t.call] == 1
    {
      QuietWaits(net, c, t);
      Booked(net, t.call);
    }
    forall call | call in net.results
      ensures exists i :: 0 <= i < |net.done| && net.done[i].promise == call && net.done[i].value == net.results[call]
    {
      ResultArrived(net, call);
    }
  }

  lemma ResultArrived(net: Net, call: nat)
    requires Inv(net) && Accounted(net) && Truthful(net) && Kept(net) && LostDropped(net) && Quiet(net)
    requires call in net.results
    ensures exists i :: 0 <= i < |net.done| && net.done[i].promise == call && net.done[i].value == net.results[call]
  {
    Booked(net, call);
    if Pends(net, call) {
      var c, t :| t in WaitingOf(net, c) && t.call == call;
      QuietWaits(net, c, t);
    }
    hide Tidy, Matched, Distinct, Quiet, OutSum, Transit;
    var i :| 0 <= i < |net.done| && net.done[i].promise == call;
    assert net.done[i].origin == call;
  }

  lemma {:induction false} CompleteAlong(net: Net, steps: seq<Step>)
    requires Inv(net) && Accounted(net) && Truthful(net) && Kept(net) && LostDropped(net)
    requires Legal(net, steps) && WithinAlong(net, steps) && Quiet(After(net, steps))
    ensures Complete(After(net, steps))
    decreases |steps|
  {
    hide Inv, Accounted, Truthful, Kept, LostDropped, Within, Apply, Enabled, Quiet, Complete;
    if steps == [] {
      QuietIsComplete(net);
    } else {
      InvStep(net, steps[0]);
      AccountedStep(net, steps[0]);
      TruthfulStep(net, steps[0]);
      KeptStep(net, steps[0]);
      LostDroppedStep(net, steps[0]);
      CompleteAlong(Apply(net, steps[0]), steps[1..]);
    }
  }

  /** Over every run within the 8-bit ids, whenever everything sent has been delivered:
      each call was executed or dropped, once; a promise still waits only if its call was
      dropped; and every value returned is in the promise of its call. */
  lemma DeliveredIsComplete(voids: set<(byte, byte)>, steps: seq<Step>)
    requires Legal(Init(voids), steps) && WithinAlong(Init(voids), steps) && Quiet(After(Init(voids), steps))
    ensures Complete(After(Init(voids), steps))
  {
    hide Inv, Accounted, Truthful, WithinAlong, Legal, After, Quiet, Complete;
    Start(voids);
    CompleteAlong(Init(voids), steps);
  }
}
