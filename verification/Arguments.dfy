/** In the two-peer system every request carries what its caller gave, wherever it is. */
module Arguments {
  import Collections
  import opened Bits
  import C = Codec
  import F = Framing
  import opened S = SessionModel
  import opened Protocol
  import opened Safety

  /** The calls of a run, in the order they were made: call i is the i-th. */
  function Invokes(steps: seq<Step>): seq<Step>
  {
    if steps == [] then []
    else (if steps[0].Invoke? then [steps[0]] else []) + Invokes(steps[1..])
  }

  /** p is the request that the step made: interface, method, arity and arguments. */
  ghost predicate MadeBy(p: Sent, step: Step)
  {
    var h := p.packet.header;
    step.Invoke? && h.interfaceId == step.iid && h.methodId == step.mid && h.arity == step.arity && p.packet.body == step.body
  }

  /** A request that is not the one its call made. */
  ghost function Mislaid(calls: seq<Step>): Sent -> multiset<nat>
  {
    (p: Sent) =>
      if p.packet.header.dir == 1 && !(p.call < |calls| && MadeBy(p, calls[p.call])) then multiset{p.call}
      else multiset{}
  }

  ghost predicate Carried(net: Net, calls: seq<Step>)
  {
    Tidy(net) && |calls| == net.next && forall c: Side :: OutSum(net, c, Mislaid(calls)) == multiset{}
  }

  function Later(calls: seq<Step>, step: Step): seq<Step>
  {
    calls + if step.Invoke? then [step] else []
  }

  lemma AddedCarries(net: Net, step: Step, c: Side, calls: seq<Step>)
    requires Enabled(net, step) && |calls| == net.next
    ensures Sum(Added(net, step, c), Mislaid(Later(calls, step))) == multiset{}
  {
    var ps, f := Added(net, step, c), Mislaid(Later(calls, step));
    if ps != [] {
      assert ps == [ps[0]];
      SumOne(ps[0], f);
      hide Update, FreeId;
    }
  }

  lemma NextStep(net: Net, step: Step)
    requires Enabled(net, step)
    ensures Apply(net, step).next == net.next + if step.Invoke? then 1 else 0
  {
    hide Request, FreeId, Replies, Known;
  }

  lemma CarriedStep(net: Net, step: Step, calls: seq<Step>)
    requires Carried(net, calls) && Enabled(net, step)
    ensures Carried(Apply(net, step), Later(calls, step))
  {
    TidyStep(net, step);
    NextStep(net, step);
    var net', later := Apply(net, step), Later(calls, step);
    var f := Mislaid(later);
    assert NoMore(Mislaid(calls), f);
    hide OutSum, Apply, Added, Removed, Enabled, Mislaid, NoMore, Tidy;
    forall c: Side
      ensures OutSum(net', c, f) == multiset{}
    {
      StepSum(net, step, c, f);
      AddedCarries(net, step, c, calls);
      NoneOut(net, c, Mislaid(calls), f);
      NothingIn(OutSum(net', c, f), Sum(Removed(net, step, c), f), OutSum(net, c, f), Sum(Added(net, step, c), f));
    }
  }

  lemma {:induction false} CarriedAlong(net: Net, steps: seq<Step>, calls: seq<Step>)
    requires Carried(net, calls) && Legal(net, steps)
    ensures Carried(After(net, steps), calls + Invokes(steps))
    decreases |steps|
  {
    hide Carried, Apply, Enabled;
    if steps == [] {
      assert calls + [] == calls;
    } else {
      CarriedStep(net, steps[0], calls);
      CarriedAlong(Apply(net, steps[0]), steps[1..], Later(calls, steps[0]));
      Collections.Associate(calls, if steps[0].Invoke? then [steps[0]] else [], Invokes(steps[1..]));
    }
  }

  /** In every reachable state each request under way is the one that its call made, with
      the arguments given there; in particular the one that is handled next. */
  lemma ArgumentsArrive(voids: set<(byte, byte)>, steps: seq<Step>, c: Side, p: Sent)
    requires Legal(Init(voids), steps) && UnderWay(After(Init(voids), steps), c, p) && p.packet.header.dir == 1
    ensures p.call < |Invokes(steps)| && MadeBy(p, Invokes(steps)[p.call])
  {
    var net := Init(voids);
    AccountedInit(voids);
    assert Carried(net, []);
    CarriedAlong(net, steps, []);
    assert [] + Invokes(steps) == Invokes(steps);
    var f := Mislaid(Invokes(steps));
    OutHas(After(net, steps), c, p, f);
    assert f(p) <= multiset{};
    hide OutSum, UnderWay, Legal, Invokes, Tidy, MadeBy;
    assert f(p) == multiset{};
  }

  lemma HandledAsMade(voids: set<(byte, byte)>, steps: seq<Step>, x: Side, result: seq<byte>)
    requires Legal(Init(voids), steps) && Enabled(After(Init(voids), steps), Handle(x, result))
    requires After(Init(voids), steps).peers.At(x).todo[0].packet.header.dir == 1
    ensures var p := After(Init(voids), steps).peers.At(x).todo[0];
      p.call < |Invokes(steps)| && MadeBy(p, Invokes(steps)[p.call])
  {
    var net := After(Init(voids), steps);
    var p := net.peers.At(x).todo[0];
    hide After, Legal, Invokes, Known;
    assert UnderWay(net, !x, p);
    ArgumentsArrive(voids, steps, !x, p);
  }
}
