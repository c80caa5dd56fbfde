/** What happens beyond the 8-bit ids, from the very start of two peers: a response sets the
    promise of another call, although packages are delivered in order. */
module Exhaustion {
  import opened Bits
  import opened Wrappers
  import C = Codec
  import F = Framing
  import opened S = SessionModel
  import opened Protocol
  import opened Safety

  /** An interface that the serving side knows, and one it does not. */
  const BOUND: byte := 1
  const UNBOUND: byte := 0

  function Fresh(wait: map<byte, nat>): State
  {
    State.State(0, false, None, wait, [])
  }

  function Client(wait: map<byte, nat>): Peer
  {
    Peer([Fresh(wait)], [map[]], false, [], [])
  }

  function Server(busy: bool, todo: Package, reply: Package): Peer
  {
    Peer([Fresh(map[])], [map[BOUND := {0}]], busy, todo, reply)
  }

  /** All that matters of a state: who waits, what is under way, what is done. */
  datatype View = View(client: Peer, server: Peer, back: seq<Package>, out: seq<Package>, next: nat, done: seq<Fulfilment>)

  ghost predicate Is(net: Net, v: View)
  {
    && net.voids == {} && net.peers == Two(v.client, v.server) && net.wires == Two(v.back, v.out)
    && net.next == v.next && net.done == v.done
  }

  function Asking(iid: byte, n: nat, oid: byte): Sent
  {
    Sent(F.Packet(C.Header(C.REQUEST, 0, oid, iid, 0, 0), []), n)
  }

  // ----- one step -----

  lemma RequestValue(wait: map<byte, nat>, iid: byte, n: nat, oid: byte)
    requires FreeId(wait.Keys) == oid
    ensures Request(Fresh(wait), false, iid, 0, 0, [], n).(outbox := [])
         == Fresh(if oid in wait then wait else wait[oid := n])
    ensures Request(Fresh(wait), false, iid, 0, 0, [], n).outbox == [[Asking(iid, n, oid)]]
  {
    hide FreeId;
    var p := RequestPacket(Fresh(wait), iid, 0, 0, [], n);
    assert p == Asking(iid, n, oid);
    assert Opened(Fresh(wait)) + [p] == [p] && [] + [[p]] == [[p]];
  }

  lemma Called(net: Net, wait: map<byte, nat>, iid: byte, n: nat, oid: byte)
    requires Is(net, View(Client(wait), Server(false, [], []), [], [], n, [])) && FreeId(wait.Keys) == oid
    ensures Enabled(net, Invoke(true, 0, iid, 0, 0, []))
    ensures Is(Apply(net, Invoke(true, 0, iid, 0, 0, [])),
               View(Client(if oid in wait then wait else wait[oid := n]), Server(false, [], []),
                    [], [[Asking(iid, n, oid)]], n + 1, []))
  {
    RequestValue(wait, iid, n, oid);
    hide FreeId, Request;
    var s := Request(Fresh(wait), false, iid, 0, 0, [], n);
    assert net.peers.At(true).sessions[0] == Fresh(wait);
    assert [Fresh(wait)][0 := s.(outbox := [])] == [s.(outbox := [])];
    assert [] + s.outbox == s.outbox;
  }

  lemma Taken(net: Net, client: Peer, p: Sent, n: nat, done: seq<Fulfilment>)
    requires Is(net, View(client, Server(false, [], []), [], [[p]], n, done))
    ensures Enabled(net, Take(false, 0))
    ensures Is(Apply(net, Take(false, 0)), View(client, Server(true, [p], []), [], [], n, done))
  {
    assert [[p]][..0] + [[p]][1..] == [];
  }

  function ReplyTo(p: Sent, result: seq<byte>): Package
  {
    if p.packet.header.interfaceId == BOUND then [ResponseTo(p, result)] else []
  }

  lemma Handled(net: Net, client: Peer, p: Sent, n: nat, done: seq<Fulfilment>, result: seq<byte>)
    requires Is(net, View(client, Server(true, [p], []), [], [], n, done))
    requires p.packet.header == C.Header(C.REQUEST, 0, p.packet.header.operationId, p.packet.header.interfaceId, 0, 0)
    ensures Enabled(net, Handle(false, result))
    ensures Is(Apply(net, Handle(false, result)), View(client, Server(true, [], ReplyTo(p, result)), [], [], n, done))
  {
    var peer := net.peers.At(false);
    assert peer == Server(true, [p], []) && peer.todo[1..] == [];
    assert Known(peer, p.packet.header) <==> p.packet.header.interfaceId == BOUND;
    assert Replies(net, false, p, result) == ReplyTo(p, result);
    assert peer.reply + ReplyTo(p, result) == ReplyTo(p, result);
    hide Known, Replies, ReplyTo, Asks;
  }

  lemma Finished(net: Net, client: Peer, reply: Package, n: nat, done: seq<Fulfilment>)
    requires Is(net, View(client, Server(true, [], reply), [], [], n, done))
    ensures Enabled(net, Finish(false))
    ensures Is(Apply(net, Finish(false)), View(client, Server(false, [], []), if reply == [] then [] else [reply], [], n, done))
  {
    var back := if reply == [] then [] else [reply];
    assert net.wires.At(true) + back == back;
    assert net.wires.Put(true, back) == Two(back, []);
  }

  lemma Fulfils(net: Net, wait: map<byte, nat>, p: Sent, n: nat)
    requires Is(net, View(Client(wait), Server(false, [], []), [[p]], [], n, []))
    requires p.packet.header.dir == C.RESPONSE && p.packet.header.sessionId == 0 && p.packet.header.operationId in wait
    ensures Enabled(net, Take(true, 0)) && Enabled(Apply(net, Take(true, 0)), Handle(true, []))
    ensures Apply(Apply(net, Take(true, 0)), Handle(true, [])).done
         == [Fulfilment(wait[p.packet.header.operationId], p.call, p.packet.body)]
  {
    var net1 := Apply(net, Take(true, 0));
    assert net1.peers.a == Client(wait).(busy := true, todo := [p]);
    assert [] + [Fulfilment(wait[p.packet.header.operationId], p.call, p.packet.body)]
        == [Fulfilment(wait[p.packet.header.operationId], p.call, p.packet.body)];
    hide Replies;
  }

  // ----- whole runs -----

  lemma {:induction false} Then(net: Net, a: seq<Step>, b: seq<Step>)
    requires Legal(net, a) && Legal(After(net, a), b)
    ensures Legal(net, a + b) && After(net, a + b) == After(After(net, a), b)
    decreases |a|
  {
    hide Apply, Enabled;
    if a == [] {
      assert a + b == b;
    } else {
      assert (a + b)[1..] == a[1..] + b;
      Then(Apply(net, a[0]), a[1..], b);
    }
  }

  lemma Two1(net: Net, s: Step, t: Step)
    requires Enabled(net, s) && Enabled(Apply(net, s), t)
    ensures Legal(net, [s, t]) && After(net, [s, t]) == Apply(Apply(net, s), t)
  {
    hide Apply, Enabled;
    assert [s, t][1..] == [t] && [t][1..] == [];
    var net1 := Apply(net, s);
    var net2 := Apply(net1, t);
    assert Legal(net2, []) && After(net2, []) == net2;
    assert Legal(net1, [t]) && After(net1, [t]) == After(net2, [t][1..]);
  }

  ghost predicate Idle(net: Net, wait: map<byte, nat>, n: nat)
  {
    Is(net, View(Client(wait), Server(false, [], []), [], [], n, []))
  }

  /** A call is made, delivered and handled. */
  function Round(iid: byte, result: seq<byte>): seq<Step>
  {
    [Invoke(true, 0, iid, 0, 0, []), Take(false, 0)] + [Handle(false, result), Finish(false)]
  }

  lemma Served(net: Net, wait: map<byte, nat>, iid: byte, n: nat, oid: byte, result: seq<byte>)
    requires Idle(net, wait, n) && FreeId(wait.Keys) == oid
    ensures Legal(net, Round(iid, result))
    ensures var p := Asking(iid, n, oid);
      Is(After(net, Round(iid, result)),
         View(Client(if oid in wait then wait else wait[oid := n]), Server(false, [], []),
              if iid == BOUND then [[ResponseTo(p, result)]] else [], [], n + 1, []))
  {
    var p, client := Asking(iid, n, oid), Client(if oid in wait then wait else wait[oid := n]);
    var s1, s2, s3, s4 := Invoke(true, 0, iid, 0, 0, []), Take(false, 0), Handle(false, result), Finish(false);
    Called(net, wait, iid, n, oid);
    var net1 := Apply(net, s1);
    Taken(net1, client, p, n + 1, []);
    var net2 := Apply(net1, s2);
    Handled(net2, client, p, n + 1, [], result);
    var net3 := Apply(net2, s3);
    Finished(net3, client, ReplyTo(p, result), n + 1, []);
    hide Apply, Enabled, Is, FreeId, ResponseTo;
    Two1(net, s1, s2);
    Two1(net2, s3, s4);
    Then(net, [s1, s2], [s3, s4]);
  }

  /** Call i waits under id i, for all i below n. */
  ghost predicate Jammed(wait: map<byte, nat>, n: nat)
  {
    n <= IDS && wait.Keys == Below(n) && forall o | o in wait :: wait[o] == o
  }

  lemma NextId(wait: map<byte, nat>, n: nat)
    requires Jammed(wait, n)
    ensures n < IDS ==> FreeId(wait.Keys) == n && n !in wait && Jammed(wait[n as byte := n], n + 1)
    ensures n == IDS ==> FreeId(wait.Keys) == 0 && 0 in wait
  {
    hide Below;
    FreeIdMeaning(wait.Keys);
    assert |wait.Keys| == n;
    if n < IDS {
      assert wait[n as byte := n].Keys == wait.Keys + {n as byte};
    }
  }

  /** n calls that the server drops, one after the other. */
  function Rounds(n: nat): seq<Step>
  {
    if n == 0 then [] else Rounds(n - 1) + Round(UNBOUND, [])
  }

  lemma {:induction false} Jam(net: Net, n: nat) returns (wait: map<byte, nat>)
    requires Idle(net, map[], 0) && n <= IDS
    ensures Legal(net, Rounds(n)) && Jammed(wait, n) && Idle(After(net, Rounds(n)), wait, n)
  {
    if n == 0 {
      wait := map[];
    } else {
      wait := Jam(net, n - 1);
      var now := After(net, Rounds(n - 1));
      NextId(wait, n - 1);
      hide Apply, Enabled, Is, FreeId, Jammed;
      Served(now, wait, UNBOUND, n - 1, n - 1, []);
      Then(net, Rounds(n - 1), Round(UNBOUND, []));
      wait := wait[(n - 1) as byte := n - 1];
    }
  }

  function Setup(): seq<Step>
  {
    [MakeSession(true), MakeSession(false)] + [Bind(false, 0, BOUND, {0})]
  }

  lemma Made(net: Net, x: Side)
    requires net.peers.At(x) == Peer([], [], false, [], [])
    ensures Apply(net, MakeSession(x)) == net.(peers := net.peers.Put(x, Client(map[])))
  {
    assert [] + [Fresh(map[])] == [Fresh(map[])];
    var none: map<byte, set<byte>> := map[];
    assert [] + [none] == [none];
  }

  lemma Bound(net: Net)
    requires net.peers.At(false) == Client(map[])
    ensures Enabled(net, Bind(false, 0, BOUND, {0}))
    ensures Apply(net, Bind(false, 0, BOUND, {0})) == net.(peers := net.peers.Put(false, Server(false, [], [])))
  {
    var none: map<byte, set<byte>> := map[];
    assert none[BOUND := {0}] == map[BOUND := {0}];
    assert [none][0 := none[BOUND := {0}]] == [none[BOUND := {0}]];
  }

  lemma SetUp()
    ensures Legal(Init({}), Setup()) && Idle(After(Init({}), Setup()), map[], 0)
  {
    var net, bind := Init({}), Bind(false, 0, BOUND, {0});
    Made(net, true);
    var net1 := Apply(net, MakeSession(true));
    Made(net1, false);
    var net2 := Apply(net1, MakeSession(false));
    Bound(net2);
    var net3 := Apply(net2, bind);
    assert net3.peers == Two(Client(map[]), Server(false, [], []));
    assert Enabled(net, MakeSession(true)) && Enabled(net1, MakeSession(false));
    hide Apply, Enabled;
    Two1(net, MakeSession(true), MakeSession(false));
    assert Legal(net2, [bind]) && After(net2, [bind]) == net3;
    Then(net, [MakeSession(true), MakeSession(false)], [bind]);
  }

  /** 256 calls that the server drops, one that it serves, and the response to that one. */
  function Overrun(): seq<Step>
  {
    Setup() + (Rounds(IDS) + (Round(BOUND, [9]) + Answer()))
  }

  function Answer(): seq<Step>
  {
    [Take(true, 0), Handle(true, [])]
  }

  lemma WrongResponse(net: Net, wait: map<byte, nat>)
    requires Idle(net, wait, IDS) && Jammed(wait, IDS)
    ensures Legal(net, Round(BOUND, [9]) + Answer())
    ensures After(net, Round(BOUND, [9]) + Answer()).done == [Fulfilment(0, IDS, [9])]
  {
    NextId(wait, IDS);
    Served(net, wait, BOUND, IDS, 0, [9]);
    var net' := After(net, Round(BOUND, [9]));
    Fulfils(net', wait, ResponseTo(Asking(BOUND, IDS, 0), [9]), IDS + 1);
    hide Apply, Enabled, Round, FreeId, Below, Is;
    Two1(net', Take(true, 0), Handle(true, []));
    Then(net, Round(BOUND, [9]), Answer());
  }

  /** The value of call 256 ends up in the promise of call 0. */
  lemma AnotherCallsPromise()
    ensures Legal(Init({}), Overrun())
    ensures After(Init({}), Overrun()).done == [Fulfilment(0, IDS, [9])]
  {
    SetUp();
    var net1 := After(Init({}), Setup());
    var wait := Jam(net1, IDS);
    WrongResponse(After(net1, Rounds(IDS)), wait);
    hide Apply, Enabled, Rounds, Setup, Round, Respond, Jammed, Idle;
    Then(net1, Rounds(IDS), Round(BOUND, [9]) + Answer());
    Then(Init({}), Setup(), Rounds(IDS) + (Round(BOUND, [9]) + Answer()));
  }

  ghost predicate InOrder(steps: seq<Step>)
  {
    forall i | 0 <= i < |steps| && steps[i].Take? :: steps[i].j == 0
  }

  lemma {:induction false} RoundsInOrder(n: nat)
    ensures InOrder(Rounds(n))
  {
    if n > 0 {
      RoundsInOrder(n - 1);
    }
  }

  /** Nothing overtakes anything else in that run. */
  lemma OverrunInOrder()
    ensures InOrder(Overrun())
  {
    RoundsInOrder(IDS);
    hide Rounds;
  }
}
