/** Two peers and everything between them: sessions that call, packages under way, a
    receive loop on each side that serves requests and fulfils promises. */
module Protocol {
  import Collections
  import opened Wrappers
  import opened Bits
  import C = Codec
  import F = Framing
  import opened S = SessionModel

  /** A value for each side. */
  datatype Two<T> = Two(a: T, b: T) {
    function At(left: bool): T {
      if left then a else b
    }

    function Put(left: bool, x: T): Two<T> {
      if left then Two(x, b) else Two(a, x)
    }
  }

  type Side = bool

  type Package = seq<Sent>

  /** bound: for each session, the interfaces that have an implementation and the methods
      it knows.  busy: a package is being taken apart; todo: its packets not handled yet;
      reply: the package of responses under construction. */
  datatype Peer = Peer(
    sessions: seq<State>, bound: seq<map<byte, set<byte>>>, busy: bool, todo: Package, reply: Package)

  /** A call that expects a response: where it waits, and which call it is. */
  datatype Tag = Tag(sid: int, oid: byte, call: nat)

  /** One promise set: the promise, the call whose response set it, and the value. */
  datatype Fulfilment = Fulfilment(promise: nat, origin: nat, value: seq<byte>)

  /** voids: the methods without a result, as the interface definition both sides share
      has it.  wires.At(c): the packages on their way to side c.  next: the number of calls
      made.  lost.At(c): calls of side c that the other side dropped.  results: what each
      executed call returned. */
  datatype Net = Net(
    voids: set<(byte, byte)>,
    peers: Two<Peer>,
    wires: Two<seq<Package>>,
    next: nat,
    lost: Two<multiset<Tag>>,
    served: multiset<nat>,
    dropped: multiset<nat>,
    results: map<nat, seq<byte>>,
    done: seq<Fulfilment>)

  function Init(voids: set<(byte, byte)>): Net
  {
    var p := Peer([], [], false, [], []);
    Net(voids, Two(p, p), Two([], []), 0, Two(multiset{}, multiset{}), multiset{}, multiset{}, map[], [])
  }

  // ----- steps -----

  /** x is the side that acts, k one of its sessions. */
  datatype Step =
    | MakeSession(x: Side)
    | Bind(x: Side, k: nat, iid: byte, methods: set<byte>)
    | Invoke(x: Side, k: nat, iid: byte, mid: byte, arity: byte, body: seq<byte>)
    | StartBatch(x: Side, k: nat)
    | StopBatch(x: Side, k: nat)
    | Take(x: Side, j: nat)
    | Handle(x: Side, result: seq<byte>)
    | Finish(x: Side)

  predicate Enabled(net: Net, step: Step)
  {
    var p := net.peers.At(step.x);
    match step
    case MakeSession(_) => true
    case Bind(_, k, _, _) => k < |p.sessions| == |p.bound|
    case Invoke(_, k, _, _, _, _) => k < |p.sessions|
    case StartBatch(_, k) => k < |p.sessions|
    case StopBatch(_, k) => k < |p.sessions| && p.sessions[k].open.Some?
    case Take(x, j) => !p.busy && j < |net.wires.At(x)|
    case Handle(_, _) => p.busy && p.todo != [] && |p.bound| == |p.sessions|
    case Finish(_) => p.busy && p.todo == []
  }

  /** The session writes its packages straight to the connection. */
  function Update(net: Net, x: Side, k: nat, s: State): Net
    requires k < |net.peers.At(x).sessions|
  {
    var p := net.peers.At(x);
    net.(peers := net.peers.Put(x, p.(sessions := p.sessions[k := s.(outbox := [])])),
         wires := net.wires.Put(!x, net.wires.At(!x) + s.outbox))
  }

  predicate IsVoid(net: Net, h: C.Header)
  {
    (h.interfaceId, h.methodId) in net.voids
  }

  /** The peer finds an implementation for a request: _invokeMap, then the method switch. */
  predicate Known(p: Peer, h: C.Header)
    requires |p.bound| == |p.sessions|
  {
    var k := h.sessionId;
    k < |p.sessions| && h.interfaceId in p.bound[k] && h.methodId in p.bound[k][h.interfaceId]
  }

  /** The response reuses the header of the request. */
  function ResponseTo(p: Sent, result: seq<byte>): Sent
  {
    Sent(F.Packet(p.packet.header.(dir := C.RESPONSE), result), p.call)
  }

  function TagOf(p: Sent): Tag
  {
    Tag(p.packet.header.sessionId, p.packet.header.operationId, p.call)
  }

  /** What handling p appends to the reply. */
  function Replies(net: Net, x: Side, p: Sent, result: seq<byte>): seq<Sent>
    requires |net.peers.At(x).bound| == |net.peers.At(x).sessions|
  {
    var h := p.packet.header;
    if h.dir == C.REQUEST && Known(net.peers.At(x), h) && !IsVoid(net, h) then [ResponseTo(p, result)] else []
  }

  function HandlePacket(net: Net, x: Side, result: seq<byte>): Net
    requires Enabled(net, Handle(x, result))
  {
    var peer := net.peers.At(x);
    var p := peer.todo[0];
    var h := p.packet.header;
    var popped := net.(peers := net.peers.Put(x,
      peer.(todo := peer.todo[1..], reply := peer.reply + Replies(net, x, p, result))));
    if h.dir == C.REQUEST then
      if Known(peer, h) then
        popped.(served := net.served + multiset{p.call},
                results := if IsVoid(net, h) then net.results else net.results[p.call := result])
      else
        popped.(dropped := net.dropped + multiset{p.call},
                lost := net.lost.Put(!x, net.lost.At(!x) + Asks(net.voids)(p)))
    else if h.dir == C.RESPONSE && h.sessionId < |peer.sessions| then
      var (promise, s) := Respond(peer.sessions[h.sessionId], h.operationId);
      match promise
      case None => popped
      case Some(call) =>
        var q := popped.peers.At(x);
        popped.(peers := net.peers.Put(x, q.(sessions := q.sessions[h.sessionId := s])),
                done := net.done + [Fulfilment(call, p.call, p.packet.body)])
    else popped
  }

  function Apply(net: Net, step: Step): Net
    requires Enabled(net, step)
  {
    var x := step.x;
    var p := net.peers.At(x);
    match step
    case MakeSession(_) =>
      net.(peers := net.peers.Put(x, p.(
        sessions := p.sessions + [State.State(|p.sessions| % IDS, false, None, map[], [])],
        bound := p.bound + [map[]])))
    case Bind(_, k, iid, methods) =>
      // emplace: the first implementation stays
      if iid in p.bound[k] then net
      else
        var m: map<byte, set<byte>> := p.bound[k][iid := methods];
        net.(peers := net.peers.Put(x, p.(bound := p.bound[k := m])))
    case Invoke(_, k, iid, mid, arity, body) =>
      Update(net, x, k, Request(p.sessions[k], (iid, mid) in net.voids, iid, mid, arity, body, net.next))
        .(next := net.next + 1)
    case StartBatch(_, k) => Update(net, x, k, BeginBatch(p.sessions[k]))
    case StopBatch(_, k) => Update(net, x, k, EndBatch(p.sessions[k]))
    case Take(_, j) =>
      var w := net.wires.At(x);
      net.(peers := net.peers.Put(x, p.(busy := true, todo := w[j], reply := [])),
           wires := net.wires.Put(x, w[..j] + w[j + 1..]))
    case Handle(_, result) => HandlePacket(net, x, result)
    case Finish(_) =>
      net.(peers := net.peers.Put(x, p.(busy := false, reply := [])),
           wires := net.wires.Put(!x, net.wires.At(!x) + if p.reply == [] then [] else [p.reply]))
  }

  // ----- what is under way -----

  /** The views of a packet that are counted: the tag of a request that expects a
      response, the tag of a response, the call of a request. */
  function Asks(voids: set<(byte, byte)>): Sent -> multiset<Tag>
  {
    (p: Sent) =>
      var h := p.packet.header;
      if h.dir == C.REQUEST && (h.interfaceId, h.methodId) !in voids then multiset{TagOf(p)} else multiset{}
  }

  function Replied(): Sent -> multiset<Tag>
  {
    (p: Sent) => if p.packet.header.dir == C.RESPONSE then multiset{TagOf(p)} else multiset{}
  }

  function Calls(): Sent -> multiset<nat>
  {
    (p: Sent) => if p.packet.header.dir == C.REQUEST then multiset{p.call} else multiset{}
  }

  function Sum<T>(ps: seq<Sent>, f: Sent -> multiset<T>): multiset<T>
  {
    if ps == [] then multiset{} else f(ps[0]) + Sum(ps[1..], f)
  }

  function PackageSum<T>(pkgs: seq<Package>, f: Sent -> multiset<T>): multiset<T>
  {
    if pkgs == [] then multiset{} else Sum(pkgs[0], f) + PackageSum(pkgs[1..], f)
  }

  function OpenSum<T>(ss: seq<State>, f: Sent -> multiset<T>): multiset<T>
  {
    if ss == [] then multiset{} else Sum(Opened(ss[0]), f) + OpenSum(ss[1..], f)
  }

  /** Over every packet on its way from side c to the other: in an open package, in a
      reply, on the wire, or waiting in the other side's receive loop. */
  function OutSum<T>(net: Net, c: Side, f: Sent -> multiset<T>): multiset<T>
  {
    OpenSum(net.peers.At(c).sessions, f) + Sum(net.peers.At(c).reply, f)
    + PackageSum(net.wires.At(!c), f) + Sum(net.peers.At(!c).todo, f)
  }

  /** The calls of side c whose request or response is under way. */
  function Flight(net: Net, c: Side): multiset<Tag>
  {
    OutSum(net, c, Asks(net.voids)) + OutSum(net, !c, Replied())
  }

  /** The promises of a side that wait. */
  function Waiting(ss: seq<State>): set<Tag>
  {
    set k, o | 0 <= k < |ss| && o in ss[k].wait :: Tag(k, o, ss[k].wait[o])
  }

  lemma {:induction false} SumAppend<T>(ps: seq<Sent>, qs: seq<Sent>, f: Sent -> multiset<T>)
    ensures Sum(ps + qs, f) == Sum(ps, f) + Sum(qs, f)
  {
    if ps == [] {
      assert ps + qs == qs;
    } else {
      assert (ps + qs)[1..] == ps[1..] + qs;
      SumAppend(ps[1..], qs, f);
    }
  }

  lemma SumOne<T>(p: Sent, f: Sent -> multiset<T>)
    ensures Sum([p], f) == f(p)
  {
    assert Sum([p], f) == f(p) + Sum([], f);
  }

  lemma {:induction false} PackageAppend<T>(pkgs: seq<Package>, more: seq<Package>, f: Sent -> multiset<T>)
    ensures PackageSum(pkgs + more, f) == PackageSum(pkgs, f) + PackageSum(more, f)
  {
    if pkgs == [] {
      assert pkgs + more == more;
    } else {
      assert (pkgs + more)[1..] == pkgs[1..] + more;
      PackageAppend(pkgs[1..], more, f);
    }
  }

  lemma {:induction false} PackageJoin<T>(pkgs: seq<Package>, f: Sent -> multiset<T>)
    ensures PackageSum(pkgs, f) == Sum(Join(pkgs), f)
  {
    if pkgs != [] {
      PackageJoin(pkgs[1..], f);
      SumAppend(pkgs[0], Join(pkgs[1..]), f);
    }
  }

  lemma PackageRemove<T>(pkgs: seq<Package>, j: nat, f: Sent -> multiset<T>)
    requires j < |pkgs|
    ensures PackageSum(pkgs, f) == PackageSum(pkgs[..j] + pkgs[j + 1..], f) + Sum(pkgs[j], f)
  {
    var front, back := pkgs[..j], pkgs[j..];
    PackageAppend(front, back[1..], f);
    PackageAppend(front, back, f);
    assert front + back == pkgs && back[1..] == pkgs[j + 1..];
  }

  lemma {:induction false} OpenUpdate<T>(ss: seq<State>, k: nat, s: State, f: Sent -> multiset<T>)
    requires k < |ss|
    ensures OpenSum(ss[k := s], f) + Sum(Opened(ss[k]), f) == OpenSum(ss, f) + Sum(Opened(s), f)
  {
    if k == 0 {
      assert ss[k := s][1..] == ss[1..];
    } else {
      assert ss[k := s][1..] == ss[1..][k - 1 := s];
      OpenUpdate(ss[1..], k - 1, s, f);
      Collections.AddFront(Sum(Opened(ss[0]), f), OpenSum(ss[1..][k - 1 := s], f), Sum(Opened(ss[k]), f),
               OpenSum(ss[1..], f), Sum(Opened(s), f));
    }
  }

  lemma {:induction false} OpenAppend<T>(ss: seq<State>, s: State, f: Sent -> multiset<T>)
    ensures OpenSum(ss + [s], f) == OpenSum(ss, f) + Sum(Opened(s), f)
  {
    if ss == [] {
      assert ss + [s] == [s];
      assert OpenSum([s], f) == Sum(Opened(s), f) + OpenSum([], f);
    } else {
      assert (ss + [s])[1..] == ss[1..] + [s];
      OpenAppend(ss[1..], s, f);
    }
  }

  /** The packets a step puts under way from side c, and those it takes off. */
  function Added(net: Net, step: Step, c: Side): seq<Sent>
    requires Enabled(net, step)
  {
    if step.x != c then []
    else
      match step
      case Invoke(x, k, iid, mid, arity, body) =>
        [RequestPacket(net.peers.At(x).sessions[k], iid, mid, arity, body, net.next)]
      case Handle(x, result) => Replies(net, x, net.peers.At(x).todo[0], result)
      case _ => []
  }

  function Removed(net: Net, step: Step, c: Side): seq<Sent>
    requires Enabled(net, step)
  {
    if step.Handle? && step.x != c then [net.peers.At(step.x).todo[0]] else []
  }

  /** Nothing is left over outside the loop that takes a package apart, and sessions keep
      no package they sent. */
  predicate Tidy(net: Net)
  {
    forall c :: TidyPeer(net.peers.At(c))
  }

  predicate TidyPeer(p: Peer)
  {
    && |p.bound| == |p.sessions|
    && (!p.busy ==> p.todo == [] && p.reply == [])
    && forall k | 0 <= k < |p.sessions| :: p.sessions[k].outbox == []
  }

  lemma TidyStep(net: Net, step: Step)
    requires Tidy(net) && Enabled(net, step)
    ensures Tidy(Apply(net, step))
  {
    var net', x := Apply(net, step), step.x;
    assert TidyPeer(net.peers.At(x)) && TidyPeer(net.peers.At(!x));
    TidyActor(net, step);
    OtherPeer(net, step);
    hide TidyPeer, Apply, Enabled;
    forall c
      ensures TidyPeer(net'.peers.At(c))
    {
      assert c == x || c == !x;
    }
  }

  lemma TidyActor(net: Net, step: Step)
    requires TidyPeer(net.peers.At(step.x)) && Enabled(net, step)
    ensures TidyPeer(Apply(net, step).peers.At(step.x))
  {
    hide Request, Replies, Known, FreeId;
  }

  lemma OtherPeer(net: Net, step: Step)
    requires Enabled(net, step)
    ensures Apply(net, step).peers.At(!step.x) == net.peers.At(!step.x)
  {
    hide Request, Replies, Known, FreeId;
  }

  /** o, r, p, t: the four parts of a sum; the open package s becomes s' and the packages
      sent are b. */
  lemma Balance<T>(o: multiset<T>, o': multiset<T>, r: multiset<T>, p: multiset<T>, t: multiset<T>,
                   s: multiset<T>, s': multiset<T>, b: multiset<T>, more: multiset<T>)
    requires o' + s == o + s' && b + s' == s + more
    ensures o' + r + (p + b) + t == o + r + p + t + more
  {
    forall x
      ensures (o' + r + (p + b) + t)[x] == (o + r + p + t + more)[x]
    {
      assert (o' + s)[x] == (o + s')[x] && (b + s')[x] == (s + more)[x];
    }
  }

  lemma UpdateSum<T>(net: Net, x: Side, k: nat, s: State, more: seq<Sent>, f: Sent -> multiset<T>)
    requires k < |net.peers.At(x).sessions|
    requires AllPackets(s) == Opened(net.peers.At(x).sessions[k]) + more
    ensures OutSum(Update(net, x, k, s), x, f) == OutSum(net, x, f) + Sum(more, f)
    ensures OutSum(Update(net, x, k, s), !x, f) == OutSum(net, !x, f)
  {
    hide Sum, PackageSum, OpenSum;
    var ss := net.peers.At(x).sessions;
    var s1 := s.(outbox := []);
    OpenUpdate(ss, k, s1, f);
    PackageAppend(net.wires.At(!x), s.outbox, f);
    PackageJoin(s.outbox, f);
    SumAppend(Join(s.outbox), Opened(s), f);
    SumAppend(Opened(ss[k]), more, f);
    Balance(OpenSum(ss, f), OpenSum(ss[k := s1], f), Sum(net.peers.At(x).reply, f),
            PackageSum(net.wires.At(!x), f), Sum(net.peers.At(!x).todo, f),
            Sum(Opened(ss[k]), f), Sum(Opened(s), f), PackageSum(s.outbox, f), Sum(more, f));
  }

  lemma InvokePackets(s: State, void: bool, iid: byte, mid: byte, arity: byte, body: seq<byte>, call: nat)
    requires s.outbox == []
    ensures AllPackets(Request(s, void, iid, mid, arity, body, call))
         == Opened(s) + [RequestPacket(s, iid, mid, arity, body, call)]
  {
    var p := RequestPacket(s, iid, mid, arity, body, call);
    AddPacketAppends(s, p);
    assert AllPackets(s) == Opened(s);
  }

  lemma BatchPackets(s: State)
    requires s.outbox == []
    ensures AllPackets(BeginBatch(s)) == Opened(s) + []
    ensures AllPackets(EndBatch(s)) == Opened(s) + []
  {
    FlushKeepsPackets(s.(batch := false));
    assert AllPackets(s) == Opened(s);
  }

  lemma SumNone<T>(f: Sent -> multiset<T>)
    ensures Sum([], f) == multiset{}
  {
  }

  /** Whatever is counted, packets are neither made nor lost but by calls and handlers. */
  ghost predicate Counted<T>(net: Net, step: Step, c: Side, f: Sent -> multiset<T>)
    requires Enabled(net, step)
  {
    OutSum(Apply(net, step), c, f) + Sum(Removed(net, step, c), f)
    == OutSum(net, c, f) + Sum(Added(net, step, c), f)
  }

  lemma StepSum<T>(net: Net, step: Step, c: Side, f: Sent -> multiset<T>)
    requires Tidy(net) && Enabled(net, step)
    ensures Counted(net, step, c, f)
  {
    hide Counted;
    match step
    case MakeSession(x) => MakeSum(net, x, c, f);
    case Bind(x, k, iid, methods) => BindSum(net, x, k, iid, methods, c, f);
    case Invoke(x, k, iid, mid, arity, body) => InvokeSum(net, x, k, iid, mid, arity, body, c, f);
    case StartBatch(x, k) => BatchSum(net, x, k, c, f);
    case StopBatch(x, k) => BatchSum(net, x, k, c, f);
    case Take(x, j) => TakeSum(net, x, j, c, f);
    case Handle(x, result) => HandleSum(net, x, result, c, f);
    case Finish(x) => FinishSum(net, x, c, f);
  }

  lemma InvokeSum<T>(net: Net, x: Side, k: nat, iid: byte, mid: byte, arity: byte, body: seq<byte>, c: Side, f: Sent -> multiset<T>)
    requires Tidy(net) && k < |net.peers.At(x).sessions|
    ensures Counted(net, Invoke(x, k, iid, mid, arity, body), c, f)
  {
    hide Request, RequestPacket, OutSum, Update, Sum;
    assert TidyPeer(net.peers.At(x));
    var s := net.peers.At(x).sessions[k];
    var s' := Request(s, (iid, mid) in net.voids, iid, mid, arity, body, net.next);
    InvokePackets(s, (iid, mid) in net.voids, iid, mid, arity, body, net.next);
    UpdateSum(net, x, k, s', [RequestPacket(s, iid, mid, arity, body, net.next)], f);
    NextSame(Update(net, x, k, s'), net.next + 1, c, f);
    SumNone(f);
  }

  lemma NextSame<T>(net: Net, n: nat, c: Side, f: Sent -> multiset<T>)
    ensures OutSum(net.(next := n), c, f) == OutSum(net, c, f)
  {
  }

  lemma BatchSum<T>(net: Net, x: Side, k: nat, c: Side, f: Sent -> multiset<T>)
    requires Tidy(net) && k < |net.peers.At(x).sessions|
    ensures Counted(net, StartBatch(x, k), c, f)
    ensures net.peers.At(x).sessions[k].open.Some? ==> Counted(net, StopBatch(x, k), c, f)
  {
    hide BeginBatch, EndBatch, OutSum, Update, Sum;
    assert TidyPeer(net.peers.At(x));
    var s := net.peers.At(x).sessions[k];
    BatchPackets(s);
    UpdateSum(net, x, k, BeginBatch(s), [], f);
    UpdateSum(net, x, k, EndBatch(s), [], f);
    SumNone(f);
  }

  lemma MakeSum<T>(net: Net, x: Side, c: Side, f: Sent -> multiset<T>)
    ensures Counted(net, MakeSession(x), c, f)
  {
    var ss := net.peers.At(x).sessions;
    OpenAppend(ss, State.State(|ss| % IDS, false, None, map[], []), f);
    SumNone(f);
  }

  lemma BindSum<T>(net: Net, x: Side, k: nat, iid: byte, methods: set<byte>, c: Side, f: Sent -> multiset<T>)
    requires Enabled(net, Bind(x, k, iid, methods))
    ensures Counted(net, Bind(x, k, iid, methods), c, f)
  {
  }

  lemma TakeSum<T>(net: Net, x: Side, j: nat, c: Side, f: Sent -> multiset<T>)
    requires Tidy(net) && Enabled(net, Take(x, j))
    ensures Counted(net, Take(x, j), c, f)
  {
    assert TidyPeer(net.peers.At(x));
    PackageRemove(net.wires.At(x), j, f);
    SumNone(f);
    hide Sum, PackageSum, OpenSum, Tidy, TidyPeer;
    var net' := Apply(net, Take(x, j));
    if c == x {
      assert OutSum(net', c, f) == OutSum(net, c, f);
    } else {
      var w, taken := net.wires.At(x), Sum(net.wires.At(x)[j], f);
      ToTodo(OpenSum(net.peers.At(c).sessions, f), Sum(net.peers.At(c).reply, f),
             PackageSum(w, f), PackageSum(w[..j] + w[j + 1..], f), taken);
      assert OutSum(net', c, f) == OutSum(net, c, f);
    }
  }

  lemma ToTodo<T>(o: multiset<T>, r: multiset<T>, p: multiset<T>, p': multiset<T>, t: multiset<T>)
    requires p == p' + t
    ensures o + r + p + multiset{} == o + r + p' + t
  {
  }

  lemma FinishSum<T>(net: Net, x: Side, c: Side, f: Sent -> multiset<T>)
    requires Enabled(net, Finish(x))
    ensures Counted(net, Finish(x), c, f)
  {
    var r := net.peers.At(x).reply;
    PackageAppend(net.wires.At(!x), if r == [] then [] else [r], f);
    PackageOne(r, f);
    SumNone(f);
  }

  lemma PackageOne<T>(r: Package, f: Sent -> multiset<T>)
    ensures PackageSum([r], f) == Sum(r, f)
  {
    assert PackageSum([r], f) == Sum(r, f) + PackageSum([], f);
  }

  lemma HandleSum<T>(net: Net, x: Side, result: seq<byte>, c: Side, f: Sent -> multiset<T>)
    requires Tidy(net) && Enabled(net, Handle(x, result))
    ensures Counted(net, Handle(x, result), c, f)
  {
    hide HandlePacket, Replies;
    var peer := net.peers.At(x);
    HandleParts(net, x, result, f);
    SumAppend(peer.reply, Replies(net, x, peer.todo[0], result), f);
    SumFirst(peer.todo, f);
    SumNone(f);
  }

  lemma SumFirst<T>(ps: seq<Sent>, f: Sent -> multiset<T>)
    requires ps != []
    ensures Sum(ps, f) == Sum([ps[0]], f) + Sum(ps[1..], f)
  {
    SumOne(ps[0], f);
  }

  /** Handling a packet touches the loop's own packets and, for a response, one wait map. */
  lemma HandleParts<T>(net: Net, x: Side, result: seq<byte>, f: Sent -> multiset<T>)
    requires Tidy(net) && Enabled(net, Handle(x, result))
    ensures var peer, net' := net.peers.At(x), HandlePacket(net, x, result);
            && net'.wires == net.wires && net'.peers.At(!x) == net.peers.At(!x)
            && net'.peers.At(x).todo == peer.todo[1..]
            && net'.peers.At(x).reply == peer.reply + Replies(net, x, peer.todo[0], result)
            && OpenSum(net'.peers.At(x).sessions, f) == OpenSum(peer.sessions, f)
  {
    hide Sum, Replies;
    var peer := net.peers.At(x);
    var h := peer.todo[0].packet.header;
    if h.dir == C.RESPONSE && h.sessionId < |peer.sessions| {
      OpenSame(peer.sessions, h.sessionId, Respond(peer.sessions[h.sessionId], h.operationId).1, f);
    }
  }

  lemma {:induction false} OpenSame<T>(ss: seq<State>, k: nat, s: State, f: Sent -> multiset<T>)
    requires k < |ss| && s.open == ss[k].open
    ensures OpenSum(ss[k := s], f) == OpenSum(ss, f)
  {
    if k == 0 {
      assert ss[k := s][1..] == ss[1..];
    } else {
      assert ss[k := s][1..] == ss[1..][k - 1 := s];
      OpenSame(ss[1..], k - 1, s, f);
    }
  }

  // ----- views that count nothing -----

  /** Where f counts nothing, g counts nothing either. */
  ghost predicate NoMore<T, U>(f: Sent -> multiset<T>, g: Sent -> multiset<U>)
  {
    forall p :: f(p) == multiset{} ==> g(p) == multiset{}
  }

  lemma {:induction false} NoneSum<T, U>(ps: seq<Sent>, f: Sent -> multiset<T>, g: Sent -> multiset<U>)
    requires NoMore(f, g) && Sum(ps, f) == multiset{}
    ensures Sum(ps, g) == multiset{}
  {
    if ps != [] {
      assert f(ps[0]) <= Sum(ps, f) && Sum(ps[1..], f) <= Sum(ps, f);
      NoneSum(ps[1..], f, g);
    }
  }

  lemma {:induction false} NonePackages<T, U>(pkgs: seq<Package>, f: Sent -> multiset<T>, g: Sent -> multiset<U>)
    requires NoMore(f, g) && PackageSum(pkgs, f) == multiset{}
    ensures PackageSum(pkgs, g) == multiset{}
  {
    PackageJoin(pkgs, f);
    PackageJoin(pkgs, g);
    NoneSum(Join(pkgs), f, g);
  }

  lemma {:induction false} NoneOpen<T, U>(ss: seq<State>, f: Sent -> multiset<T>, g: Sent -> multiset<U>)
    requires NoMore(f, g) && OpenSum(ss, f) == multiset{}
    ensures OpenSum(ss, g) == multiset{}
  {
    hide NoMore;
    if ss != [] {
      assert Sum(Opened(ss[0]), f) <= OpenSum(ss, f);
      assert OpenSum(ss[1..], f) <= OpenSum(ss, f);
      NoneSum(Opened(ss[0]), f, g);
      NoneOpen(ss[1..], f, g);
    }
  }

  lemma NoneOut<T, U>(net: Net, c: Side, f: Sent -> multiset<T>, g: Sent -> multiset<U>)
    requires NoMore(f, g) && OutSum(net, c, f) == multiset{}
    ensures OutSum(net, c, g) == multiset{}
  {
    hide NoMore, Sum, PackageSum, OpenSum;
    var all := OutSum(net, c, f);
    assert OpenSum(net.peers.At(c).sessions, f) <= all;
    assert Sum(net.peers.At(c).reply, f) <= all;
    assert PackageSum(net.wires.At(!c), f) <= all;
    assert Sum(net.peers.At(!c).todo, f) <= all;
    NoneOpen(net.peers.At(c).sessions, f, g);
    NoneSum(net.peers.At(c).reply, f, g);
    NonePackages(net.wires.At(!c), f, g);
    NoneSum(net.peers.At(!c).todo, f, g);
  }

  // ----- packets under way -----

  /** p is on its way from side c to the other. */
  ghost predicate UnderWay(net: Net, c: Side, p: Sent)
  {
    var pkgs := net.wires.At(!c);
    || (exists k :: 0 <= k < |net.peers.At(c).sessions| && p in Opened(net.peers.At(c).sessions[k]))
    || p in net.peers.At(c).reply
    || (exists j :: 0 <= j < |pkgs| && p in pkgs[j])
    || p in net.peers.At(!c).todo
  }

  lemma {:induction false} SumHas<T>(ps: seq<Sent>, p: Sent, f: Sent -> multiset<T>)
    requires p in ps
    ensures f(p) <= Sum(ps, f)
  {
    if ps[0] != p {
      SumHas(ps[1..], p, f);
    }
  }

  lemma {:induction false} PackageHas<T>(pkgs: seq<Package>, j: nat, p: Sent, f: Sent -> multiset<T>)
    requires j < |pkgs| && p in pkgs[j]
    ensures f(p) <= PackageSum(pkgs, f)
  {
    if j == 0 {
      SumHas(pkgs[0], p, f);
    } else {
      PackageHas(pkgs[1..], j - 1, p, f);
    }
  }

  lemma {:induction false} OpenHas<T>(ss: seq<State>, k: nat, p: Sent, f: Sent -> multiset<T>)
    requires k < |ss| && p in Opened(ss[k])
    ensures f(p) <= OpenSum(ss, f)
  {
    if k == 0 {
      SumHas(Opened(ss[0]), p, f);
    } else {
      OpenHas(ss[1..], k - 1, p, f);
    }
  }

  /** Every packet under way is counted. */
  lemma OutHas<T>(net: Net, c: Side, p: Sent, f: Sent -> multiset<T>)
    requires UnderWay(net, c, p)
    ensures f(p) <= OutSum(net, c, f)
  {
    hide Sum, PackageSum, OpenSum;
    if p in net.peers.At(c).reply {
      SumHas(net.peers.At(c).reply, p, f);
    } else if p in net.peers.At(!c).todo {
      SumHas(net.peers.At(!c).todo, p, f);
    } else if k :| 0 <= k < |net.peers.At(c).sessions| && p in Opened(net.peers.At(c).sessions[k]) {
      OpenHas(net.peers.At(c).sessions, k, p, f);
    } else {
      var pkgs := net.wires.At(!c);
      var j :| 0 <= j < |pkgs| && p in pkgs[j];
      PackageHas(pkgs, j, p, f);
    }
  }
}
