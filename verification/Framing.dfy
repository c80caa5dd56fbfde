/** The receiving side of a connection: a byte stream cut into packages, a package cut
    into packets, each packet handed to a handler that may read less than its share. */
module Framing {
  import Collections
  import opened Wrappers
  import opened Bits
  import V = Varint
  import C = Codec
  import P = Package
  import E = Endian

  /** A packet before it becomes bytes. */
  datatype Packet = Packet(header: C.Header, body: seq<byte>)

  function PacketBytes(p: Packet): (s: seq<byte>)
    ensures |s| >= 3
  {
    C.EncodeHeader(p.header) + p.body
  }

  function Raw(ps: seq<Packet>): (bs: seq<seq<byte>>)
    ensures |bs| == |ps|
  {
    if ps == [] then [] else [PacketBytes(ps[0])] + Raw(ps[1..])
  }

  function Bytes(ps: seq<Packet>): seq<byte>
  {
    P.Flatten(Raw(ps))
  }

  /** One call of a handler: the header it was given and the bytes of its own packet. */
  datatype Event = Event(header: C.Header, body: seq<byte>)

  /** take says how many bytes of the stream the handler reads after the header (none for
      an unknown session, interface or method); stub tells the two meanings of ignore
      apart; junk is what an uninitialised header holds. */
  datatype Env = Env(take: (C.Header, seq<byte>) -> nat, stub: bool, junk: C.Header)

  function Taken(env: Env, h: C.Header, s: seq<byte>): (n: nat)
    ensures n <= |s|
  {
    if env.take(h, s) <= |s| then env.take(h, s) else |s|
  }

  /** ignore(v).  Its callers say that it discards v bytes; as written it does nothing. */
  function Ignore(env: Env, v: nat, s: seq<byte>): seq<byte>
    requires v <= |s|
  {
    if env.stub then s else s[v..]
  }

  /** One round of the dispatch loop on a packet of the given size.  Stop: fewer bytes
      than that are left.  Over: the handler read past its packet. */
  datatype Round =
    | Stop
    | Over(event: Event, left: seq<byte>)
    | Next(event: Event, header: C.Header, left: seq<byte>)

  function DispatchOne(env: Env, size: nat, h: C.Header, s: seq<byte>): (r: Round)
    ensures r.Next? ==> |r.left| <= |s|
  {
    if |s| < size then Stop
    else
      var (h', rest) := C.DecodeHeader(h, s);
      var left := rest[Taken(env, h', rest)..];
      var e := Event(h', Own(|s| - |rest|, size, rest));
      var used := |s| - |left|;
      if used > size then Over(e, left) else Next(e, h', Ignore(env, size - used, left))
  }

  /** The part of the packet that follows its header. */
  function Own(header: nat, size: nat, rest: seq<byte>): seq<byte>
    requires size <= header + |rest|
  {
    if header <= size then rest[..size - header] else []
  }

  /** The dispatch loop: the calls made, the bytes left, and how many bytes were left
      after each round. */
  datatype Loop = Loop(events: seq<Event>, left: seq<byte>, marks: seq<nat>)

  function Dispatch(env: Env, sizes: seq<nat>, h: C.Header, s: seq<byte>): Loop
    decreases |sizes|
  {
    if sizes == [] then Loop([], s, [])
    else
      match DispatchOne(env, sizes[0], h, s)
      case Stop => Loop([], s, [])
      case Over(e, left) => Loop([e], left, [])
      case Next(e, h', next) =>
        var more := Dispatch(env, sizes[1..], h', next);
        Loop([e] + more.events, more.left, [|next|] + more.marks)
  }

  // ----- what the loop should do -----

  /** The calls a package of packets ps should cause.  A header read into h keeps the
      last fields of the one before it when a response arrives. */
  function Seen(h: C.Header, ps: seq<Packet>): seq<Event>
    decreases |ps|
  {
    if ps == [] then []
    else
      var h' := C.Received(h, ps[0].header);
      [Event(h', ps[0].body)] + Seen(h', ps[1..])
  }

  /** What should be left after each packet, t bytes following the last. */
  function Marks(ps: seq<Packet>, t: nat): seq<nat>
  {
    if ps == [] then [] else [|Bytes(ps[1..])| + t] + Marks(ps[1..], t)
  }

  /** The handler of p reads its own body at most, and all of it if nothing discards what
      it leaves. */
  predicate Within(env: Env, h: C.Header, p: Packet, rest: seq<byte>)
  {
    var n := Taken(env, C.Received(h, p.header), p.body + rest);
    if env.stub then n == |p.body| else n <= |p.body|
  }

  predicate WellBehaved(env: Env, h: C.Header, ps: seq<Packet>, t: seq<byte>)
    decreases |ps|
  {
    ps == [] ||
    (Within(env, h, ps[0], Bytes(ps[1..]) + t)
     && WellBehaved(env, C.Received(h, ps[0].header), ps[1..], t))
  }

  lemma BytesCons(ps: seq<Packet>, t: seq<byte>)
    requires ps != []
    ensures Bytes(ps) + t == C.EncodeHeader(ps[0].header) + (ps[0].body + (Bytes(ps[1..]) + t))
    ensures P.Sizes(Raw(ps)) == [|PacketBytes(ps[0])|] + P.Sizes(Raw(ps[1..]))
    ensures |Bytes(ps)| == |PacketBytes(ps[0])| + |Bytes(ps[1..])|
  {
    assert Raw(ps)[1..] == Raw(ps[1..]);
    var hd, body, tail := C.EncodeHeader(ps[0].header), ps[0].body, Bytes(ps[1..]);
    assert Bytes(ps) == hd + body + tail;
    Collections.Associate(hd + body, tail, t);
    Collections.Associate(hd, body, tail + t);
  }

  /** One round on a packet p that rest follows: what n bytes read by its handler lead to. */
  function Expected(env: Env, h: C.Header, p: Packet, rest: seq<byte>): Round
  {
    var h' := C.Received(h, p.header);
    var s := p.body + rest;
    var n := Taken(env, h', s);
    if n > |p.body| then Over(Event(h', p.body), s[n..])
    else Next(Event(h', p.body), h', Ignore(env, |p.body| - n, s[n..]))
  }

  lemma OneRound(env: Env, h: C.Header, p: Packet, rest: seq<byte>)
    ensures DispatchOne(env, |PacketBytes(p)|, h, C.EncodeHeader(p.header) + (p.body + rest))
         == Expected(env, h, p, rest)
  {
    C.HeaderRoundTrip(h, p.header, p.body + rest);
    assert (p.body + rest)[..|p.body|] == p.body;
  }

  lemma InStep(env: Env, h: C.Header, p: Packet, rest: seq<byte>)
    ensures Within(env, h, p, rest) ==>
              Expected(env, h, p, rest) == Next(Event(C.Received(h, p.header), p.body), C.Received(h, p.header), rest)
    ensures !Within(env, h, p, rest) && Expected(env, h, p, rest).Next? ==>
              |Expected(env, h, p, rest).left| != |rest|
  {
    var s := p.body + rest;
    assert s[|p.body|..] == rest;
    var n := Taken(env, C.Received(h, p.header), s);
    if n <= |p.body| {
      assert s[n..][|p.body| - n..] == rest;
    }
  }

  /** The first round on a package. */
  lemma FirstRound(env: Env, h: C.Header, ps: seq<Packet>, t: seq<byte>)
    requires ps != []
    ensures P.Sizes(Raw(ps)) != [] && P.Sizes(Raw(ps))[1..] == P.Sizes(Raw(ps[1..]))
    ensures DispatchOne(env, P.Sizes(Raw(ps))[0], h, Bytes(ps) + t) == Expected(env, h, ps[0], Bytes(ps[1..]) + t)
  {
    BytesCons(ps, t);
    OneRound(env, h, ps[0], Bytes(ps[1..]) + t);
  }

  /** The loop is back at a packet boundary after every round exactly when each handler
      keeps to its own packet: for the documented ignore, by reading no more than it; for
      ignore as written, by reading exactly it. */
  lemma {:induction false} Resynchronises(env: Env, h: C.Header, ps: seq<Packet>, t: seq<byte>)
    ensures Dispatch(env, P.Sizes(Raw(ps)), h, Bytes(ps) + t).marks == Marks(ps, |t|)
            <==> WellBehaved(env, h, ps, t)
    decreases |ps|
  {
    hide Bytes, Within, Expected, PacketBytes, C.Received, Taken, DispatchOne;
    if ps != [] {
      var rest, h' := Bytes(ps[1..]) + t, C.Received(h, ps[0].header);
      FirstRound(env, h, ps, t);
      InStep(env, h, ps[0], rest);
      if Within(env, h, ps[0], rest) {
        Resynchronises(env, h', ps[1..], t);
        SameTail(|rest|, Dispatch(env, P.Sizes(Raw(ps[1..])), h', rest).marks, Marks(ps[1..], |t|));
      } else {
        var marks := Dispatch(env, P.Sizes(Raw(ps)), h, Bytes(ps) + t).marks;
        assert marks == [] || marks[0] != |rest|;
        assert Marks(ps, |t|) == [|rest|] + Marks(ps[1..], |t|);
        assert Marks(ps, |t|)[0] == |rest|;
      }
    }
  }

  lemma SameTail(n: nat, a: seq<nat>, b: seq<nat>)
    ensures [n] + a == [n] + b <==> a == b
  {
    assert ([n] + a)[1..] == a && ([n] + b)[1..] == b;
  }

  /** ... and then every packet reaches its handler unchanged and in order. */
  lemma {:induction false} DispatchesAll(env: Env, h: C.Header, ps: seq<Packet>, t: seq<byte>)
    requires WellBehaved(env, h, ps, t)
    ensures Dispatch(env, P.Sizes(Raw(ps)), h, Bytes(ps) + t) == Loop(Seen(h, ps), t, Marks(ps, |t|))
    decreases |ps|
  {
    hide Within, Expected, PacketBytes, C.Received, Taken, DispatchOne;
    if ps == [] {
      assert Bytes(ps) + t == t;
    } else {
      var rest, h' := Bytes(ps[1..]) + t, C.Received(h, ps[0].header);
      FirstRound(env, h, ps, t);
      InStep(env, h, ps[0], rest);
      DispatchesAll(env, h', ps[1..], t);
      assert Dispatch(env, P.Sizes(Raw(ps[1..])), h', rest) == Loop(Seen(h', ps[1..]), t, Marks(ps[1..], |t|));
    }
  }

  /** Ignore as written: a request of one argument byte that nobody reads shifts the
      packet behind it, whose handler is then given another header. */
  lemma StubShifts(env: Env)
    requires env.stub && forall h, s :: env.take(h, s) == 0
    ensures var a := Packet(C.Header(C.REQUEST, 0, 0, 0, 0, 1), [7]);
            var b := Packet(C.Header(C.RESPONSE, 0, 5, 0, 0, 0), []);
            !WellBehaved(env, env.junk, [a, b], [])
            && Dispatch(env, P.Sizes(Raw([a, b])), env.junk, Bytes([a, b])).marks != Marks([a, b], 0)
  {
    var a := Packet(C.Header(C.REQUEST, 0, 0, 0, 0, 1), [7]);
    var b := Packet(C.Header(C.RESPONSE, 0, 5, 0, 0, 0), []);
    var ps := [a, b];
    assert Taken(env, C.Received(env.junk, a.header), a.body + (Bytes(ps[1..]) + [])) == 0;
    assert !Within(env, env.junk, ps[0], Bytes(ps[1..]) + []);
    Resynchronises(env, env.junk, ps, []);
    assert Bytes(ps) + [] == Bytes(ps);
  }

  // ----- the stream -----

  /** What the pending read waits for.  Hung: the size list of the last package had no
      end. */
  datatype Phase = AwaitSize | AwaitBody(size: nat) | Hung

  /** arrived: bytes the socket has and no read has taken; buffered: what the package
      buffer still holds. */
  datatype Rx = Rx(phase: Phase, arrived: seq<byte>, buffered: seq<byte>)

  const IDLE := Rx(AwaitSize, [], [])

  predicate Ready(rx: Rx)
  {
    match rx.phase
    case AwaitSize => |rx.arrived| >= 4
    case AwaitBody(n) => |rx.arrived| >= n
    case Hung => false
  }

  /** The package in the buffer: the calls it causes and what stays in the buffer. */
  function HandlePackage(env: Env, buf: seq<byte>): Option<(seq<Event>, seq<byte>)>
  {
    match P.UnpackSizes(buf)
    case None => None
    case Some((sizes, body)) =>
      var l := Dispatch(env, sizes, env.junk, body);
      Some((l.events, Ignore(env, |l.left|, l.left)))
  }

  /** One read completes. */
  function Advance(env: Env, rx: Rx): (seq<Event>, Rx)
    requires Ready(rx)
  {
    match rx.phase
    case AwaitSize =>
      var size := V.FromLittle(rx.arrived[..4]);
      ([], Rx(if size > 0 then AwaitBody(size) else AwaitSize, rx.arrived[4..], rx.buffered))
    case AwaitBody(n) =>
      match HandlePackage(env, rx.buffered + rx.arrived[..n]) {
        case None => ([], Rx(Hung, rx.arrived[n..], []))
        case Some((es, left)) => (es, Rx(AwaitSize, rx.arrived[n..], left))
      }
  }

  function Rank(p: Phase): nat
  {
    if p.AwaitBody? then 1 else 0
  }

  function Receive(env: Env, rx: Rx): (seq<Event>, Rx)
    decreases |rx.arrived|, Rank(rx.phase)
  {
    if Ready(rx) then
      var (es, rx') := Advance(env, rx);
      After(es, Receive(env, rx'))
    else ([], rx)
  }

  function After(es: seq<Event>, r: (seq<Event>, Rx)): (seq<Event>, Rx)
  {
    (es + r.0, r.1)
  }

  lemma AfterAfter(a: seq<Event>, b: seq<Event>, r: (seq<Event>, Rx))
    ensures After(a, After(b, r)) == After(a + b, r)
  {
    assert a + (b + r.0) == (a + b) + r.0;
  }

  lemma AfterNothing(r: (seq<Event>, Rx))
    ensures After([], r) == r
  {
    assert [] + r.0 == r.0;
  }

  function More(rx: Rx, b: seq<byte>): Rx
  {
    rx.(arrived := rx.arrived + b)
  }

  lemma AdvanceMore(env: Env, rx: Rx, b: seq<byte>)
    requires Ready(rx)
    ensures Ready(More(rx, b))
    ensures Advance(env, More(rx, b)) == (Advance(env, rx).0, More(Advance(env, rx).1, b))
  {
    var n := if rx.phase.AwaitSize? then 4 else rx.phase.size;
    assert (rx.arrived + b)[..n] == rx.arrived[..n];
    assert (rx.arrived + b)[n..] == rx.arrived[n..] + b;
  }

  /** How the stream is cut into reads makes no difference. */
  lemma {:induction false} Chunks(env: Env, rx: Rx, b: seq<byte>)
    ensures Receive(env, More(rx, b)) == After(Receive(env, rx).0, Receive(env, More(Receive(env, rx).1, b)))
    decreases |rx.arrived|, Rank(rx.phase)
  {
    if Ready(rx) {
      var a := Advance(env, rx);
      Chunks(env, a.1, b);
      AdvanceMore(env, rx, b);
      var r := Receive(env, a.1);
      AfterAfter(a.0, r.0, Receive(env, More(r.1, b)));
    } else {
      AfterNothing(Receive(env, More(rx, b)));
    }
  }

  // ----- streams of packages -----

  type Packets = seq<Packet>

  predicate WellSized(ps: Packets)
  {
    |P.Contents(Raw(ps))| < P.LIMIT
  }

  /** Whatever comes before and after p, its handler keeps to it. */
  ghost predicate Tame(env: Env, p: Packet)
  {
    forall h, rest :: Within(env, h, p, rest)
  }

  ghost predicate Good(env: Env, ps: Packets)
  {
    WellSized(ps) && forall i | 0 <= i < |ps| :: Tame(env, ps[i])
  }

  ghost predicate Sendable(env: Env, pkgs: seq<Packets>)
  {
    forall i | 0 <= i < |pkgs| :: Good(env, pkgs[i])
  }

  function Stream(pkgs: seq<Packets>): seq<byte>
  {
    if pkgs == [] then [] else P.Wire(Raw(pkgs[0])) + Stream(pkgs[1..])
  }

  function SeenAll(env: Env, pkgs: seq<Packets>): seq<Event>
  {
    if pkgs == [] then [] else Seen(env.junk, pkgs[0]) + SeenAll(env, pkgs[1..])
  }

  /** How many of the packages are complete within the first n bytes of their stream. */
  function Complete(pkgs: seq<Packets>, n: nat): (k: nat)
    ensures k <= |pkgs|
  {
    if pkgs == [] || n < |P.Wire(Raw(pkgs[0]))| then 0
    else 1 + Complete(pkgs[1..], n - |P.Wire(Raw(pkgs[0]))|)
  }

  /** What an idle connection makes of the bytes s. */
  function Got(env: Env, s: seq<byte>): (seq<Event>, Rx)
  {
    Receive(env, More(IDLE, s))
  }

  lemma {:induction false} TameBehaves(env: Env, h: C.Header, ps: Packets, t: seq<byte>)
    requires forall i | 0 <= i < |ps| :: Tame(env, ps[i])
    ensures WellBehaved(env, h, ps, t)
    decreases |ps|
  {
    if ps != [] {
      assert Tame(env, ps[0]);
      TameBehaves(env, C.Received(h, ps[0].header), ps[1..], t);
    }
  }

  lemma {:induction false} NoEmptyPacket(ps: Packets)
    ensures 0 !in P.Sizes(Raw(ps))
  {
    if ps != [] {
      NoEmptyPacket(ps[1..]);
      BytesCons(ps, []);
    }
  }

  lemma ContentsUnpack(ps: Packets)
    requires WellSized(ps)
    ensures P.UnpackSizes(P.Contents(Raw(ps))) == Some((P.Sizes(Raw(ps)), Bytes(ps)))
    ensures |P.Contents(Raw(ps))| > 0
  {
    var ns := P.Sizes(Raw(ps));
    P.SizesBelow(Raw(ps));
    P.SizesSum(Raw(ps));
    NoEmptyPacket(ps);
    P.SizesRoundTrip(ns, Bytes(ps));
    Collections.Associate(P.EncodeSizes(ns), P.Terminator(), Bytes(ps));
  }

  lemma HandlesPackage(env: Env, ps: Packets)
    requires Good(env, ps)
    ensures HandlePackage(env, P.Contents(Raw(ps))) == Some((Seen(env.junk, ps), []))
  {
    ContentsUnpack(ps);
    TameBehaves(env, env.junk, ps, []);
    DispatchesAll(env, env.junk, ps, []);
    assert Bytes(ps) + [] == Bytes(ps);
  }

  lemma WireParts(ps: Packets)
    requires WellSized(ps)
    ensures |P.Wire(Raw(ps))| >= 4
    ensures P.Wire(Raw(ps))[4..] == P.Contents(Raw(ps))
    ensures V.FromLittle(P.Wire(Raw(ps))[..4]) == |P.Contents(Raw(ps))|
  {
    SizeField(|P.Contents(Raw(ps))|, P.Contents(Raw(ps)));
  }

  lemma SizeField(n: nat, c: seq<byte>)
    requires n < P.LIMIT
    ensures (V.Little(n % P.WORD, 4) + c)[4..] == c
    ensures V.FromLittle((V.Little(n % P.WORD, 4) + c)[..4]) == n
  {
    hide Pow2, V.Little, V.FromLittle;
    P.Pow2Word();
    V.LittleRoundTrip(n, 4);
    TakeFour(V.Little(n, 4), c);
  }

  lemma TakeFour(a: seq<byte>, c: seq<byte>)
    requires |a| == 4
    ensures (a + c)[4..] == c && (a + c)[..4] == a
  {
  }

  lemma SizeRead(env: Env, ps: Packets, n: nat)
    requires WellSized(ps) && 4 <= n <= |P.Wire(Raw(ps))|
    ensures var rx := More(IDLE, P.Wire(Raw(ps))[..n]);
            Ready(rx) && Advance(env, rx) == ([], Rx(AwaitBody(|P.Contents(Raw(ps))|), P.Contents(Raw(ps))[..n - 4], []))
  {
    WireParts(ps);
    ContentsUnpack(ps);
    TakeTwice(P.Wire(Raw(ps)), n);
  }

  lemma TakeTwice(w: seq<byte>, n: nat)
    requires 4 <= n <= |w|
    ensures More(IDLE, w[..n]).arrived == w[..n]
    ensures w[..n][..4] == w[..4] && w[..n][4..] == w[4..][..n - 4]
  {
  }

  lemma BodyRead(env: Env, ps: Packets)
    requires Good(env, ps)
    ensures var rx := Rx(AwaitBody(|P.Contents(Raw(ps))|), P.Contents(Raw(ps)), []);
            Ready(rx) && Advance(env, rx) == (Seen(env.junk, ps), IDLE)
  {
    var c := P.Contents(Raw(ps));
    HandlesPackage(env, ps);
    assert [] + c[..|c|] == c && c[|c|..] == [];
  }

  lemma ReceiveStep(env: Env, rx: Rx, es: seq<Event>, rx': Rx, r: (seq<Event>, Rx))
    requires Ready(rx) && Advance(env, rx) == (es, rx') && Receive(env, rx') == r
    ensures Receive(env, rx) == After(es, r)
  {
  }

  lemma ReceiveStop(env: Env, rx: Rx)
    requires !Ready(rx)
    ensures Receive(env, rx) == ([], rx)
  {
  }

  /** A whole package: exactly its packets are dispatched and nothing stays behind. */
  lemma OnePackage(env: Env, ps: Packets)
    requires Good(env, ps)
    ensures Got(env, P.Wire(Raw(ps))) == (Seen(env.junk, ps), IDLE)
  {
    hide P.Wire, P.Contents, Advance, Receive, Seen, Raw;
    var w, c := P.Wire(Raw(ps)), P.Contents(Raw(ps));
    WireParts(ps);
    SizeRead(env, ps, |w|);
    TakeAll(w);
    TakeAll(c);
    BodyRead(env, ps);
    TwoReads(env, More(IDLE, w), Rx(AwaitBody(|c|), c, []), Seen(env.junk, ps));
  }

  lemma TakeAll(s: seq<byte>)
    ensures s[..|s|] == s
  {
  }

  lemma TwoReads(env: Env, rx0: Rx, rx1: Rx, es: seq<Event>)
    requires Ready(rx0) && Advance(env, rx0) == ([], rx1)
    requires Ready(rx1) && Advance(env, rx1) == (es, IDLE)
    ensures Receive(env, rx0) == (es, IDLE)
  {
    ReceiveStop(env, IDLE);
    ReceiveStep(env, rx1, es, IDLE, ([], IDLE));
    assert es + [] == es && [] + es == es;
    ReceiveStep(env, rx0, [], rx1, (es, IDLE));
  }

  /** A package that is not complete causes no call. */
  lemma PartPackage(env: Env, ps: Packets, n: nat)
    requires WellSized(ps) && n < |P.Wire(Raw(ps))|
    ensures Got(env, P.Wire(Raw(ps))[..n]).0 == []
  {
    WireParts(ps);
    var rx := More(IDLE, P.Wire(Raw(ps))[..n]);
    if n < 4 {
      ReceiveStop(env, rx);
    } else {
      SizeRead(env, ps, n);
      var rx' := Rx(AwaitBody(|P.Contents(Raw(ps))|), P.Contents(Raw(ps))[..n - 4], []);
      ReceiveStop(env, rx');
      ReceiveStep(env, rx, [], rx', ([], rx'));
    }
  }

  lemma GotAppend(env: Env, w: seq<byte>, b: seq<byte>, es: seq<Event>)
    requires Got(env, w) == (es, IDLE)
    ensures Got(env, w + b) == After(es, Got(env, b))
  {
    Chunks(env, More(IDLE, w), b);
    Collections.Associate(IDLE.arrived, w, b);
  }

  lemma TakeAcross(w: seq<byte>, t: seq<byte>, n: nat)
    requires |w| <= n <= |w| + |t|
    ensures (w + t)[..n] == w + t[..n - |w|]
  {
  }

  /** After any n bytes of a stream of packages, exactly the packets of the packages
      complete by then have been dispatched, unchanged and in order. */
  lemma {:induction false} StreamPrefix(env: Env, pkgs: seq<Packets>, n: nat)
    requires Sendable(env, pkgs) && n <= |Stream(pkgs)|
    ensures Got(env, Stream(pkgs)[..n]).0 == SeenAll(env, pkgs[..Complete(pkgs, n)])
    ensures n == |Stream(pkgs)| ==> Got(env, Stream(pkgs)[..n]).1 == IDLE
    decreases |pkgs|
  {
    hide P.Wire;
    if pkgs == [] {
      assert More(IDLE, Stream(pkgs)[..n]) == IDLE;
      ReceiveStop(env, IDLE);
    } else if n < |P.Wire(Raw(pkgs[0]))| {
      assert Stream(pkgs)[..n] == P.Wire(Raw(pkgs[0]))[..n];
      PartPackage(env, pkgs[0], n);
    } else {
      StreamPrefix(env, pkgs[1..], n - |P.Wire(Raw(pkgs[0]))|);
      hide Got, SeenAll, Complete, Seen, Raw;
      StreamStep(env, pkgs, n);
      CompleteCons(env, pkgs, n);
    }
  }

  lemma StreamStep(env: Env, pkgs: seq<Packets>, n: nat)
    requires Sendable(env, pkgs) && pkgs != [] && |P.Wire(Raw(pkgs[0]))| <= n <= |Stream(pkgs)|
    ensures n - |P.Wire(Raw(pkgs[0]))| <= |Stream(pkgs[1..])|
    ensures Got(env, Stream(pkgs)[..n])
         == After(Seen(env.junk, pkgs[0]), Got(env, Stream(pkgs[1..])[..n - |P.Wire(Raw(pkgs[0]))|]))
  {
    hide Got, P.Wire, Good, After, Seen, Receive, Raw;
    var w, t := P.Wire(Raw(pkgs[0])), Stream(pkgs[1..]);
    OnePackage(env, pkgs[0]);
    TakeAcross(w, t, n);
    GotAppend(env, w, t[..n - |w|], Seen(env.junk, pkgs[0]));
  }

  lemma CompleteCons(env: Env, pkgs: seq<Packets>, n: nat)
    requires pkgs != [] && n >= |P.Wire(Raw(pkgs[0]))|
    ensures var k := Complete(pkgs[1..], n - |P.Wire(Raw(pkgs[0]))|);
            SeenAll(env, pkgs[..Complete(pkgs, n)]) == Seen(env.junk, pkgs[0]) + SeenAll(env, pkgs[1..][..k])
  {
    var k := Complete(pkgs[1..], n - |P.Wire(Raw(pkgs[0]))|);
    assert pkgs[..k + 1][1..] == pkgs[1..][..k];
  }

  /** The whole stream: everything sent is dispatched and the connection is idle, with
      nothing buffered. */
  lemma WholeStream(env: Env, pkgs: seq<Packets>)
    requires Sendable(env, pkgs)
    ensures Got(env, Stream(pkgs)) == (SeenAll(env, pkgs), IDLE)
  {
    StreamPrefix(env, pkgs, |Stream(pkgs)|);
    CompleteAll(pkgs);
    assert Stream(pkgs)[..|Stream(pkgs)|] == Stream(pkgs);
    assert pkgs[..|pkgs|] == pkgs;
  }

  lemma {:induction false} CompleteAll(pkgs: seq<Packets>)
    ensures Complete(pkgs, |Stream(pkgs)|) == |pkgs|
  {
    if pkgs != [] {
      CompleteAll(pkgs[1..]);
    }
  }

  /** A size of zero announces no package: an idle connection listens on. */
  lemma EmptyFrame(env: Env, s: seq<byte>)
    ensures Got(env, [0, 0, 0, 0] + s) == Got(env, s)
  {
    var zeros := [0, 0, 0, 0];
    assert (zeros + s)[..4] == zeros && (zeros + s)[4..] == s;
    assert More(IDLE, zeros + s).arrived == zeros + s && More(IDLE, s).arrived == s;
    ZeroSize();
    ReceiveStep(env, More(IDLE, zeros + s), [], More(IDLE, s), Got(env, s));
    AfterNothing(Got(env, s));
  }

  lemma ZeroSize()
    ensures V.FromLittle([0, 0, 0, 0]) == 0
  {
    assert [0, 0, 0, 0][1..] == [0, 0, 0] && [0, 0, 0][1..] == [0, 0] && [0, 0][1..] == [0] && [0][1..] == [];
    assert V.FromLittle([0]) == 0 + 256 * V.FromLittle([]) == 0;
    assert V.FromLittle([0, 0]) == 0 + 256 * V.FromLittle([0]);
    assert V.FromLittle([0, 0, 0]) == 0 + 256 * V.FromLittle([0, 0]);
  }

  // ----- the connection -----

  class Connection {
    const env: Env
    const machine: E.Machine
    var phase: Phase
    var arrived: seq<byte>
    var buffered: seq<byte>

    /** The calls of handlers, in order. */
    var events: seq<Event>

    function State(): Rx
      reads this
    {
      Rx(phase, arrived, buffered)
    }

    constructor (env: Env, machine: E.Machine)
      ensures this.env == env && this.machine == machine && State() == IDLE && events == []
    {
      this.env, this.machine := env, machine;
      phase, arrived, buffered, events := AwaitSize, [], [], [];
    }

    /** Bytes arrive; every read they complete is handled. */
    method OnData(chunk: seq<byte>)
      modifies this
      ensures (events, State()) == After(old(events), Receive(env, More(old(State()), chunk)))
    {
      ghost var goal := After(events, Receive(env, More(State(), chunk)));
      arrived := arrived + chunk;
      while Ready(State())
        invariant goal == After(events, Receive(env, State()))
        decreases |arrived|, Rank(phase)
      {
        AfterAfter(events, Advance(env, State()).0, Receive(env, Advance(env, State()).1));
        if phase.AwaitSize? {
          HandleReadPackageSize();
        } else {
          HandleReadPackage();
        }
      }
      assert events + [] == events;
    }

    method HandleReadPackageSize()
      requires phase.AwaitSize? && Ready(State())
      modifies this
      ensures (events, State()) == (old(events) + Advance(env, old(State())).0, Advance(env, old(State())).1)
    {
      var size := P.UnpackSize(machine, arrived[..4]);
      arrived := arrived[4..];
      if size > 0 {
        phase := AwaitBody(size);
      }
      assert old(events) + [] == events;
    }

    method HandleReadPackage()
      requires phase.AwaitBody? && Ready(State())
      modifies this
      ensures (events, State()) == (old(events) + Advance(env, old(State())).0, Advance(env, old(State())).1)
    {
      var n := phase.size;
      var buf := buffered + arrived[..n];
      arrived := arrived[n..];
      if P.UnpackSizes(buf).None? {
        // unpack_packet_sizes does not return
        phase, buffered := Hung, [];
        assert events + [] == events;
        return;
      }
      var src := new V.Source(buf);
      var sizes := P.UnpackPacketSizes(src);
      var made, left := DispatchLoop(src, sizes);
      events := events + made;
      buffered := Ignore(env, |left|, left);
      phase := AwaitSize;
    }

    method DispatchLoop(src: V.Source, sizes: seq<nat>) returns (made: seq<Event>, left: seq<byte>)
      modifies src
      ensures made == Dispatch(env, sizes, env.junk, old(src.data)).events
      ensures left == Dispatch(env, sizes, env.junk, old(src.data)).left
    {
      ghost var goal := Dispatch(env, sizes, env.junk, src.data);
      var h := env.junk;
      made := [];
      var i := 0;
      assert sizes[0..] == sizes;
      assert [] + goal.events == goal.events;
      while i < |sizes|
        invariant 0 <= i <= |sizes|
        invariant goal.events == made + Dispatch(env, sizes[i..], h, src.data).events
        invariant goal.left == Dispatch(env, sizes[i..], h, src.data).left
      {
        assert sizes[i..][0] == sizes[i] && sizes[i..][1..] == sizes[i + 1..];
        var r := DispatchPacket(src, sizes[i], h);
        match r {
          case Stop =>
            break;
          case Over(e, rest) =>
            return made + [e], src.data;
          case Next(e, h', rest) =>
            ghost var more := Dispatch(env, sizes[i + 1..], h', rest).events;
            Collections.Associate(made, [e], more);
            h, made := h', made + [e];
        }
        i := i + 1;
      }
      assert made + [] == made;
      left := src.data;
    }

    method DispatchPacket(src: V.Source, packetSize: nat, h: C.Header) returns (r: Round)
      modifies src
      ensures r == DispatchOne(env, packetSize, h, old(src.data))
      ensures src.data == if r.Stop? then old(src.data) else r.left
    {
      hide C.DecodeHeader, Taken;
      var inAvail := |src.data|;
      if inAvail < packetSize {
        return Stop;
      }
      var h' := C.ReadHeader(src, h);
      var e := Event(h', Own(inAvail - |src.data|, packetSize, src.data));
      src.data := src.data[Taken(env, h', src.data)..];
      // what the handler left of its packet
      var bytesLeft := packetSize - (inAvail - |src.data|);
      if bytesLeft < 0 {
        return Over(e, src.data);
      }
      src.data := Ignore(env, bytesLeft, src.data);
      r := Next(e, h', src.data);
    }
  }
}
