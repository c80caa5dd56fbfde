/** The serving half of a session: implementations bound to interfaces, and requests that
    append their responses to the reply package under construction. */
module Service {
  import opened Wrappers
  import opened Bits
  import Collections
  import V = Varint
  import C = Codec
  import P = Package
  import F = Framing
  import M = SessionModel
  import N = Protocol
  import S = Session

  /** body: what the implementation returns for its arguments, as bytes. */
  datatype Method = Method(params: seq<C.Schema>, void: bool, body: seq<C.Value> -> seq<byte>)

  type Table = map<byte, map<byte, Method>>

  predicate Has(table: Table, h: C.Header)
  {
    h.interfaceId in table && h.methodId in table[h.interfaceId]
  }

  function MethodOf(table: Table, h: C.Header): Method
    requires Has(table, h)
  {
    table[h.interfaceId][h.methodId]
  }

  function ResponseHeader(h: C.Header): C.Header
  {
    h.(dir := C.RESPONSE)
  }

  /** The packets that serving the request h adds to the reply when its method returns
      result. */
  function Appended(table: Table, h: C.Header, result: seq<byte>): seq<seq<byte>>
  {
    if Has(table, h) && !MethodOf(table, h).void then [F.PacketBytes(F.Packet(ResponseHeader(h), result))] else []
  }

  class Invoker {
    /** The implementations, by interface and method. */
    var invokeMap: Table

    ghost predicate Valid()
      reads this
    {
      forall iid, mid | iid in invokeMap && mid in invokeMap[iid] :: WellTyped(invokeMap[iid][mid])
    }

    constructor ()
      ensures Valid() && invokeMap == map[]
    {
      invokeMap := map[];
    }

    /** emplace: the first implementation of an interface stays. */
    method Bind(iid: byte, methods: map<byte, Method>)
      requires Valid() && forall mid | mid in methods :: WellTyped(methods[mid])
      modifies this
      ensures Valid() && invokeMap == Bound(old(invokeMap), iid, methods)
    {
      if iid !in invokeMap {
        invokeMap := invokeMap[iid := methods];
      }
    }

    /** ran: whether an implementation was called.  ok: whether its arguments could be read. */
    method Invoke(h: C.Header, op: P.OutPackage, src: V.Source) returns (h': C.Header, ran: bool, ok: bool)
      requires Valid() && op.Valid() && op.Unfinished() == []
      modifies op, src
      ensures op.Valid() && ran == (ok && Has(invokeMap, h))
      ensures h' == if Has(invokeMap, h) && !MethodOf(invokeMap, h).void then ResponseHeader(h) else h
      ensures !Has(invokeMap, h) ==> ok && src.data == old(src.data) && op.packets == old(op.packets) && op.Unfinished() == []
      ensures Has(invokeMap, h) ==>
        match C.DecodeParts(MethodOf(invokeMap, h).params, old(src.data))
        case None => !ok && op.packets == old(op.packets)
        case Some((args, rest)) =>
          && ok && src.data == rest && op.Unfinished() == []
          && op.packets == old(op.packets) + Appended(invokeMap, h, MethodOf(invokeMap, h).body(args))
    {
      h', ran, ok := h, false, true;
      if h.interfaceId in invokeMap {
        if h.methodId in invokeMap[h.interfaceId] {
          var m := invokeMap[h.interfaceId][h.methodId];
          if m.void {
            ok := InvokeVoid(m, src);
            assert op.packets + [] == op.packets;
          } else {
            h', ok := InvokeWithResult(m, h, op, src);
          }
          ran := ok;
        }
      }
    }
  }

  predicate WellTyped(m: Method)
  {
    forall p | p in m.params :: C.WellFormed(p)
  }

  function Bound(table: Table, iid: byte, methods: map<byte, Method>): Table
  {
    if iid in table then table else table[iid := methods]
  }

  /** The body generated for a method that returns nothing: only its arguments are read. */
  method InvokeVoid(m: Method, src: V.Source) returns (ok: bool)
    requires WellTyped(m)
    modifies src
    ensures ok <==> C.DecodeParts(m.params, old(src.data)).Some?
    ensures ok ==> src.data == C.DecodeParts(m.params, old(src.data)).value.1
  {
    assert m.params[0..] == m.params;
    var args := C.DecodeTuple(src, m.params, 0);
    ok := args.Some?;
  }

  /** The body generated for a method that returns something: the header of the response is
      written before the arguments are read. */
  method InvokeWithResult(m: Method, h: C.Header, op: P.OutPackage, src: V.Source) returns (h': C.Header, ok: bool)
    requires WellTyped(m) && op.Valid() && op.Unfinished() == []
    modifies op, src
    ensures op.Valid() && h' == ResponseHeader(h)
    ensures match C.DecodeParts(m.params, old(src.data))
            case None => !ok && op.packets == old(op.packets) && op.Unfinished() == C.EncodeHeader(h')
            case Some((args, rest)) =>
              && ok && src.data == rest && op.Unfinished() == []
              && op.packets == old(op.packets) + [F.PacketBytes(F.Packet(h', m.body(args)))]
  {
    op.BeginPacket();
    h' := h.(dir := C.RESPONSE);
    op.Write(C.EncodeHeader(h'));
    assert [] + C.EncodeHeader(h') == C.EncodeHeader(h');
    assert m.params[0..] == m.params;
    var args := C.DecodeTuple(src, m.params, 0);
    if args.None? {
      return h', false;
    }
    op.Write(m.body(args.value));
    op.EndPacket();
    ok := true;
  }

  // ----- the two-peer system in bytes -----

  /** What the two-peer system keeps of a table. */
  function Names(table: Table): map<byte, set<byte>>
  {
    map iid | iid in table :: table[iid].Keys
  }

  lemma BindAsStep(net: N.Net, x: N.Side, k: nat, table: Table, iid: byte, methods: map<byte, Method>)
    requires N.Enabled(net, N.Bind(x, k, iid, methods.Keys)) && net.peers.At(x).bound[k] == Names(table)
    ensures N.Apply(net, N.Bind(x, k, iid, methods.Keys)).peers.At(x).bound[k] == Names(Bound(table, iid, methods))
  {
  }

  /** What Invoke appends for a request is what handling it adds to the reply of the peer. */
  lemma RepliesAsBytes(net: N.Net, x: N.Side, p: M.Sent, result: seq<byte>, reply: seq<M.Sent>, table: Table)
    requires var peer, h := net.peers.At(x), p.packet.header;
      && |peer.bound| == |peer.sessions| && h.dir == C.REQUEST && h.sessionId < |peer.sessions|
      && peer.bound[h.sessionId] == Names(table)
      && (Has(table, h) ==> (MethodOf(table, h).void <==> N.IsVoid(net, h)))
    ensures F.Raw(M.Untag(reply + N.Replies(net, x, p, result)))
         == F.Raw(M.Untag(reply)) + Appended(table, p.packet.header, result)
  {
    S.RawAppend(reply, N.ResponseTo(p, result));
    assert reply + [] == reply;
    assert F.Raw(M.Untag(reply)) + [] == F.Raw(M.Untag(reply));
    hide F.PacketBytes, F.Raw;
  }

  /** A response finds its way back: the id the client drew and the session it drew it in
      come back in a header whose other fields carry nothing the client reads. */
  lemma ResponseCarriesTag(p: M.Sent, result: seq<byte>, h: C.Header, t: seq<byte>)
    ensures var (got, rest) := C.DecodeHeader(h, F.PacketBytes(N.ResponseTo(p, result).packet) + t);
      && got.dir == 2 && rest == result + t
      && got.sessionId == p.packet.header.sessionId && got.operationId == p.packet.header.operationId
      && got.interfaceId == h.interfaceId && got.methodId == h.methodId && got.arity == h.arity
  {
    var sent := N.ResponseTo(p, result).packet;
    C.HeaderRoundTrip(h, sent.header, result + t);
    Collections.Associate(C.EncodeHeader(sent.header), result, t);
  }

  /** Of a packet, a handler gets everything that handling it in the two-peer system reads. */
  ghost predicate HandedOver(e: F.Event, p: F.Packet)
  {
    && e.body == p.body && e.header.dir == p.header.dir
    && e.header.sessionId == p.header.sessionId && e.header.operationId == p.header.operationId
    && (p.header.dir == C.REQUEST ==> e.header == p.header)
  }

  ghost predicate AllHandedOver(events: seq<F.Event>, pkg: N.Package)
  {
    |events| == |pkg| && forall i | 0 <= i < |pkg| :: HandedOver(events[i], pkg[i].packet)
  }

  lemma {:induction false} SeenHandsOver(h: C.Header, pkg: N.Package)
    ensures AllHandedOver(F.Seen(h, M.Untag(pkg)), pkg)
    decreases |pkg|
  {
    if pkg != [] {
      var ps, h' := M.Untag(pkg), C.Received(h, pkg[0].packet.header);
      SeenHandsOver(h', pkg[1..]);
      var more := F.Seen(h', M.Untag(pkg[1..]));
      assert ps[1..] == M.Untag(pkg[1..]);
      assert F.Seen(h, ps) == [F.Event(h', ps[0].body)] + more;
      FirstHandedOver(F.Event(h', ps[0].body), more, pkg);
    }
  }

  lemma FirstHandedOver(e: F.Event, more: seq<F.Event>, pkg: N.Package)
    requires pkg != [] && HandedOver(e, pkg[0].packet) && AllHandedOver(more, pkg[1..])
    ensures AllHandedOver([e] + more, pkg)
  {
    hide HandedOver;
    forall i | 0 <= i < |pkg|
      ensures HandedOver(([e] + more)[i], pkg[i].packet)
    {
      assert i > 0 ==> HandedOver(more[i - 1], pkg[1..][i - 1].packet);
    }
  }

  /** The bytes of any package of the two-peer system, of calls or of replies, are taken
      apart into the packets it is made of. */
  lemma PackageAsBytes(env: F.Env, pkg: N.Package)
    requires F.Good(env, M.Untag(pkg))
    ensures var (events, rx) := F.Got(env, P.Wire(F.Raw(M.Untag(pkg))));
      rx == F.IDLE && AllHandedOver(events, pkg)
  {
    F.OnePackage(env, M.Untag(pkg));
    SeenHandsOver(env.junk, pkg);
    hide F.Got, F.Good, P.Wire, F.Raw, F.Seen, AllHandedOver;
  }
}
