/** Routing of packets in (to a shard) and of answers out (to a protocol and
    descriptor), both through the session table. */
module Routing {
  import opened Words
  import opened Bytes
  import opened Wire
  import opened Sessions
  import opened Shard

  /** The upper half of a session id fixes its shard. */
  function SelectShard(sid: nat, shards: nat): (k: nat)
    requires shards > 0
    ensures k < shards
  {
    sid / 0x1_0000_0000 % shards
  }

  /** The shard depends on the upper half of the id alone, and successive upper halves go
      round all shards in turn. */
  lemma ShardsInTurn(upper: nat, low: nat, shards: nat)
    requires shards > 0 && low < 0x1_0000_0000
    ensures SelectShard(upper * 0x1_0000_0000 + low, shards) == SelectShard(upper * 0x1_0000_0000, shards)
    ensures upper < shards ==> SelectShard(upper * 0x1_0000_0000 + low, shards) == upper
    ensures SelectShard((upper + shards) * 0x1_0000_0000 + low, shards) ==
            SelectShard(upper * 0x1_0000_0000 + low, shards)
  {
    UpperHalf(upper, low);
    UpperHalf(upper, 0);
    UpperHalf(upper + shards, low);
    RoundTheShards(upper, shards);
  }

  lemma UpperHalf(upper: nat, low: nat)
    requires low < 0x1_0000_0000
    ensures (upper * 0x1_0000_0000 + low) / 0x1_0000_0000 == upper
  {
  }

  lemma RoundTheShards(upper: nat, shards: nat)
    requires shards > 0
    ensures (upper + shards) % shards == upper % shards && (upper < shards ==> upper % shards == upper)
  {
    var q, r := upper / shards, upper % shards;
    assert upper == q * shards + r;
    assert (q + 1) * shards == q * shards + shards;
    RemainderUnique(upper + shards, shards, q + 1, r);
    if upper < shards { RemainderUnique(upper, shards, 0, upper); }
  }

  // ---- In ----

  /** The event a parsed packet stands for, by the layout of its body. */
  ghost function EventOf(p: Parsed, sid: nat): Option<Event>
    requires p.Valid()
  {
    if p.opcode == LOGIN_REQ then
      if exists f, rest :: LoginLayout(p.Body(), f, rest) then
        var f, rest :| LoginLayout(p.Body(), f, rest);
        Some(LoginReq(sid, f.id, f.pw))
      else None
    else if p.opcode == LOBBY_ENTRY_REQ then
      if p.bodyLen == 0 then Some(LobbyEntryReq(sid)) else None
    else if p.opcode == PING_REQ then
      var f := ParsePingReq(p.Body());
      if f.Some? then Some(PingReq(sid, f.value.nonce, f.value.clientTs)) else None
    else None
  }

  datatype Routed = Routed(shard: nat, sid: nat, event: Event)

  datatype Inbound = Inbound(table: Table, routed: Option<Routed>)

  /** Whether a packet asks for a new session. */
  predicate OpensSession(p: Parsed)
  {
    p.opcode == LOGIN_REQ && p.sessionId == 0
  }

  /** What a packet does to the session table and where it goes. */
  ghost function Route(t: Table, from: Origin, payload: seq<Byte>, newId: nat, shards: nat): (r: Inbound)
    requires shards > 0 && newId != 0
    ensures r.routed.Some? ==> r.routed.value.shard == SelectShard(r.routed.value.sid, shards)
    ensures r.routed.Some? ==> r.routed.value.sid != 0 && r.routed.value.sid in r.table.sessions
  {
    match Parse(payload)
    case None => Inbound(t, None)
    case Some(p) =>
      var sid := if OpensSession(p) then newId else p.sessionId;
      if OpensSession(p) && from.fd in t.fdIndex then Inbound(t, None)
      else if !OpensSession(p) && (sid == 0 || sid !in t.sessions) then Inbound(t, None)
      else
        var t' := Apply(t, if OpensSession(p) then Create(from, newId) else CheckAndBind(sid, from));
        var e := EventOf(p, sid);
        Inbound(t', if e.Some? then Some(Routed(SelectShard(sid, shards), sid, e.value)) else None)
  }

  /** Packets of a known session reach its shard as what the client meant: a ping with
      its two numbers, a lobby entry only with an empty body. */
  lemma KnownSessionsAreServed(t: Table, from: Origin, sid: nat, nonce: nat, clientTs: nat, body: seq<Byte>,
                               newId: nat, shards: nat)
    requires shards > 0 && newId != 0 && 0 < sid < ID_LIMIT && sid in t.sessions
    requires nonce < ID_LIMIT && clientTs < ID_LIMIT && |body| < 0x1_0000
    ensures Route(t, from, Packet(PING_REQ, sid, Be64(nonce) + Be64(clientTs)), newId, shards).routed ==
            Some(Routed(SelectShard(sid, shards), sid, PingReq(sid, nonce, clientTs)))
    ensures Route(t, from, Packet(LOBBY_ENTRY_REQ, sid, body), newId, shards).routed ==
            if body == [] then Some(Routed(SelectShard(sid, shards), sid, LobbyEntryReq(sid))) else None
  {
    PacketRoundTrip(PING_REQ, sid, Be64(nonce) + Be64(clientTs));
    PingRoundTrip(nonce, clientTs);
    KnownSessionRouted(t, from, Packet(PING_REQ, sid, Be64(nonce) + Be64(clientTs)), newId, shards);
    PacketRoundTrip(LOBBY_ENTRY_REQ, sid, body);
    KnownSessionRouted(t, from, Packet(LOBBY_ENTRY_REQ, sid, body), newId, shards);
  }

  /** Of a known session's packets exactly these get anywhere: a login request of two fields, a
      lobby request without a body, a ping of 16 bytes. */
  lemma RoutedIff(t: Table, from: Origin, sid: nat, opcode: Byte, body: seq<Byte>, newId: nat, shards: nat)
    requires shards > 0 && newId != 0 && 0 < sid < ID_LIMIT && sid in t.sessions && |body| < 0x1_0000
    ensures Route(t, from, Packet(opcode, sid, body), newId, shards).routed.Some? <==>
            || (opcode == 0x10 && exists f, rest :: LoginLayout(body, f, rest))
            || (opcode == 0x20 && body == [])
            || (opcode == 0x90 && |body| == 16)
  {
    PacketRoundTrip(opcode, sid, body);
    KnownSessionRouted(t, from, Packet(opcode, sid, body), newId, shards);
  }

  /** Packets of unknown sessions, and logins of a descriptor that is indexed, are dropped and
      change nothing. */
  lemma StrangersChangeNothing(t: Table, from: Origin, sid: nat, opcode: Byte, body: seq<Byte>, newId: nat, shards: nat)
    requires shards > 0 && newId != 0 && sid < ID_LIMIT && |body| < 0x1_0000
    requires if opcode == 0x10 && sid == 0 then from.fd in t.fdIndex else sid == 0 || sid !in t.sessions
    ensures Route(t, from, Packet(opcode, sid, body), newId, shards) == Inbound(t, None)
  {
    PacketRoundTrip(opcode, sid, body);
  }

  lemma KnownSessionRouted(t: Table, from: Origin, payload: seq<Byte>, newId: nat, shards: nat)
    requires shards > 0 && newId != 0 && Parse(payload).Some? && !OpensSession(Parse(payload).value)
    requires Parse(payload).value.sessionId != 0 && Parse(payload).value.sessionId in t.sessions
    ensures var p := Parse(payload).value;
      Route(t, from, payload, newId, shards).routed ==
      match EventOf(p, p.sessionId)
      case Some(e) => Some(Routed(SelectShard(p.sessionId, shards), p.sessionId, e))
      case None => None
  {
  }

  /** The event factory. */
  method CreateEvent(p: Parsed, sid: nat) returns (e: Option<Event>)
    requires p.Valid()
    ensures e == EventOf(p, sid)
  {
    if p.opcode == LOGIN_REQ {
      var f := ParseLoginReq(p.Body());
      if f.None? { return None; }
      forall g, more | LoginLayout(p.Body(), g, more) ensures g == f.value {
        var rest :| LoginLayout(p.Body(), f.value, rest);
        LoginLayoutUnique(p.Body(), f.value, rest, g, more);
      }
      return Some(LoginReq(sid, f.value.id, f.value.pw));
    }
    if p.opcode == LOBBY_ENTRY_REQ {
      return if p.bodyLen != 0 then None else Some(LobbyEntryReq(sid));
    }
    if p.opcode == PING_REQ {
      var f := ParsePingReq(p.Body());
      return if f.None? then None else Some(PingReq(sid, f.value.nonce, f.value.clientTs));
    }
    return None;
  }

  /** `RxRouter::handlePacket`, up to the dispatch. */
  method HandleIncoming(sm: SessionManager, from: Origin, payload: seq<Byte>, newId: nat, shards: nat)
    returns (r: Option<Routed>)
    requires shards > 0 && newId != 0
    modifies sm
    ensures Inbound(sm.View(), r) == Route(old(sm.View()), from, payload, newId, shards)
  {
    var parsed := Parse(payload);
    if parsed.None? { return None; }
    var p := parsed.value;
    var sid := p.sessionId;
    if OpensSession(p) {
      var created := sm.CreateSession(from, newId);
      if created.None? { return None; }
      sid := created.value;
    } else {
      var ok := sm.BindSession(sid, from);
      if !ok { return None; }
    }
    if sid == 0 { return None; }
    var event := CreateEvent(p, sid);
    if event.None? { return None; }
    r := Some(Routed(SelectShard(sid, shards), sid, event.value));
  }

  // ---- Out ----

  /** The protocol each kind of answer travels over. */
  function ProtocolOf(opcode: Byte): Option<Protocol>
  {
    if opcode == LOGIN_SUCCESS_RES || opcode == LOGIN_FAIL_RES then Some(Tls)
    else if opcode == LOBBY_ENTRY_RES then Some(Tcp)
    else if opcode == PING_RES then Some(Udp)
    else None
  }

  function FdFor(s: Session, p: Protocol): int
  {
    match p
    case Tls => s.tlsFd
    case Tcp => s.tcpFd
    case Udp => s.udpFd
    case UnknownProtocol => -1
  }

  /** What sending an answer does to the table. */
  function Settle(t: Table, sid: nat, opcode: Byte): Table
  {
    if opcode == LOGIN_SUCCESS_RES then Apply(t, SetState(sid, Auth))
    else if opcode == LOGIN_FAIL_RES then Apply(t, Erase(sid))
    else if opcode == LOBBY_ENTRY_RES then Apply(t, SetState(sid, InWorld))
    else t
  }

  /** A packet on its way out: source and destination are those of the session's last packet,
      swapped. */
  datatype Outgoing = Outgoing(connInfo: ConnInfo, fd: int, payload: seq<Byte>)

  function Swapped(p: Protocol, c: ConnInfo): ConnInfo
  {
    ConnInfo(p, c.dstIp, c.dstPort, c.srcIp, c.srcPort)
  }

  /** The packet an answer becomes, if its session is known and its kind has a protocol. */
  function Send(t: Table, sid: nat, opcode: Byte, payload: seq<Byte>): Option<Outgoing>
  {
    if sid !in t.sessions || ProtocolOf(opcode).None? then None
    else
      var p, s := ProtocolOf(opcode).value, t.sessions[sid];
      Some(Outgoing(Swapped(p, s.connInfo), FdFor(s, p), payload))
  }

  /** `TxRouter::handlePacket`: the address is taken from the table before the state
      changes, so that even the answer to a failed login, whose session is erased,
      has somewhere to go. */
  method HandleOutgoing(sm: SessionManager, sid: nat, opcode: Byte, payload: seq<Byte>)
    returns (out: Option<Outgoing>)
    modifies sm
    ensures out == Send(old(sm.View()), sid, opcode, payload)
    ensures sm.View() == if out.Some? then Settle(old(sm.View()), sid, opcode) else old(sm.View())
  {
    if sid !in sm.sessions || ProtocolOf(opcode).None? { return None; }
    var protocol := ProtocolOf(opcode).value;
    var session := sm.sessions[sid];
    if opcode == LOGIN_SUCCESS_RES {
      sm.ChangeState(sid, Auth);
    } else if opcode == LOGIN_FAIL_RES {
      sm.EraseSession(sid);
    } else if opcode == LOBBY_ENTRY_RES {
      sm.ChangeState(sid, InWorld);
    }
    out := Some(Outgoing(Swapped(protocol, session.connInfo), FdFor(session, protocol), payload));
  }

  /** Nothing is sent, and nothing changes, for an unknown session or a kind of packet that
      the server does not send. */
  lemma NothingElseIsSent(t: Table, sid: nat, opcode: Byte, payload: seq<Byte>)
    ensures Send(t, sid, opcode, payload).Some? <==>
            sid in t.sessions && (opcode == 0x11 || opcode == 0x12 || opcode == 0x21 || opcode == 0x91)
    ensures Send(t, sid, opcode, payload).Some? ==> Send(t, sid, opcode, payload).value.payload == payload
  {
  }

  // ---- Requests and their answers ----

  /** What a packet with the id of a known session does to the table: it is bound to where the
      packet came from, even if its body is then rejected. */
  lemma KnownSessionBound(t: Table, from: Origin, sid: nat, opcode: Byte, body: seq<Byte>, newId: nat, shards: nat)
    requires shards > 0 && newId != 0 && 0 < sid < ID_LIMIT && sid in t.sessions && |body| < 0x1_0000
    ensures Route(t, from, Packet(opcode, sid, body), newId, shards).table == ApplyFrom(t, [CheckAndBind(sid, from)])
  {
    PacketRoundTrip(opcode, sid, body);
    assert [CheckAndBind(sid, from)][..0] == [];
  }

  /** A request and calls after it are calls from before it. */
  lemma {:induction false} ApplyAfter(t: Table, op: Op, ops: seq<Op>)
    ensures ApplyFrom(ApplyFrom(t, [op]), ops) == ApplyFrom(t, [op] + ops)
    decreases |ops|
  {
    if ops == [] {
      assert [op] + ops == [op];
    } else {
      ApplyAfter(t, op, ops[..|ops| - 1]);
      assert ([op] + ops)[..|ops|] == [op] + ops[..|ops| - 1];
    }
  }

  /** The session after a packet with its id and any calls that do not erase it. */
  lemma BoundSession(t: Table, from: Origin, sid: nat, opcode: Byte, body: seq<Byte>, newId: nat, shards: nat,
                     ops: seq<Op>)
    requires shards > 0 && newId != 0 && 0 < sid < ID_LIMIT && sid in t.sessions && |body| < 0x1_0000
    requires Erase(sid) !in ops
    ensures var r := ApplyFrom(Route(t, from, Packet(opcode, sid, body), newId, shards).table, ops);
      var all := [CheckAndBind(sid, from)] + ops;
      && sid in r.sessions
      && r.sessions[sid].tcpFd == LastFd(all, sid, Tcp, t.sessions[sid].tcpFd)
      && r.sessions[sid].udpFd == LastFd(all, sid, Udp, t.sessions[sid].udpFd)
      && r.sessions[sid].connInfo == LastInfo(all, sid, t.sessions[sid].connInfo)
  {
    KnownSessionBound(t, from, sid, opcode, body, newId, shards);
    ApplyAfter(t, CheckAndBind(sid, from), ops);
    SessionStays(t, [CheckAndBind(sid, from)] + ops, sid);
  }

  lemma {:induction false} LastAfterRequest(sid: nat, from: Origin, ops: seq<Op>, p: Protocol, fd: int, info: ConnInfo)
    ensures LastFd([CheckAndBind(sid, from)] + ops, sid, p, fd) ==
            LastFd(ops, sid, p, if from.connInfo.protocol == p then from.fd else fd)
    ensures LastInfo([CheckAndBind(sid, from)] + ops, sid, info) == LastInfo(ops, sid, from.connInfo)
    decreases |ops|
  {
    var op := CheckAndBind(sid, from);
    if ops == [] {
      assert [op] + ops == [op] && [op][..0] == [];
    } else {
      LastAfterRequest(sid, from, ops[..|ops| - 1], p, fd, info);
      assert ([op] + ops)[..|ops|] == [op] + ops[..|ops| - 1];
    }
  }

  /** What an answer to a session is addressed by. */
  lemma AddressOf(t: Table, sid: nat, payload: seq<Byte>)
    requires sid in t.sessions
    ensures var s := t.sessions[sid];
      var a, b := Send(t, sid, LOBBY_ENTRY_RES, payload), Send(t, sid, PING_RES, payload);
      && a.Some? && a.value == Outgoing(Swapped(Tcp, s.connInfo), s.tcpFd, payload)
      && b.Some? && b.value == Outgoing(Swapped(Udp, s.connInfo), s.udpFd, payload)
  {
  }

  /** A lobby request over TCP is routed to the shard of its session, and its answer, whatever
      is called in the meantime short of erasing the session, to the descriptor of the last
      TCP packet with that id; the session is then in the world. */
  lemma LobbyAnswerFindsItsWay(t: Table, from: Origin, sid: nat, newId: nat, shards: nat, ops: seq<Op>,
                               payload: seq<Byte>)
    requires shards > 0 && newId != 0 && 0 < sid < ID_LIMIT && sid in t.sessions
    requires from.connInfo.protocol.Tcp? && Erase(sid) !in ops
    ensures var r := Route(t, from, Packet(LOBBY_ENTRY_REQ, sid, []), newId, shards);
      var t' := ApplyFrom(r.table, ops);
      var out, after := Send(t', sid, LOBBY_ENTRY_RES, payload), Settle(t', sid, LOBBY_ENTRY_RES);
      && r.routed == Some(Routed(SelectShard(sid, shards), sid, LobbyEntryReq(sid)))
      && out.Some? && out.value.payload == payload && out.value.connInfo.protocol == Tcp
      && out.value.fd == LastFd(ops, sid, Tcp, from.fd)
      && sid in after.sessions && after.sessions[sid] == t'.sessions[sid].(state := InWorld)
      && after.fdIndex == t'.fdIndex
  {
    PacketRoundTrip(LOBBY_ENTRY_REQ, sid, []);
    KnownSessionRouted(t, from, Packet(LOBBY_ENTRY_REQ, sid, []), newId, shards);
    BoundSession(t, from, sid, LOBBY_ENTRY_REQ, [], newId, shards, ops);
    LastAfterRequest(sid, from, ops, Tcp, t.sessions[sid].tcpFd, t.sessions[sid].connInfo);
    AddressOf(ApplyFrom(Route(t, from, Packet(LOBBY_ENTRY_REQ, sid, []), newId, shards).table, ops), sid, payload);
  }

  /** A ping over UDP is routed to the shard of its session, and its answer sent through the
      socket of the last UDP packet with that id and with the table unchanged.  Its address,
      though, is the source of the last packet with that id over any protocol: it goes back
      to where the ping came from if and only if that packet came from there, too. */
  lemma PingAnswerFindsItsWay(t: Table, from: Origin, sid: nat, nonce: nat, clientTs: nat, newId: nat, shards: nat,
                              ops: seq<Op>, payload: seq<Byte>)
    requires shards > 0 && newId != 0 && 0 < sid < ID_LIMIT && sid in t.sessions
    requires nonce < ID_LIMIT && clientTs < ID_LIMIT
    requires from.connInfo.protocol.Udp? && Erase(sid) !in ops
    ensures var r := Route(t, from, Packet(PING_REQ, sid, Be64(nonce) + Be64(clientTs)), newId, shards);
      var t' := ApplyFrom(r.table, ops);
      var out, last := Send(t', sid, PING_RES, payload), LastInfo(ops, sid, from.connInfo);
      && r.routed == Some(Routed(SelectShard(sid, shards), sid, PingReq(sid, nonce, clientTs)))
      && Settle(t', sid, PING_RES) == t'
      && out.Some? && out.value.payload == payload && out.value.connInfo.protocol == Udp
      && out.value.fd == LastFd(ops, sid, Udp, from.fd)
      && out.value.connInfo.dstIp == last.srcIp && out.value.connInfo.dstPort == last.srcPort
      && out.value.connInfo.srcIp == last.dstIp && out.value.connInfo.srcPort == last.dstPort
  {
    KnownSessionsAreServed(t, from, sid, nonce, clientTs, [], newId, shards);
    BoundSession(t, from, sid, PING_REQ, Be64(nonce) + Be64(clientTs), newId, shards, ops);
    LastAfterRequest(sid, from, ops, Udp, t.sessions[sid].udpFd, t.sessions[sid].connInfo);
    AddressOf(ApplyFrom(Route(t, from, Packet(PING_REQ, sid, Be64(nonce) + Be64(clientTs)), newId, shards).table, ops),
              sid, payload);
  }

  /** One TCP packet of the session between a ping and its answer is enough to misdirect the
      answer to that packet's port. */
  lemma PingAnswerGoesAstray(t: Table, from: Origin, tcp: Origin, sid: nat, nonce: nat, clientTs: nat, newId: nat,
                             shards: nat, payload: seq<Byte>)
    requires shards > 0 && newId != 0 && 0 < sid < ID_LIMIT && sid in t.sessions
    requires nonce < ID_LIMIT && clientTs < ID_LIMIT
    requires from.connInfo.protocol.Udp? && tcp.connInfo.protocol.Tcp?
    requires tcp.connInfo.srcPort != from.connInfo.srcPort
    ensures var r := Route(t, from, Packet(PING_REQ, sid, Be64(nonce) + Be64(clientTs)), newId, shards);
      var out := Send(ApplyFrom(r.table, [CheckAndBind(sid, tcp)]), sid, PING_RES, payload);
      out.Some? && out.value.connInfo.dstPort == tcp.connInfo.srcPort != from.connInfo.srcPort
  {
    PingAnswerFindsItsWay(t, from, sid, nonce, clientTs, newId, shards, [CheckAndBind(sid, tcp)], payload);
  }

  lemma LoginIsRouted(t: Table, from: Origin, body: seq<Byte>, f: LoginFields, rest: seq<Byte>,
                      newId: nat, shards: nat)
    requires shards > 0 && 0 < newId && newId !in t.sessions && from.fd !in t.fdIndex
    requires from.connInfo.protocol.Tls? && |body| < 0x1_0000 && LoginLayout(body, f, rest)
    ensures var r := Route(t, from, Packet(LOGIN_REQ, 0, body), newId, shards);
      && r.routed == Some(Routed(SelectShard(newId, shards), newId, LoginReq(newId, f.id, f.pw)))
      && r.table == Apply(t, Create(from, newId))
  {
    PacketRoundTrip(LOGIN_REQ, 0, body);
    forall g, more | LoginLayout(body, g, more) ensures g == f {
      LoginLayoutUnique(body, f, rest, g, more);
    }
  }

  /** A login over TLS under a fresh id is routed to the shard of that id.  Whatever is done to
      the table in the meantime, short of erasing the session, the answer is addressed to
      the descriptor of the last TLS packet that carried the id: the login's own if and only
      if the last such packet, if any has come since, came from there.  After a refusal the
      session is gone and the descriptor that got it may log in again. */
  lemma LoginAnswerFindsItsWay(t: Table, from: Origin, body: seq<Byte>, f: LoginFields, rest: seq<Byte>,
                               newId: nat, shards: nat, ops: seq<Op>, opcode: Byte, payload: seq<Byte>)
    requires shards > 0 && 0 < newId && newId !in t.sessions && from.fd !in t.fdIndex
    requires from.connInfo.protocol.Tls? && |body| < 0x1_0000 && LoginLayout(body, f, rest)
    requires Erase(newId) !in ops
    requires opcode == LOGIN_SUCCESS_RES || opcode == LOGIN_FAIL_RES
    ensures var r := Route(t, from, Packet(LOGIN_REQ, 0, body), newId, shards);
      var t' := ApplyFrom(r.table, ops);
      var fd, out := LastFd(ops, newId, Tls, from.fd), Send(t', newId, opcode, payload);
      var after := Settle(t', newId, opcode);
      && r.routed == Some(Routed(SelectShard(newId, shards), newId, LoginReq(newId, f.id, f.pw)))
      && newId in r.table.sessions && r.table.sessions[newId].state == PreAuth
      && newId in t'.sessions && t'.sessions[newId].state == LastState(ops, newId, PreAuth)
      && out.Some? && out.value.fd == fd && out.value.payload == payload && out.value.connInfo.protocol == Tls
      && (opcode == LOGIN_FAIL_RES ==> after == Table(t'.sessions - {newId}, t'.fdIndex - {fd}))
      && (opcode == LOGIN_SUCCESS_RES ==>
            after == t'.(sessions := t'.sessions[newId := t'.sessions[newId].(state := Auth)]))
  {
    LoginIsRouted(t, from, body, f, rest, newId, shards);
    FreshSession(t, from, newId);
    SessionStays(Apply(t, Create(from, newId)), ops, newId);
  }
}
