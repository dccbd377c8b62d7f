/** The session table and its index by TLS file descriptor. */
module Sessions {
  import opened Words

  datatype Protocol = Tcp | Udp | Tls | UnknownProtocol

  datatype ConnInfo = ConnInfo(protocol: Protocol, srcIp: nat, srcPort: nat, dstIp: nat, dstPort: nat)

  datatype SessionState = PreAuth | Auth | InWorld | Closed | UnknownState

  /** A file descriptor is -1 until a packet of that protocol has been bound. */
  datatype Session = Session(state: SessionState, tlsFd: int, tcpFd: int, udpFd: int, connInfo: ConnInfo)

  /** Where a packet came from. */
  datatype Origin = Origin(fd: nat, connInfo: ConnInfo)

  function Bind(s: Session, from: Origin): Session
  {
    var s' := s.(connInfo := from.connInfo);
    match from.connInfo.protocol
    case Tcp => s'.(tcpFd := from.fd)
    case Tls => s'.(tlsFd := from.fd)
    case Udp => s'.(udpFd := from.fd)
    case UnknownProtocol => s'
  }

  datatype Table = Table(sessions: map<nat, Session>, fdIndex: map<int, nat>)

  const EMPTY := Table(map[], map[])

  /** One call on the session manager; all of them run under its lock. */
  datatype Op =
    | Create(from: Origin, newId: nat)       // `newId` is the random id drawn
    | CheckAndBind(sid: nat, from: Origin)
    | Erase(sid: nat)
    | SetState(sid: nat, state: SessionState)

  function Apply(t: Table, op: Op): Table
  {
    match op
    case Create(from, id) =>
      if from.fd in t.fdIndex then t
      else
        var made := Bind(Session(UnknownState, -1, -1, -1, from.connInfo), from).(state := PreAuth);
        // an emplace under an existing key changes nothing
        Table(if id in t.sessions then t.sessions else t.sessions[id := made], t.fdIndex[from.fd := id])
    case CheckAndBind(sid, from) =>
      if sid == 0 || sid !in t.sessions then t
      else t.(sessions := t.sessions[sid := Bind(t.sessions[sid], from)])
    case Erase(sid) =>
      if sid !in t.sessions then t
      else Table(t.sessions - {sid}, t.fdIndex - {t.sessions[sid].tlsFd})
    case SetState(sid, state) =>
      if sid !in t.sessions then t
      else t.(sessions := t.sessions[sid := t.sessions[sid].(state := state)])
  }

  function ApplyAll(ops: seq<Op>): Table
  {
    if ops == [] then EMPTY else Apply(ApplyAll(ops[..|ops| - 1]), ops[|ops| - 1])
  }

  // ---- Sizes ----

  lemma SizeAfterPut<K, V>(m: map<K, V>, k: K, v: V)
    ensures |m[k := v]| == if k in m then |m| else |m| + 1
  {
    assert m[k := v].Keys == m.Keys + {k};
  }

  lemma SizeAfterRemove<K, V>(m: map<K, V>, k: K)
    ensures |m - {k}| == if k in m then |m| - 1 else |m|
  {
    assert (m - {k}).Keys == m.Keys - {k};
  }

  lemma StepKeepsSizes(t: Table, op: Op)
    requires |t.sessions| <= |t.fdIndex|
    ensures |Apply(t, op).sessions| <= |Apply(t, op).fdIndex|
  {
    var r := Apply(t, op);
    match op
    case Create(from, id) =>
      if from.fd !in t.fdIndex {
        SizeAfterPut(t.fdIndex, from.fd, id);
        if id !in t.sessions {
          SizeAfterPut(t.sessions, id, r.sessions[id]);
        }
      }
    case CheckAndBind(sid, from) =>
      if sid != 0 && sid in t.sessions {
        SizeAfterPut(t.sessions, sid, r.sessions[sid]);
      }
    case Erase(sid) =>
      if sid in t.sessions {
        SizeAfterRemove(t.sessions, sid);
        SizeAfterRemove(t.fdIndex, t.sessions[sid].tlsFd);
      }
    case SetState(sid, state) =>
      if sid in t.sessions {
        SizeAfterPut(t.sessions, sid, r.sessions[sid]);
      }
  }

  /** In every run there are at most as many sessions as index entries. */
  lemma {:induction false} SessionsWithinIndex(ops: seq<Op>)
    ensures |ApplyAll(ops).sessions| <= |ApplyAll(ops).fdIndex|
    decreases |ops|
  {
    if ops != [] {
      SessionsWithinIndex(ops[..|ops| - 1]);
      StepKeepsSizes(ApplyAll(ops[..|ops| - 1]), ops[|ops| - 1]);
    }
  }

  // ---- The index is the inverse of the sessions' TLS descriptors ----

  ghost predicate Owns(t: Table, sid: nat, fd: int)
  {
    sid in t.sessions && t.sessions[sid].tlsFd == fd
  }

  ghost predicate Exact(t: Table)
  {
    forall fd, sid :: fd in t.fdIndex && t.fdIndex[fd] == sid <==> Owns(t, sid, fd)
  }

  /** A call that keeps the index exact: a login over TLS under a fresh id, a packet
      that does not move its session to another TLS descriptor, and anything that
      neither creates nor binds. */
  predicate Orderly(t: Table, op: Op)
  {
    match op
    case Create(from, id) =>
      from.fd in t.fdIndex || (from.connInfo.protocol.Tls? && id !in t.sessions)
    case CheckAndBind(sid, from) =>
      sid == 0 || sid !in t.sessions || !from.connInfo.protocol.Tls? || t.sessions[sid].tlsFd == from.fd
    case Erase(_) => true
    case SetState(_, _) => true
  }

  /** From an exact index, a call leads to an exact index if and only if it is orderly. */
  lemma ExactIffOrderly(t: Table, op: Op)
    requires Exact(t)
    ensures Exact(Apply(t, op)) <==> Orderly(t, op)
  {
    match op
    case Create(from, id) => CreateExact(t, from, id);
    case CheckAndBind(sid, from) => BindExact(t, sid, from);
    case Erase(sid) => EraseExact(t, sid);
    case SetState(sid, state) =>
      var r := Apply(t, op);
      assert forall fd, s :: Owns(r, s, fd) <==> Owns(t, s, fd);
  }

  lemma CreateExact(t: Table, from: Origin, id: nat)
    requires Exact(t)
    ensures Exact(Apply(t, Create(from, id))) <==> Orderly(t, Create(from, id))
  {
    var r := Apply(t, Create(from, id));
    if from.fd !in t.fdIndex {
      assert !Owns(t, id, from.fd);
      if from.connInfo.protocol.Tls? && id !in t.sessions {
        forall fd, sid ensures fd in r.fdIndex && r.fdIndex[fd] == sid <==> Owns(r, sid, fd) {
          assert fd in t.fdIndex && t.fdIndex[fd] == sid <==> Owns(t, sid, fd);
          assert fd in t.fdIndex && t.fdIndex[fd] == id <==> Owns(t, id, fd);
        }
      } else {
        assert r.fdIndex[from.fd] == id && !Owns(r, id, from.fd);
      }
    }
  }

  lemma BindExact(t: Table, sid: nat, from: Origin)
    requires Exact(t)
    ensures Exact(Apply(t, CheckAndBind(sid, from))) <==> Orderly(t, CheckAndBind(sid, from))
  {
    var r := Apply(t, CheckAndBind(sid, from));
    if Orderly(t, CheckAndBind(sid, from)) {
      assert forall fd, s :: Owns(r, s, fd) <==> Owns(t, s, fd);
    } else {
      var was := t.sessions[sid].tlsFd;
      assert Owns(t, sid, was);
      assert r.fdIndex[was] == sid && !Owns(r, sid, was);
    }
  }

  lemma EraseExact(t: Table, sid: nat)
    requires Exact(t)
    ensures Exact(Apply(t, Erase(sid)))
  {
    var r := Apply(t, Erase(sid));
    if sid in t.sessions {
      var gone := t.sessions[sid].tlsFd;
      assert Owns(t, sid, gone);
      forall fd, s ensures fd in r.fdIndex && r.fdIndex[fd] == s <==> Owns(r, s, fd) {
        assert fd in t.fdIndex && t.fdIndex[fd] == s <==> Owns(t, s, fd);
      }
    }
  }

  ghost predicate OrderlyRun(ops: seq<Op>)
  {
    ops == [] ||
    (OrderlyRun(ops[..|ops| - 1]) && Orderly(ApplyAll(ops[..|ops| - 1]), ops[|ops| - 1]))
  }

  /** After every orderly run the index is exact, so the duplicate-login test gives
      the same answer as a scan of the whole table. */
  lemma {:induction false} DuplicateTestMatchesScan(ops: seq<Op>, fd: nat)
    requires OrderlyRun(ops)
    ensures Exact(ApplyAll(ops))
    ensures fd in ApplyAll(ops).fdIndex <==> exists sid :: Owns(ApplyAll(ops), sid, fd)
    decreases |ops|
  {
    var t := ApplyAll(ops);
    if ops != [] {
      DuplicateTestMatchesScan(ops[..|ops| - 1], fd);
      ExactIffOrderly(ApplyAll(ops[..|ops| - 1]), ops[|ops| - 1]);
    }
    if fd in t.fdIndex {
      assert Owns(t, t.fdIndex[fd], fd);
    }
  }

  /** A login that arrives over TCP shows why the condition is needed: after it fails
      and its session is erased, the index still names it and refuses the descriptor's
      next login, though no session exists. */
  lemma TcpLoginLeavesStaleEntry(fd: nat, id: nat, info: ConnInfo, info': ConnInfo, id': nat)
    requires info.protocol.Tcp?
    ensures var t := ApplyAll([Create(Origin(fd, info), id), Erase(id)]);
      && t.sessions == map[]
      && fd in t.fdIndex
      && Apply(t, Create(Origin(fd, info'), id')) == t
  {
    var ops := [Create(Origin(fd, info), id), Erase(id)];
    assert ops[..1] == [Create(Origin(fd, info), id)];
    assert ops[..1][..0] == [];
    assert ApplyAll(ops[..1]) == Apply(EMPTY, ops[0]);
  }

  // ---- One session through the calls of others ----

  /** The table after some calls. */
  function ApplyFrom(t: Table, ops: seq<Op>): Table
  {
    if ops == [] then t else Apply(ApplyFrom(t, ops[..|ops| - 1]), ops[|ops| - 1])
  }

  /** The descriptor of the last packet with this id that came over protocol `p`, or `fd`. */
  function LastFd(ops: seq<Op>, sid: nat, p: Protocol, fd: int): int
  {
    if ops == [] then fd
    else
      var last := ops[|ops| - 1];
      if last.CheckAndBind? && last.sid == sid && last.from.connInfo.protocol == p then last.from.fd
      else LastFd(ops[..|ops| - 1], sid, p, fd)
  }

  /** The connection data of the last packet with this id, over whatever protocol, or `info`. */
  function LastInfo(ops: seq<Op>, sid: nat, info: ConnInfo): ConnInfo
  {
    if ops == [] then info
    else
      var last := ops[|ops| - 1];
      if last.CheckAndBind? && last.sid == sid then last.from.connInfo
      else LastInfo(ops[..|ops| - 1], sid, info)
  }

  /** The state last set for this id, or `state`. */
  function LastState(ops: seq<Op>, sid: nat, state: SessionState): SessionState
  {
    if ops == [] then state
    else
      var last := ops[|ops| - 1];
      if last.SetState? && last.sid == sid then last.state else LastState(ops[..|ops| - 1], sid, state)
  }

  /** A new session is not authenticated yet, and knows its origin and nothing else. */
  lemma FreshSession(t: Table, from: Origin, id: nat)
    requires from.fd !in t.fdIndex && id !in t.sessions
    ensures var r, p := Apply(t, Create(from, id)), from.connInfo.protocol;
      && r.sessions == t.sessions[id := r.sessions[id]]
      && r.sessions[id].state == PreAuth && r.sessions[id].connInfo == from.connInfo
      && r.sessions[id].tlsFd == (if p == Tls then from.fd else -1)
      && r.sessions[id].tcpFd == (if p == Tcp then from.fd else -1)
      && r.sessions[id].udpFd == (if p == Udp then from.fd else -1)
  {
  }

  /** Until it is erased, a session is what the last packets with its id and the last answer
      to it have made of it, whatever else is called. */
  lemma {:induction false} SessionStays(t: Table, ops: seq<Op>, sid: nat)
    requires sid != 0 && sid in t.sessions && Erase(sid) !in ops
    ensures var r, s := ApplyFrom(t, ops), t.sessions[sid];
      && sid in r.sessions
      && r.sessions[sid].state == LastState(ops, sid, s.state)
      && r.sessions[sid].tlsFd == LastFd(ops, sid, Tls, s.tlsFd)
      && r.sessions[sid].tcpFd == LastFd(ops, sid, Tcp, s.tcpFd)
      && r.sessions[sid].udpFd == LastFd(ops, sid, Udp, s.udpFd)
      && r.sessions[sid].connInfo == LastInfo(ops, sid, s.connInfo)
    decreases |ops|
  {
    if ops != [] { SessionStays(t, ops[..|ops| - 1], sid); }
  }

  /** Sessions come from logins only, and an erased one is gone until its id is drawn again. */
  lemma {:induction false} NoSessionFromNothing(t: Table, ops: seq<Op>, sid: nat)
    requires sid !in t.sessions || (ops != [] && ops[0] == Erase(sid))
    requires forall op | op in ops :: !(op.Create? && op.newId == sid)
    ensures sid !in ApplyFrom(t, ops).sessions
    decreases |ops|
  {
    if ops != [] {
      assert ops[|ops| - 1] in ops;
      if |ops| == 1 {
        assert ApplyFrom(t, ops[..0]) == t;
      } else {
        NoSessionFromNothing(t, ops[..|ops| - 1], sid);
      }
    }
  }

  // ---- The manager ----

  class SessionManager {
    var sessions: map<nat, Session>
    var tlsFdToSessionId: map<int, nat>

    function View(): Table
      reads this
    {
      Table(sessions, tlsFdToSessionId)
    }

    constructor ()
      ensures View() == EMPTY
    {
      sessions, tlsFdToSessionId := map[], map[];
    }

    /** Returns the session id, or nothing for a duplicate login. */
    method CreateSession(from: Origin, newId: nat) returns (r: Option<nat>)
      requires newId != 0
      modifies this
      ensures View() == Apply(old(View()), Create(from, newId))
      ensures r == if from.fd in old(tlsFdToSessionId) then None else Some(newId)
    {
      if from.fd in tlsFdToSessionId {
        return None;
      }
      var session := Session(UnknownState, -1, -1, -1, from.connInfo);
      session := Bind(session, from);
      session := session.(state := PreAuth);
      if newId !in sessions {
        sessions := sessions[newId := session];
      }
      tlsFdToSessionId := tlsFdToSessionId[from.fd := newId];
      r := Some(newId);
    }

    method BindSession(sid: nat, from: Origin) returns (ok: bool)
      modifies this
      ensures View() == Apply(old(View()), CheckAndBind(sid, from))
      ensures ok <==> sid != 0 && sid in old(sessions)
    {
      if sid == 0 || sid !in sessions {
        return false;
      }
      sessions := sessions[sid := Bind(sessions[sid], from)];
      ok := true;
    }

    method EraseSession(sid: nat)
      modifies this
      ensures View() == Apply(old(View()), Erase(sid))
    {
      if sid !in sessions {
        return;
      }
      var fd := sessions[sid].tlsFd;
      tlsFdToSessionId := tlsFdToSessionId - {fd};
      sessions := sessions - {sid};
    }

    method ChangeState(sid: nat, state: SessionState)
      modifies this
      ensures View() == Apply(old(View()), SetState(sid, state))
    {
      if sid in sessions {
        sessions := sessions[sid := sessions[sid].(state := state)];
      }
    }
  }
}
