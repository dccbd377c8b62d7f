/** The packet format: builders, the packet parser and the body parsers. */
module Wire {
  import opened Words
  import opened Bytes
  import opened Sequences
  import opened Framing

  const HEADER_SIZE := 16
  const VERSION := 1

  const LOGIN_REQ := 0x10
  const LOGIN_SUCCESS_RES := 0x11
  const LOGIN_FAIL_RES := 0x12
  const LOBBY_ENTRY_REQ := 0x20
  const LOBBY_ENTRY_RES := 0x21
  const PING_REQ := 0x90
  const PING_RES := 0x91

  const ID_LIMIT := 0x1_0000_0000_0000_0000   // session ids and timestamps have 64 bits

  // ---- Parsing a packet ----

  datatype Parsed = Parsed(version: Byte, opcode: Byte, flags: nat, sessionId: nat, payload: seq<Byte>,
                           bodyLen: nat)
  {
    predicate Valid() { HEADER_SIZE + bodyLen <= |payload| && sessionId < ID_LIMIT }

    function Body(): seq<Byte>
      requires Valid()
    {
      payload[HEADER_SIZE..HEADER_SIZE + bodyLen]
    }
  }

  function Parse(p: seq<Byte>): (r: Option<Parsed>)
    ensures r.Some? ==> r.value.Valid() && r.value.payload == p
  {
    if |p| < HEADER_SIZE then None
    else
      var bodyLen := FromBe16(p[2..4]);
      if |p| < HEADER_SIZE + bodyLen then None
      else Some(Parsed(p[0], p[1], FromBe32(p[12..16]), FromBe64(p[4..12]), p, bodyLen))
  }

  predicate Parsable(p: seq<Byte>)
  {
    |p| >= 16 && |p| >= 16 + (p[2] as int) * 256 + (p[3] as int)
  }

  /** A packet parses exactly if its body is all there, and what was parsed says what the packet was,
      up to the bytes behind the body. */
  lemma ParseInverts(p: seq<Byte>)
    ensures Parse(p).Some? <==> Parsable(p)
    ensures Parsable(p) ==> var m := Parse(p).value;
      && m.flags < 0x1_0000_0000 && m.bodyLen < 0x1_0000 && |m.Body()| == m.bodyLen
      && [m.version, m.opcode] + Be16(m.bodyLen) + Be64(m.sessionId) + Be32(m.flags) + m.Body() <= p
  {
    if Parsable(p) {
      Be16Onto(p[2..4]);
      Be64Onto(p[4..12]);
      Be32Onto(p[12..16]);
      assert p[..16] == [p[0], p[1]] + p[2..4] + p[4..12] + p[12..16];
      var end := 16 + Parse(p).value.bodyLen;
      assert p[..end] == p[..16] + p[16..end];
    }
  }

  /** Every frame the receive loop cuts is accepted by the parser, with the whole
      remainder of the frame as its body. */
  lemma FramesParse(p: seq<Byte>)
    requires IsFrame(PACKET, p)
    ensures Parse(p).Some? && Parse(p).value.Body() == p[HEADER_SIZE..]
  {
  }

  // ---- Building a packet ----

  function Header(opcode: Byte, bodyLen: nat, sessionId: nat): (r: seq<Byte>)
    requires bodyLen < 0x1_0000 && sessionId < ID_LIMIT
    ensures |r| == HEADER_SIZE
  {
    [VERSION, opcode] + Be16(bodyLen) + Be64(sessionId) + Be32(0)
  }

  function Packet(opcode: Byte, sessionId: nat, body: seq<Byte>): (r: seq<Byte>)
    requires |body| < 0x1_0000 && sessionId < ID_LIMIT
    ensures |r| == HEADER_SIZE + |body|
  {
    Header(opcode, |body|, sessionId) + body
  }

  lemma SecondPart<T>(a: seq<T>, b: seq<T>)
    ensures (a + b)[|a|..|a| + |b|] == b && (a + b)[..|a|] == a && (a + b)[|a|..] == b
  {
  }

  lemma HeaderFields(opcode: Byte, bodyLen: nat, sessionId: nat)
    requires bodyLen < 0x1_0000 && sessionId < ID_LIMIT
    ensures var h := Header(opcode, bodyLen, sessionId);
      && h[0] == VERSION && h[1] == opcode
      && FromBe16(h[2..4]) == bodyLen && FromBe64(h[4..12]) == sessionId && FromBe32(h[12..16]) == 0
  {
    var h := Header(opcode, bodyLen, sessionId);
    assert h[2..4] == Be16(bodyLen);
    assert h[4..12] == Be64(sessionId);
    var x, z := [VERSION, opcode] + Be16(bodyLen) + Be64(sessionId), Be32(0);
    SecondPart(x, z);
    Be16RoundTrip(bodyLen);
    Be32RoundTrip(0);
    Be64RoundTrip(sessionId);
  }

  /** What parsing and framing see of a header followed by other bytes. */
  lemma ParseHeaderThen(opcode: Byte, bodyLen: nat, sessionId: nat, body: seq<Byte>)
    requires bodyLen < 0x1_0000 && sessionId < ID_LIMIT
    ensures var p := Header(opcode, bodyLen, sessionId) + body;
      && BodyLen(PACKET, p) == bodyLen
      && (|body| == bodyLen ==> Parse(p) == Some(Parsed(VERSION, opcode, 0, sessionId, p, bodyLen)))
  {
    var h := Header(opcode, bodyLen, sessionId);
    HeaderFields(opcode, bodyLen, sessionId);
    assert (h + body)[2..4] == h[2..4];
    assert (h + body)[4..12] == h[4..12];
    assert (h + body)[12..16] == h[12..16];
  }

  /** A built packet is one frame, and the parser recovers everything put in. */
  lemma PacketRoundTrip(opcode: Byte, sessionId: nat, body: seq<Byte>)
    requires |body| < 0x1_0000 && sessionId < ID_LIMIT
    ensures var p := Packet(opcode, sessionId, body);
      && IsFrame(PACKET, p)
      && Parse(p) == Some(Parsed(1, opcode, 0, sessionId, p, |body|))
      && Parse(p).value.Body() == body
  {
    ParseHeaderThen(opcode, |body|, sessionId, body);
    var h := Header(opcode, |body|, sessionId);
    assert (h + body)[|h|..|h| + |body|] == body;
  }

  datatype Message = Message(opcode: Byte, sessionId: nat, body: seq<Byte>) {
    predicate Valid() { |body| < 0x1_0000 && sessionId < ID_LIMIT }

    function Bytes(): seq<Byte>
      requires Valid()
    {
      Packet(opcode, sessionId, body)
    }
  }

  function Encode(ms: seq<Message>): (r: seq<seq<Byte>>)
    requires forall m | m in ms :: m.Valid()
    ensures |r| == |ms| && forall i | 0 <= i < |r| :: r[i] == ms[i].Bytes()
  {
    seq(|ms|, i requires 0 <= i < |ms| => ms[i].Bytes())
  }

  /** Decodes a list of frames, if the parser accepts them all. */
  function Decode(frames: seq<seq<Byte>>): Option<seq<Message>>
  {
    if frames == [] then Some([])
    else
      var p, rest := Parse(frames[0]), Decode(frames[1..]);
      if p.None? || rest.None? then None
      else Some([Message(p.value.opcode, p.value.sessionId, p.value.Body())] + rest.value)
  }

  lemma {:induction false} DecodeEncodes(ms: seq<Message>)
    requires forall m | m in ms :: m.Valid()
    ensures Decode(Encode(ms)) == Some(ms)
  {
    if ms != [] {
      var m, rest := ms[0], ms[1..];
      assert m in ms && m.Valid();
      DecodeEncodes(rest);
      PacketRoundTrip(m.opcode, m.sessionId, m.body);
      assert Encode(ms)[1..] == Encode(rest);
      assert [m] + rest == ms;
    }
  }

  predicate BodiesFit(ms: seq<Message>)
  {
    forall m | m in ms :: |m.body| <= RING_SIZE - HEADER_SIZE
  }

  lemma EncodedFrames(ms: seq<Message>)
    requires forall m | m in ms :: m.Valid()
    ensures AllFrames(PACKET, Encode(ms))
    ensures FramesFit(Encode(ms)) <==> BodiesFit(ms)
  {
    forall x | x in Encode(ms) ensures IsFrame(PACKET, x) {
      var i :| 0 <= i < |ms| && x == Encode(ms)[i];
      assert ms[i] in ms && ms[i].Valid();
      PacketRoundTrip(ms[i].opcode, ms[i].sessionId, ms[i].body);
    }
    forall m | m in ms ensures m.Bytes() in Encode(ms) && |m.Bytes()| == HEADER_SIZE + |m.body| {
      var i :| 0 <= i < |ms| && m == ms[i];
      assert Encode(ms)[i] == m.Bytes();
    }
    if BodiesFit(ms) {
      forall x | x in Encode(ms) ensures |x| <= RING_SIZE {
        var i :| 0 <= i < |ms| && x == Encode(ms)[i];
        assert ms[i] in ms;
      }
    }
  }

  /** Framing gives back the packets of a conversation and parsing gives back opcode, session
      id and body of each.  The conversation can come in through the ring if and only if
      every packet fits the ring. */
  lemma StreamRoundTrip(ms: seq<Message>)
    requires forall m | m in ms :: m.Valid()
    ensures Cut(PACKET, Concat(Encode(ms))) == Split(Encode(ms), [])
    ensures Decode(Encode(ms)) == Some(ms)
    ensures Passes(PACKET, Concat(Encode(ms))) <==> BodiesFit(ms)
  {
    EncodedFrames(ms);
    FramesPassIff(PACKET, Encode(ms));
    DecodeEncodes(ms);
  }

  /** A client sends the packets of `ms` on the new connection `conn`, which reads them at the given
      events.  While all bodies fit, the ring never fills up; whatever has come in was cut
      into the packets sent, in order.  And if the events deliver everything, the whole
      conversation is recovered if and only if every body fits; otherwise the connection is
      closed on a full ring. */
  method Conversation(conn: RxConnection, ms: seq<Message>, events: seq<Readiness>)
    returns (outcome: Outcome, taken: nat)
    requires conn.Valid() && conn.open && conn.received == [] && conn.framer == PACKET
    requires forall m | m in ms :: m.Valid()
    modifies conn, conn.ring, conn.ring.buffer
    ensures conn.Valid() && taken <= |Concat(Encode(ms))| && conn.received == Concat(Encode(ms))[..taken]
    ensures conn.frames <= Encode(ms)
    ensures BodiesFit(ms) ==> !outcome.RingFull?
    ensures taken == |Concat(Encode(ms))| ==> BodiesFit(ms) && Decode(conn.frames) == Some(ms)
    ensures Delivers(events, |Concat(Encode(ms))|) ==> (outcome.RingFull? <==> !BodiesFit(ms))
    ensures Delivers(events, |Concat(Encode(ms))|) ==> (conn.frames == Encode(ms) <==> BodiesFit(ms))
  {
    ghost var stream := Concat(Encode(ms));
    outcome, taken := conn.ReceiveAll(Concat(Encode(ms)), events);
    EncodedFrames(ms);
    assert stream[..taken] + stream[taken..] == stream;
    PartOfFrames(PACKET, Encode(ms), stream[..taken], stream[taken..]);
    if taken == |stream| {
      assert stream[..taken] == stream;
      StreamRoundTrip(ms);
    }
  }

  // ---- The builders ----

  method Copy(buf: array<Byte>, at: nat, xs: seq<Byte>)
    requires at + |xs| <= buf.Length
    modifies buf
    ensures buf[..] == old(buf[..at]) + xs + old(buf[at + |xs|..])
    ensures buf[..at + |xs|] == old(buf[..at]) + xs
  {
    forall i | 0 <= i < |xs| {
      buf[at + i] := xs[i];
    }
  }

  /** The header as every builder fills it in; the length is cut to 16 bits. */
  method FillHeader(buf: array<Byte>, opcode: Byte, bodyLen: nat, sessionId: nat)
    requires buf.Length >= HEADER_SIZE && sessionId < ID_LIMIT
    modifies buf
    ensures buf[..] == Header(opcode, bodyLen % 0x1_0000, sessionId) + old(buf[HEADER_SIZE..])
    ensures buf[..HEADER_SIZE] == Header(opcode, bodyLen % 0x1_0000, sessionId)
  {
    ghost var tail := buf[HEADER_SIZE..];
    buf[0] := VERSION;
    buf[1] := opcode;
    assert buf[..2] == [VERSION, opcode] && buf[HEADER_SIZE..] == tail;
    Copy(buf, 2, Be16(bodyLen % 0x1_0000));
    assert buf[HEADER_SIZE..] == tail;
    Copy(buf, 4, Be64(sessionId));
    assert buf[HEADER_SIZE..] == tail;
    Copy(buf, 12, Be32(0));
  }

  method BuildLoginSuccess(sessionId: nat) returns (payload: seq<Byte>)
    requires sessionId < ID_LIMIT
    ensures payload == Packet(LOGIN_SUCCESS_RES, sessionId, [1])
  {
    var buf := new Byte[HEADER_SIZE + 1](_ => 0);
    FillHeader(buf, LOGIN_SUCCESS_RES, 1, sessionId);
    buf[16] := 1;
    payload := buf[..];
  }

  /** A failed login is answered with session id 0, whatever the session was. */
  method BuildLoginFail(sessionId: nat) returns (payload: seq<Byte>)
    ensures payload == Packet(LOGIN_FAIL_RES, 0, [0])
  {
    var buf := new Byte[HEADER_SIZE + 1](_ => 0);
    FillHeader(buf, LOGIN_FAIL_RES, 1, 0);
    buf[16] := 0;
    payload := buf[..];
  }

  method BuildPing(sessionId: nat, nonce: nat, clientTs: nat, serverTs: nat) returns (payload: seq<Byte>)
    requires sessionId < ID_LIMIT && nonce < ID_LIMIT && clientTs < ID_LIMIT && serverTs < ID_LIMIT
    ensures payload == Packet(PING_RES, sessionId, Be64(nonce) + Be64(clientTs) + Be64(serverTs))
  {
    var buf := new Byte[HEADER_SIZE + 24](_ => 0);
    FillHeader(buf, PING_RES, 24, sessionId);
    Copy(buf, 16, Be64(nonce));
    Copy(buf, 24, Be64(clientTs));
    Copy(buf, 32, Be64(serverTs));
    payload := buf[..];
  }

  // ---- The lobby answer ----

  datatype Market = Market(id: Byte, alias: seq<Byte>)

  const ALIAS_SIZE := 16
  const ENTRY_SIZE := 17      // written out below where it multiplies
  const MAX_MARKETS := 3854   // the most whose body length fits in 16 bits

  /** The bytes of a C string: up to the first zero. */
  function CString(s: seq<Byte>): (r: seq<Byte>)
    ensures |r| <= |s| && r == s[..|r|] && 0 !in r
    ensures |r| < |s| ==> s[|r|] == 0
  {
    if s == [] || s[0] == 0 then [] else [s[0]] + CString(s[1..])
  }

  /** What survives of an alias: at most 15 bytes of its C string. */
  function Truncated(alias: seq<Byte>): (r: seq<Byte>)
    ensures |r| < ALIAS_SIZE && 0 !in r
    ensures r <= CString(alias) && (|r| == ALIAS_SIZE - 1 || r == CString(alias))
  {
    var c := CString(alias);
    if |c| < ALIAS_SIZE then c else c[..ALIAS_SIZE - 1]
  }

  function Entry(m: Market): (r: seq<Byte>)
    ensures |r| == ENTRY_SIZE
  {
    [m.id] + Truncated(m.alias) + seq(ALIAS_SIZE - |Truncated(m.alias)|, _ => 0)
  }

  function Entries(ms: seq<Market>): (r: seq<Byte>)
    ensures |r| == 17 * |ms|
  {
    if ms == [] then [] else Entries(ms[..|ms| - 1]) + Entry(ms[|ms| - 1])
  }

  function LobbyBody(ms: seq<Market>): (r: seq<Byte>)
    requires |ms| < 0x1_0000
    ensures |r| == 2 + 17 * |ms|
  {
    Be16(|ms|) + Entries(ms)
  }

  lemma EntriesNext(head: seq<Byte>, ms: seq<Market>, i: nat)
    requires i < |ms|
    ensures head + Entries(ms[..i + 1]) == head + Entries(ms[..i]) + Entry(ms[i])
  {
    assert ms[..i + 1][..i] == ms[..i];
    AppendAssoc(head, Entries(ms[..i]), Entry(ms[i]));
  }

  /** The entry loop, writing at a moving offset; `inside` is false where it would leave the
      buffer. */
  method FillEntries(buf: array<Byte>, start: nat, markets: seq<Market>) returns (inside: bool)
    requires start <= buf.Length
    modifies buf
    ensures inside <==> start + 17 * |markets| <= buf.Length
    ensures inside ==> buf[..start + 17 * |markets|] == old(buf[..start]) + Entries(markets)
  {
    ghost var head := buf[..start];
    var offset := start;
    for i := 0 to |markets|
      invariant offset == start + 17 * i <= buf.Length
      invariant buf[..offset] == head + Entries(markets[..i])
    {
      if offset + ENTRY_SIZE > buf.Length { return false; }
      EntriesNext(head, markets, i);
      Copy(buf, offset, Entry(markets[i]));
      offset := offset + ENTRY_SIZE;
    }
    assert markets[..|markets|] == markets;
    inside := true;
  }

  lemma LobbyAssembled(sessionId: nat, ms: seq<Market>, head: seq<Byte>)
    requires sessionId < ID_LIMIT && |ms| < 0x1_0000
    requires head == Header(LOBBY_ENTRY_RES, (2 + 17 * |ms|) % 0x1_0000, sessionId) + Be16(|ms|)
    ensures head + Entries(ms) == LobbyPacket(sessionId, ms)
  {
    AppendAssoc(Header(LOBBY_ENTRY_RES, (2 + 17 * |ms|) % 0x1_0000, sessionId), Be16(|ms|), Entries(ms));
  }

  /** The buffer for a given number of entries, with header and count filled in. */
  method StartLobby(sessionId: nat, count: nat, ghost ms: seq<Market>) returns (buf: array<Byte>)
    requires sessionId < ID_LIMIT && count < 0x1_0000
    ensures fresh(buf) && buf.Length == HEADER_SIZE + 2 + 17 * count
    ensures |ms| == count ==> buf[..HEADER_SIZE + 2] + Entries(ms) == LobbyPacket(sessionId, ms)
  {
    var bodyLen := 2 + 17 * count;
    buf := new Byte[HEADER_SIZE + bodyLen](_ => 0);
    FillHeader(buf, LOBBY_ENTRY_RES, bodyLen, sessionId);
    Copy(buf, HEADER_SIZE, Be16(count));
    if |ms| == count { LobbyAssembled(sessionId, ms, buf[..HEADER_SIZE + 2]); }
  }

  /** The size of a market list as the source counts it. */
  function CutCount(n: nat): (r: nat)
    ensures r < 0x1_0000
    ensures 17 * n <= 17 * r <==> n < 0x1_0000
    ensures n < 0x1_0000 ==> r == n
  {
    n % 0x1_0000
  }

  /** The buffer is sized by the count cut to 16 bits, while the loop writes every market: it
      stays inside the buffer if and only if the count fits. */
  method BuildLobby(sessionId: nat, markets: seq<Market>) returns (payload: Option<seq<Byte>>)
    requires sessionId < ID_LIMIT
    ensures payload.Some? <==> |markets| < 0x1_0000
    ensures payload.Some? ==> payload.value == LobbyPacket(sessionId, markets)
  {
    var buf := StartLobby(sessionId, CutCount(|markets|), markets);
    var inside := FillEntries(buf, HEADER_SIZE + 2, markets);
    if !inside { return None; }
    assert buf[..] == buf[..HEADER_SIZE + 2 + 17 * |markets|];
    payload := Some(buf[..]);
  }

  /** A client's view of the entries. */
  function ReadEntries(body: seq<Byte>, n: nat): (r: seq<Market>)
    requires |body| == 17 * n
    ensures |r| == n
    decreases n
  {
    if n == 0 then []
    else
      var at := 17 * (n - 1);
      ReadEntries(body[..at], n - 1) + [Market(body[at], CString(body[at + 1..]))]
  }

  function ReadLobby(body: seq<Byte>): Option<seq<Market>>
  {
    if |body| < 2 then None
    else
      var n := FromBe16(body[..2]);
      if |body| != 2 + 17 * n then None else Some(ReadEntries(body[2..], n))
  }

  function Shown(ms: seq<Market>): (r: seq<Market>)
    ensures |r| == |ms| && forall i | 0 <= i < |r| :: r[i] == Market(ms[i].id, Truncated(ms[i].alias))
  {
    seq(|ms|, i requires 0 <= i < |ms| => Market(ms[i].id, Truncated(ms[i].alias)))
  }

  lemma {:induction false} CStringPadded(s: seq<Byte>, pad: seq<Byte>)
    requires 0 !in s && pad != [] && pad[0] == 0
    ensures CString(s + pad) == s
  {
    if s == [] {
      assert s + pad == pad;
    } else {
      CStringPadded(s[1..], pad);
      assert (s + pad)[1..] == s[1..] + pad;
    }
  }

  lemma ReadEntryInverts(m: Market)
    ensures CString(Entry(m)[1..]) == Truncated(m.alias)
  {
    var t := Truncated(m.alias);
    var pad: seq<Byte> := seq(ALIAS_SIZE - |t|, _ => 0);
    assert Entry(m)[1..] == t + pad;
    CStringPadded(t, pad);
  }

  lemma ReadEntriesStep(first: seq<Byte>, last: seq<Byte>, n: nat)
    requires |first| == 17 * n && |last| == ENTRY_SIZE
    ensures ReadEntries(first + last, n + 1) ==
            ReadEntries(first, n) + [Market(last[0], CString(last[1..]))]
  {
    assert (first + last)[..|first|] == first;
    assert (first + last)[|first|] == last[0];
    assert (first + last)[|first| + 1..] == last[1..];
  }

  lemma ShownStep(front: seq<Market>, m: Market)
    ensures Shown(front + [m]) == Shown(front) + [Market(m.id, Truncated(m.alias))]
  {
  }

  lemma {:induction false} ReadEntriesInverts(ms: seq<Market>)
    ensures ReadEntries(Entries(ms), |ms|) == Shown(ms)
    decreases |ms|
  {
    if ms != [] {
      var front, m := ms[..|ms| - 1], ms[|ms| - 1];
      ReadEntriesInverts(front);
      ReadEntryInverts(m);
      assert Entries(ms) == Entries(front) + Entry(m);
      ReadEntriesStep(Entries(front), Entry(m), |front|);
      SplitLast(ms);
      ShownStep(front, m);
    }
  }

  lemma ReadLobbyInverts(ms: seq<Market>)
    requires |ms| < 0x1_0000
    ensures ReadLobby(LobbyBody(ms)) == Some(Shown(ms))
  {
    var count, entries := Be16(|ms|), Entries(ms);
    assert (count + entries)[..2] == count && (count + entries)[2..] == entries;
    Be16RoundTrip(|ms|);
    ReadEntriesInverts(ms);
  }

  /** The lobby packet as `BuildLobby` makes it. */
  function LobbyPacket(sessionId: nat, ms: seq<Market>): seq<Byte>
    requires sessionId < ID_LIMIT && |ms| < 0x1_0000
  {
    Header(LOBBY_ENTRY_RES, |LobbyBody(ms)| % 0x1_0000, sessionId) + LobbyBody(ms)
  }

  /** Its length field is right, and so it is a frame, exactly for up to 3854 markets. */
  lemma LobbyFrameIffCountFits(sessionId: nat, ms: seq<Market>)
    requires sessionId < ID_LIMIT && |ms| < 0x1_0000
    ensures IsFrame(PACKET, LobbyPacket(sessionId, ms)) <==> |ms| <= MAX_MARKETS
  {
    FrameIffLengthRight(LOBBY_ENTRY_RES, sessionId, LobbyBody(ms));
    assert |LobbyBody(ms)| == 2 + 17 * |ms|;
  }

  /** Cutting a body length to 16 bits is harmless exactly when it fits. */
  lemma FrameIffLengthRight(opcode: Byte, sessionId: nat, body: seq<Byte>)
    requires sessionId < ID_LIMIT
    ensures IsFrame(PACKET, Header(opcode, |body| % 0x1_0000, sessionId) + body) <==> |body| < 0x1_0000
  {
    ParseHeaderThen(opcode, |body| % 0x1_0000, sessionId, body);
  }

  /** ... and then it fits a ring and a client reads back the ids and truncated aliases. */
  lemma LobbyRoundTrip(sessionId: nat, ms: seq<Market>)
    requires sessionId < ID_LIMIT && |ms| <= MAX_MARKETS
    ensures var p := LobbyPacket(sessionId, ms);
      && |p| <= RING_SIZE
      && Parse(p).Some? && Parse(p).value.opcode == LOBBY_ENTRY_RES && Parse(p).value.sessionId == sessionId
      && ReadLobby(Parse(p).value.Body()) == Some(Shown(ms))
  {
    LobbyPacketIsPacket(sessionId, ms);
    PacketRoundTrip(LOBBY_ENTRY_RES, sessionId, LobbyBody(ms));
    ReadLobbyInverts(ms);
  }

  lemma LobbyPacketIsPacket(sessionId: nat, ms: seq<Market>)
    requires sessionId < ID_LIMIT && |ms| <= MAX_MARKETS
    ensures |LobbyBody(ms)| <= RING_SIZE - HEADER_SIZE
    ensures LobbyPacket(sessionId, ms) == Packet(LOBBY_ENTRY_RES, sessionId, LobbyBody(ms))
  {
    CutLengthHarmless(LOBBY_ENTRY_RES, sessionId, LobbyBody(ms));
  }

  lemma CutLengthHarmless(opcode: Byte, sessionId: nat, body: seq<Byte>)
    requires sessionId < ID_LIMIT && |body| < 0x1_0000
    ensures Header(opcode, |body| % 0x1_0000, sessionId) + body == Packet(opcode, sessionId, body)
  {
    assert |body| % 0x1_0000 == |body|;
  }

  // ---- The body parsers ----

  datatype LoginFields = LoginFields(id: seq<Byte>, pw: seq<Byte>)

  /** The layout of a login body: two length-prefixed fields, then anything. */
  predicate LoginLayout(body: seq<Byte>, f: LoginFields, rest: seq<Byte>)
  {
    && |f.id| < 0x1_0000 && |f.pw| < 0x1_0000
    && body == Be16(|f.id|) + f.id + Be16(|f.pw|) + f.pw + rest
  }

  /** `parseLoginReq`: accepts exactly the bodies with the login layout. */
  method ParseLoginReq(body: seq<Byte>) returns (r: Option<LoginFields>)
    ensures r.Some? ==> exists rest :: LoginLayout(body, r.value, rest)
    ensures r.None? ==> forall f, rest :: !LoginLayout(body, f, rest)
  {
    var len, offset := |body|, 0;
    if len < 2 {
      return None;
    }
    var idLen := FromBe16(body[offset..offset + 2]);
    offset := offset + 2;
    forall f, rest | LoginLayout(body, f, rest) ensures |f.id| == idLen && f.id == body[2..2 + |f.id|] {
      assert body[0..2] == Be16(|f.id|);
      Be16RoundTrip(|f.id|);
    }
    if offset + idLen > len {
      return None;
    }
    var id := body[offset..offset + idLen];
    offset := offset + idLen;
    if offset + 2 > len {
      return None;
    }
    var pwLen := FromBe16(body[offset..offset + 2]);
    forall f, rest | LoginLayout(body, f, rest) ensures |f.pw| == pwLen {
      assert body[offset..offset + 2] == Be16(|f.pw|);
      Be16RoundTrip(|f.pw|);
    }
    offset := offset + 2;
    if offset + pwLen > len {
      return None;
    }
    var pw := body[offset..offset + pwLen];
    LoginPieces(body, idLen, pwLen);
    r := Some(LoginFields(id, pw));
    assert LoginLayout(body, r.value, body[offset + pwLen..]);
  }

  lemma LoginPieces(body: seq<Byte>, n: nat, k: nat)
    requires 2 + n + 2 + k <= |body|
    requires n == FromBe16(body[..2]) && k == FromBe16(body[2 + n..2 + n + 2])
    ensures body == Be16(n) + body[2..2 + n] + Be16(k) + body[2 + n + 2..2 + n + 2 + k] + body[2 + n + 2 + k..]
  {
    Be16Onto(body[..2]);
    Be16Onto(body[2 + n..2 + n + 2]);
  }

  /** The layout determines the fields, so the parser returns the ones put in. */
  lemma LoginLayoutUnique(body: seq<Byte>, f: LoginFields, rest: seq<Byte>, g: LoginFields, more: seq<Byte>)
    requires LoginLayout(body, f, rest) && LoginLayout(body, g, more)
    ensures f == g && rest == more
  {
    LoginParts(body, f, rest);
    LoginParts(body, g, more);
    Be16RoundTrip(|f.id|);
    Be16RoundTrip(|g.id|);
    Be16RoundTrip(|f.pw|);
    Be16RoundTrip(|g.pw|);
  }

  lemma LoginParts(body: seq<Byte>, f: LoginFields, rest: seq<Byte>)
    requires LoginLayout(body, f, rest)
    ensures var n, k := |f.id|, |f.pw|;
      && |body| >= 4 + n + k
      && body[..2] == Be16(n) && body[2..2 + n] == f.id
      && body[2 + n..4 + n] == Be16(k) && body[4 + n..4 + n + k] == f.pw && body[4 + n + k..] == rest
  {
    Pieces(Be16(|f.id|), f.id, Be16(|f.pw|), f.pw, rest);
  }

  lemma Pieces<T>(a: seq<T>, b: seq<T>, c: seq<T>, d: seq<T>, e: seq<T>)
    ensures var s, i, j, k := a + b + c + d + e, |a| + |b|, |a| + |b| + |c|, |a| + |b| + |c| + |d|;
      s[..|a|] == a && s[|a|..i] == b && s[i..j] == c && s[j..k] == d && s[k..] == e
  {
    Piece(a + b + c + d, e, |a|, |a| + |b|);
    Piece(a + b + c, d, |a|, |a| + |b|);
    Piece(a + b, c, |a|, |a| + |b|);
    Piece(a + b + c + d, e, |a| + |b|, |a| + |b| + |c|);
    Piece(a + b + c, d, |a| + |b|, |a| + |b| + |c|);
    Piece(a + b + c + d, e, |a| + |b| + |c|, |a| + |b| + |c| + |d|);
  }

  lemma Piece<T>(x: seq<T>, y: seq<T>, i: nat, j: nat)
    requires i <= j <= |x|
    ensures (x + y)[i..j] == x[i..j] && (x + y)[..i] == x[..i] && (x + y)[|x|..] == y
  {
  }

  datatype PingFields = PingFields(nonce: nat, clientTs: nat)

  /** `parsePingReq`: accepts exactly 16-byte bodies, as two big-endian numbers. */
  function ParsePingReq(body: seq<Byte>): (r: Option<PingFields>)
    ensures r.Some? <==> |body| == 16
    ensures r.Some? ==> r.value.nonce < ID_LIMIT && r.value.clientTs < ID_LIMIT
  {
    if |body| != 16 then None
    else Some(PingFields(FromBe64(body[..8]), FromBe64(body[8..])))
  }

  lemma PingRoundTrip(nonce: nat, clientTs: nat)
    requires nonce < ID_LIMIT && clientTs < ID_LIMIT
    ensures ParsePingReq(Be64(nonce) + Be64(clientTs)) == Some(PingFields(nonce, clientTs))
  {
    var body := Be64(nonce) + Be64(clientTs);
    assert body[..8] == Be64(nonce) && body[8..] == Be64(clientTs);
    Be64RoundTrip(nonce);
    Be64RoundTrip(clientTs);
  }
}
