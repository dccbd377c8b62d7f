/** The management channel: length-prefixed messages between the management daemon's
    client and the server, one request and one reply per connection. */
module Ipc {
  import opened Words
  import opened Bytes
  import opened Sequences
  import opened RingBuffer
  import opened Framing
  import opened RingTransmit

  const HEADER_SIZE := 2
  const MAX_CLIENT_BODY := 64 * 1024

  // ---- Messages ----

  function Clip(body: seq<Byte>): seq<Byte>
  {
    if |body| > 0xFFFF then body[..0xFFFF] else body
  }

  function Frame(body: seq<Byte>): (r: seq<Byte>)
    ensures |r| == HEADER_SIZE + |Clip(body)|
  {
    Be16(|Clip(body)|) + Clip(body)
  }

  /** `IpcMessage::buildFrame`. */
  method BuildFrame(body: seq<Byte>) returns (r: seq<Byte>)
    ensures r == Frame(body)
  {
    var clipped := if |body| > 0xFFFF then body[..0xFFFF] else body;
    var len := |clipped|;
    var frame := new Byte[len + HEADER_SIZE](_ => 0);
    frame[0] := len / 256 % 256;
    frame[1] := len % 256;
    forall i | 0 <= i < len {
      frame[HEADER_SIZE + i] := clipped[i];
    }
    r := frame[..];
  }

  /** The test a message makes of its own frame. */
  predicate Validates(frame: seq<Byte>)
  {
    |frame| >= HEADER_SIZE && |frame| == FromBe16(frame[..2]) + HEADER_SIZE
  }

  /** Every built frame passes the test and holds the body's first 65535 bytes.  Every frame
      the receive loop cuts passes too, so constructing a message never throws on either path;
      of what passes, the loop can cut exactly what fits its ring. */
  lemma FramesValidate(body: seq<Byte>, frame: seq<Byte>)
    ensures Validates(Frame(body)) && Frame(body)[HEADER_SIZE..] == body[..if |body| > 65535 then 65535 else |body|]
    ensures Cut(IPC, frame) == Split([frame], []) && Passes(IPC, frame) <==>
            Validates(frame) && |frame| <= RING_SIZE
  {
    Be16RoundTrip(|Clip(body)|);
    assert Frame(body)[..2] == Be16(|Clip(body)|);
    SingleFrame(frame);
  }

  /** A single frame comes in through the ring if and only if it fits. */
  lemma SingleFrame(frame: seq<Byte>)
    ensures Cut(IPC, frame) == Split([frame], []) <==> IsFrame(IPC, frame)
    ensures IsFrame(IPC, frame) ==> (Passes(IPC, frame) <==> |frame| <= RING_SIZE)
  {
    ConcatOne(frame);
    CutSplits(IPC, frame);
    if IsFrame(IPC, frame) {
      FramesPassIff(IPC, [frame]);
    }
  }

  // ---- The client ----

  /** What a blocking `read` or `send` may report. */
  datatype IoResult = Moved(limit: nat) | Interrupted | Error

  predicate NoErrors(results: seq<IoResult>) { forall r | r in results :: !r.Error? }

  /** `readExact` on a stream that ends after `stream`; when `results` runs out, a read
      returns all it can. */
  method ReadExact(stream: seq<Byte>, len: nat, results: seq<IoResult>) returns (ok: bool, out: seq<Byte>)
    ensures ok ==> len <= |stream| && out == stream[..len]
    ensures NoErrors(results) ==> (ok <==> len <= |stream|)
  {
    out := [];
    var i := 0;
    while |out| < len
      invariant i <= |results| && |out| <= len && |out| <= |stream| && out == stream[..|out|]
      decreases |results| - i, len - |out|
    {
      var r := if i < |results| then results[i] else Moved(len);
      assert i < |results| ==> r in results;
      i := if i < |results| then i + 1 else i;
      match r {
        case Interrupted =>
        case Error => return false, out;
        case Moved(limit) =>
          if |out| == |stream| { return false, out; }
          var want := len - |out|;
          var left := |stream| - |out|;
          var n := if limit < 1 then 1 else limit;
          n := if n < want then n else want;
          n := if n < left then n else left;
          assert stream[..|out|] + stream[|out|..|out| + n] == stream[..|out| + n];
          out := out + stream[|out|..|out| + n];
      }
    }
    ok := true;
  }

  /** `writeAll`: what reaches the wire is a prefix, and all of it on success. */
  method WriteAll(data: seq<Byte>, results: seq<IoResult>) returns (ok: bool, wire: seq<Byte>)
    ensures wire <= data
    ensures ok ==> wire == data
    ensures NoErrors(results) ==> ok
  {
    wire := [];
    var i := 0;
    while |wire| < |data|
      invariant i <= |results| && wire <= data
      decreases |results| - i, |data| - |wire|
    {
      var r := if i < |results| then results[i] else Moved(|data|);
      assert i < |results| ==> r in results;
      i := if i < |results| then i + 1 else i;
      match r {
        case Interrupted =>
        case Error => return false, wire;
        case Moved(limit) =>
          var left := |data| - |wire|;
          var n := if limit < left then limit else left;
          wire := data[..|wire| + n];
      }
    }
    ok := true;
  }

  /** The reply side of `IpcClient::send`: a header, then as many bytes as it says. */
  method ReadReply(stream: seq<Byte>, first: seq<IoResult>, second: seq<IoResult>) returns (r: Option<seq<Byte>>)
    ensures r.Some? ==> Frame(r.value) <= stream
    ensures NoErrors(first) && NoErrors(second) ==>
              forall body :: Frame(body) <= stream ==> r == Some(Clip(body))
  {
    var ok, header := ReadExact(stream, 2, first);
    if !ok { return None; }
    var len := FromBe16(header);
    var ok', body := ReadExact(stream[2..], len, second);
    if !ok' { return None; }
    Be16Onto(header);
    assert Frame(body) == stream[..2 + len];
    forall other | Frame(other) <= stream ensures Clip(other) == body {
      assert stream[..2] == Frame(other)[..2] == Be16(|Clip(other)|);
      Be16RoundTrip(|Clip(other)|);
      assert Clip(other) == Frame(other)[2..] == stream[2..2 + len];
    }
    r := Some(body);
  }

  /** What the client sends for a payload it does not refuse; the header has 16 bits. */
  function Request(payload: seq<Byte>): seq<Byte>
    requires |payload| <= MAX_CLIENT_BODY
  {
    Be16(|payload| % 0x1_0000) + payload
  }

  /** A request comes in as the one frame it is, exactly when it fits the receive ring: of
      the payloads the client does not refuse, 65535 bytes fill the ring and 65536 bytes
      are announced as none. */
  lemma RequestFramedIff(payload: seq<Byte>)
    requires |payload| <= MAX_CLIENT_BODY
    ensures Cut(IPC, Request(payload)) == Split([Request(payload)], []) && Passes(IPC, Request(payload)) <==>
            |payload| <= RING_SIZE - HEADER_SIZE
    ensures |payload| == 0xFFFF ==> !Passes(IPC, Request(payload))
    ensures |payload| == 0x1_0000 ==> Cut(IPC, Request(payload)).frames[..1] == [[0, 0]]
  {
    var q := Request(payload);
    Be16RoundTrip(|payload| % 0x1_0000);
    assert q[..2] == Be16(|payload| % 0x1_0000);
    SingleFrame(q);
    if |payload| == 0x1_0000 {
      assert q[..2] == [0, 0];
      assert Cut(IPC, q).frames[0] == [0, 0];
    }
  }

  /** What a connection that has read `taken` bytes of a request holds. */
  lemma PartOfRequest(payload: seq<Byte>, taken: nat)
    requires |payload| <= MAX_CLIENT_BODY && taken <= |Request(payload)|
    ensures var q := Request(payload);
      var r := Cut(IPC, q[..taken]);
      && (|payload| <= RING_SIZE - HEADER_SIZE ==>
            |r.rest| < RING_SIZE && r.frames <= [q] && (taken == |q| ==> r.frames == [q]))
      && (|payload| == 0xFFFF && r.rest != [] ==> r.frames == [])
      && (|payload| == 0x1_0000 ==> r.frames != [q])
  {
    if |payload| < 0x1_0000 {
      RequestIsFrame(payload);
      PartOfFrame(Request(payload), taken);
    } else {
      PartOfLong(payload, taken);
    }
  }

  lemma PartOfLong(payload: seq<Byte>, taken: nat)
    requires |payload| == 0x1_0000 && taken <= |Request(payload)|
    ensures Cut(IPC, Request(payload)[..taken]).frames != [Request(payload)]
  {
    var q := Request(payload);
    assert !IsFrame(IPC, q) by {
      Be16RoundTrip(0);
      assert q[..2] == Be16(0);
    }
    CutSplits(IPC, q[..taken]);
  }

  lemma RequestIsFrame(payload: seq<Byte>)
    requires |payload| < 0x1_0000
    ensures IsFrame(IPC, Request(payload)) && |Request(payload)| == |payload| + HEADER_SIZE
  {
    Be16RoundTrip(|payload|);
    assert Request(payload)[..2] == Be16(|payload|);
  }

  lemma PartOfFrame(q: seq<Byte>, taken: nat)
    requires IsFrame(IPC, q) && taken <= |q|
    ensures var r := Cut(IPC, q[..taken]);
      && r.frames <= [q] && (r.rest != [] ==> r.frames == []) && (taken == |q| ==> r.frames == [q])
      && (|q| <= RING_SIZE ==> |r.rest| < RING_SIZE)
  {
    ConcatOne(q);
    assert q[..taken] + q[taken..] == q;
    PartOfFrames(IPC, [q], q[..taken], q[taken..]);
    SingleFrame(q);
    assert q[..|q|] == q;
  }

  /** A client's request on a new connection of the server, read at the given events.  If they
      deliver it all, it arrives as one message if and only if it has at most 65534 bytes; a
      payload of 65535 bytes ends in a full-ring close. */
  method Submit(conn: RxConnection, payload: seq<Byte>, events: seq<Readiness>) returns (outcome: Outcome, taken: nat)
    requires conn.Valid() && conn.open && conn.received == [] && conn.framer == IPC
    requires |payload| <= MAX_CLIENT_BODY
    modifies conn, conn.ring, conn.ring.buffer
    ensures conn.Valid() && taken <= |Request(payload)| && conn.received == Request(payload)[..taken]
    ensures |payload| <= RING_SIZE - HEADER_SIZE ==> !outcome.RingFull? && conn.frames <= [Request(payload)]
    ensures Delivers(events, |Request(payload)|) ==>
              (conn.frames == [Request(payload)] <==> |payload| <= RING_SIZE - HEADER_SIZE)
    ensures Delivers(events, |Request(payload)|) && |payload| <= 65534 ==>
              |conn.frames| == 1 && conn.frames[0][2..] == payload && FromBe16(conn.frames[0][..2]) == |payload|
    ensures Delivers(events, |Request(payload)|) && |payload| == 0xFFFF ==> outcome.RingFull? && conn.frames == []
  {
    ghost var q := Request(payload);
    outcome, taken := conn.ReceiveAll(Request(payload), events);
    RequestFramedIff(payload);
    PartOfRequest(payload, taken);
    assert taken == |q| ==> q[..taken] == q;
    assert q[2..] == payload && q[..2] == Be16(|payload| % 0x1_0000);
    Be16RoundTrip(|payload| % 0x1_0000);
  }

  // ---- The reply on its way ----

  lemma OnePacket(fd: int, frame: seq<Byte>)
    ensures PayloadsFor(fd, [Packet(fd, frame)]) == [frame]
    ensures Admitted(RING_SIZE, [frame]) == if |frame| <= RING_SIZE then [frame] else []
    ensures Concat([frame]) == frame
  {
    PayloadsForNext(fd, [], Packet(fd, frame));
    assert [] + [Packet(fd, frame)] == [Packet(fd, frame)];
    assert [frame][..0] == [];
    ConcatOne(frame);
  }

  /** The transmit ring of an idle connection admits a reply exactly when its body has
      at most 65534 bytes; a longer one is dropped whole. */
  lemma ReplyAdmittedIff(body: seq<Byte>)
    ensures Admitted(RING_SIZE, [Frame(body)]) == if |body| <= 65534 then [Frame(body)] else []
  {
    OnePacket(0, Frame(body));
  }

  /** How many bytes of a ring get on the wire in the flushes from number `i` on; an error ends
      them. */
  function MovesOver(v: View, flushes: seq<seq<SendResult>>, i: nat): (k: nat)
    requires v.Valid() && i <= |flushes|
    ensures k <= |v.data|
    decreases |flushes| - i
  {
    if i == |flushes| then 0
    else
      var k := Moves(v, flushes[i]);
      if Breaks(v, flushes[i]) then k else k + MovesOver(v.Drop(k), flushes, i + 1)
  }

  predicate NoneBroken(flushes: seq<seq<SendResult>>)
  {
    forall e | e in flushes :: Broken !in e
  }

  /** How many flushes begin with a send that takes something. */
  function Useful(flushes: seq<seq<SendResult>>, i: nat): nat
    requires i <= |flushes|
    decreases |flushes| - i
  {
    if i == |flushes| then 0
    else
      (if flushes[i] != [] && flushes[i][0].Sent? && flushes[i][0].limit > 0 then 1 else 0)
      + Useful(flushes, i + 1)
  }

  /** Without errors, as many useful flushes as there are bytes get everything out, however
      little each send takes. */
  lemma {:induction false} UsefulFlushesComplete(v: View, flushes: seq<seq<SendResult>>, i: nat)
    requires v.Valid() && i <= |flushes| && NoneBroken(flushes) && Useful(flushes, i) >= |v.data|
    ensures MovesOver(v, flushes, i) == |v.data|
    decreases |flushes| - i
  {
    if i < |flushes| {
      assert flushes[i] in flushes;
      if Breaks(v, flushes[i]) { BreaksHasBroken(v, flushes[i], 0); }
      UsefulFlushesComplete(v.Drop(Moves(v, flushes[i])), flushes, i + 1);
    }
  }

  /** After the flushes before number `i`, `c0` has become `c` by moving `k` bytes. */
  ghost predicate Underway(c0: TxConn, c: TxConn, k: nat, flushes: seq<seq<SendResult>>, first: nat, i: nat)
  {
    && c0.ring.Valid() && k <= |c0.ring.data| && first <= i <= |flushes|
    && c.ring == c0.ring.Drop(k) && c.wire == c0.wire + c0.ring.data[..k]
    && MovesOver(c0.ring, flushes, first) == k + MovesOver(c.ring, flushes, i)
    && (c0.ring.data != [] ==> c.ring.data != [])
  }

  /** The connection is over after `wire`: completed, or failed. */
  ghost predicate Finished(c0: TxConn, flushes: seq<seq<SendResult>>, first: nat, completed: bool, wire: seq<Byte>)
    requires c0.ring.Valid() && first <= |flushes|
  {
    var k := MovesOver(c0.ring, flushes, first);
    wire == c0.wire + c0.ring.data[..k] && (completed <==> c0.ring.data != [] && k == |c0.ring.data|)
  }

  lemma UnderwayNext(c0: TxConn, c: TxConn, k: nat, flushes: seq<seq<SendResult>>, first: nat, i: nat)
    requires Underway(c0, c, k, flushes, first, i) && i < |flushes|
    ensures var f := FlushFate(c, true, flushes[i]);
      if f.Open? then Underway(c0, f.c, k + Moves(c.ring, flushes[i]), flushes, first, i + 1)
      else
        f.c.wire == c0.wire + c0.ring.data[..MovesOver(c0.ring, flushes, first)]
        && c0.ring.data != []
        && (!Breaks(c.ring, flushes[i]) <==> MovesOver(c0.ring, flushes, first) == |c0.ring.data|)
  {
    var n := Moves(c.ring, flushes[i]);
    DropTwice(c0.ring, k, n);
    AppendAssoc(c0.wire, c0.ring.data[..k], c.ring.data[..n]);
    if c.ring.data == [] { assert c.ring.Drop(0) == c.ring; }
    if Breaks(c.ring, flushes[i]) { BreaksLeavesData(c.ring, flushes[i], 0); }
    if n == |c.ring.data| { assert c.ring.Drop(n).data == []; }
  }

  lemma {:induction false} BreaksLeavesData(v: View, sends: seq<SendResult>, i: nat)
    requires v.Valid() && i <= |sends| && BreaksFrom(v, sends, i)
    ensures MovesFrom(v, sends, i) < |v.data|
    decreases |sends| - i
  {
    if sends[i].Sent? { BreaksLeavesData(v.Drop(v.ReadLen()), sends, i + 1); }
  }

  /** The server's part: queues a reply on a fresh connection and sends it in a first flush and
      over any number of writability events, with any split of sends: exactly the bytes that
      the sends take get on the wire, and the connection completes exactly when they take
      them all. */
  method Transmit(fd: int, frame: seq<Byte>, flushes: seq<seq<SendResult>>)
    returns (completed: bool, wire: seq<Byte>)
    requires frame != [] && flushes != []
    ensures |frame| > RING_SIZE ==> wire == [] && !completed
    ensures |frame| <= RING_SIZE ==>
      var k := MovesOver(View(RING_SIZE, 0, frame), flushes, 0);
      wire == frame[..k] && (completed <==> k == |frame|)
  {
    var server := new TxReactor(true);
    server.AcceptConnection(fd);
    assert server.conns[fd] == FRESH;
    OnePacket(fd, frame);
    FirstFlush(frame, flushes);
    var results := map[fd := flushes[0]];
    assert SendsFor(fd, results) == flushes[0];
    var gone := server.ProcessTxQueue([Packet(fd, frame)], results);
    if fd !in server.conns {
      return gone[fd].ring.data == [], gone[fd].wire;
    }
    ghost var c := server.conns[fd];
    completed, wire := Continue(server, fd, flushes, 1);
    if |frame| <= RING_SIZE {
      UnderwayFinish(Ready(frame), c, Moves(Ready(frame).ring, flushes[0]), flushes, completed, wire);
    }
  }

  /** A new connection with a reply in its ring. */
  function Ready(frame: seq<Byte>): TxConn
  {
    FRESH.(ring := View(RING_SIZE, 0, frame), accepted := [frame])
  }

  lemma FirstFlush(frame: seq<Byte>, flushes: seq<seq<SendResult>>)
    requires frame != [] && flushes != []
    ensures var f := BatchFate(FRESH, [frame], true, flushes[0]);
      if |frame| > RING_SIZE then f == Open(FRESH)
      else if f.Open? then Underway(Ready(frame), f.c, Moves(Ready(frame).ring, flushes[0]), flushes, 0, 1)
      else Finished(Ready(frame), flushes, 0, f.c.ring.data == [], f.c.wire)
  {
    OnePacket(0, frame);
    var c0 := Ready(frame);
    if |frame| <= RING_SIZE {
      assert LoadAll(FRESH, [frame]) == c0;
      assert c0.ring.Drop(0) == c0.ring;
      UnderwayNext(c0, c0, 0, flushes, 0, 0);
      if Breaks(c0.ring, flushes[0]) { BreaksLeavesData(c0.ring, flushes[0], 0); }
    }
  }

  lemma UnderwayFinish(c0: TxConn, c: TxConn, k: nat, flushes: seq<seq<SendResult>>, completed: bool, wire: seq<Byte>)
    requires 1 <= |flushes| && Underway(c0, c, k, flushes, 0, 1) && c0.ring.data != []
    requires Finished(c, flushes, 1, completed, wire)
    ensures Finished(c0, flushes, 0, completed, wire)
  {
    var n := MovesOver(c.ring, flushes, 1);
    DropTwice(c0.ring, k, n);
    AppendAssoc(c0.wire, c0.ring.data[..k], c.ring.data[..n]);
  }

  method Continue(server: TxReactor, fd: int, flushes: seq<seq<SendResult>>, first: nat)
    returns (completed: bool, wire: seq<Byte>)
    requires server.closeWhenDrained && server.Valid() && fd in server.conns && first <= |flushes|
    modifies server
    ensures Finished(old(server.conns)[fd], flushes, first, completed, wire)
  {
    ghost var c0 := server.conns[fd];
    ghost var k: nat := 0;
    ShiftNothing(c0);
    for i := first to |flushes|
      invariant server.Valid() && fd in server.conns && Underway(c0, server.conns[fd], k, flushes, first, i)
    {
      var over;
      over, completed, wire, k := OneEvent(server, fd, flushes, i, c0, k, first);
      if over { return; }
    }
    completed, wire := false, server.conns[fd].wire;
  }

  method OneEvent(server: TxReactor, fd: int, flushes: seq<seq<SendResult>>, i: nat, ghost c0: TxConn, ghost k: nat,
                  ghost first: nat)
    returns (over: bool, completed: bool, wire: seq<Byte>, ghost k': nat)
    requires server.closeWhenDrained && server.Valid() && fd in server.conns && i < |flushes|
    requires Underway(c0, server.conns[fd], k, flushes, first, i)
    modifies server
    ensures server.Valid()
    ensures !over ==> fd in server.conns && Underway(c0, server.conns[fd], k', flushes, first, i + 1)
    ensures over ==> Finished(c0, flushes, first, completed, wire)
  {
    UnderwayNext(c0, server.conns[fd], k, flushes, first, i);
    k' := k + Moves(server.conns[fd].ring, flushes[i]);
    var end, last := server.OnWritable(fd, flushes[i]);
    over, completed, wire := !end.Kept?, end.Completed?, last.wire;
  }

  /** A reply queued for an idle connection and read by the client with any split of sends and
      of reads.  The client gets exactly the body if the sends take the whole frame, and
      nothing otherwise; they take it if none fails and as many flushes as the frame has
      bytes take at least one byte each.  Of a body over 65534 bytes nothing gets on the wire. */
  method Answer(fd: int, body: seq<Byte>, flushes: seq<seq<SendResult>>, first: seq<IoResult>, second: seq<IoResult>)
    returns (wire: seq<Byte>, reply: Option<seq<Byte>>)
    requires flushes != [] && NoErrors(first) && NoErrors(second)
    ensures |body| > 65534 ==> wire == [] && reply == None
    ensures |body| <= 65534 ==>
      var k := MovesOver(View(RING_SIZE, 0, Frame(body)), flushes, 0);
      wire == Frame(body)[..k] && reply == if k == |Frame(body)| then Some(body) else None
    ensures |body| <= 65534 && NoneBroken(flushes) && Useful(flushes, 0) >= |Frame(body)| ==> reply == Some(body)
  {
    var frame := BuildFrame(body);
    var completed;
    completed, wire := Transmit(fd, frame, flushes);
    if |body| <= 65534 && NoneBroken(flushes) && Useful(flushes, 0) >= |frame| {
      UsefulFlushesComplete(View(RING_SIZE, 0, frame), flushes, 0);
    }
    reply := ReadReply(wire, first, second);
    if reply.Some? { PrefixReads(body, reply.value, wire); }
  }

  /** No part of a frame but the whole can be read as a frame. */
  lemma PrefixReads(body: seq<Byte>, other: seq<Byte>, wire: seq<Byte>)
    requires Frame(other) <= wire <= Frame(body)
    ensures wire == Frame(body)
  {
    assert Be16(|Clip(other)|) == wire[..2] == Be16(|Clip(body)|);
    Be16RoundTrip(|Clip(other)|);
    Be16RoundTrip(|Clip(body)|);
  }
}
