/** Length-prefixed framing and the receive loop shared by the TCP, TLS and IPC
    reactors. */
module Framing {
  import opened Bytes
  import opened Sequences
  import opened RingBuffer

  /** A header of fixed size with a 16-bit body length at a fixed offset. */
  datatype Framer = Framer(headerSize: nat, lenAt: nat) {
    predicate Valid() { lenAt + 2 <= headerSize <= RING_SIZE }
  }

  const PACKET := Framer(16, 2)   // TCP and TLS
  const IPC := Framer(2, 0)

  const RING_SIZE := 65536
  const MAX_BODY_LEN := 64 * 1024

  datatype Result = NeedMoreData | InvalidBodyLen | Ok(frameLen: nat)

  function BodyLen(f: Framer, s: seq<Byte>): (n: nat)
    requires f.Valid() && |s| >= f.headerSize
    ensures n < 0x1_0000
  {
    FromBe16(s[f.lenAt..f.lenAt + 2])
  }

  function Extract(f: Framer, s: seq<Byte>): Result
    requires f.Valid()
  {
    if |s| < f.headerSize then NeedMoreData
    else if BodyLen(f, s) > MAX_BODY_LEN then InvalidBodyLen
    else if |s| < f.headerSize + BodyLen(f, s) then NeedMoreData
    else Ok(f.headerSize + BodyLen(f, s))
  }

  /** A complete frame, and a suffix that holds no complete frame. */
  predicate IsFrame(f: Framer, s: seq<Byte>)
    requires f.Valid()
  {
    |s| >= f.headerSize && |s| == f.headerSize + BodyLen(f, s)
  }

  predicate IsPartial(f: Framer, s: seq<Byte>)
    requires f.Valid()
  {
    |s| < f.headerSize || |s| < f.headerSize + BodyLen(f, s)
  }

  datatype Split = Split(frames: seq<seq<Byte>>, rest: seq<Byte>)

  /** The one-shot parse of a whole stream. */
  function Cut(f: Framer, s: seq<Byte>): (r: Split)
    requires f.Valid()
    decreases |s|
  {
    match Extract(f, s)
    case Ok(n) =>
      var more := Cut(f, s[n..]);
      Split([s[..n]] + more.frames, more.rest)
    case _ => Split([], s)
  }

  function Concat(xs: seq<seq<Byte>>): seq<Byte>
  {
    if xs == [] then [] else xs[0] + Concat(xs[1..])
  }

  lemma {:induction false} ConcatAppend(xs: seq<seq<Byte>>, ys: seq<seq<Byte>>)
    ensures Concat(xs + ys) == Concat(xs) + Concat(ys)
  {
    if xs == [] {
      assert xs + ys == ys;
    } else {
      ConcatAppend(xs[1..], ys);
      assert (xs + ys)[1..] == xs[1..] + ys;
      AppendAssoc(xs[0], Concat(xs[1..]), Concat(ys));
    }
  }

  /** The invalid-length result cannot occur: a 16-bit length never exceeds 64 KiB. */
  lemma LengthNeverInvalid(f: Framer, s: seq<Byte>)
    requires f.Valid()
    ensures Extract(f, s) != InvalidBodyLen
    ensures Extract(f, s).NeedMoreData? <==> IsPartial(f, s)
  {
  }

  lemma HeaderOfPrefix(f: Framer, s: seq<Byte>, t: seq<Byte>)
    requires f.Valid() && |s| >= f.headerSize
    ensures BodyLen(f, s + t) == BodyLen(f, s)
  {
    assert (s + t)[f.lenAt..f.lenAt + 2] == s[f.lenAt..f.lenAt + 2];
  }

  /** `r` splits `s` into complete frames and an incomplete rest. */
  ghost predicate Splits(f: Framer, s: seq<Byte>, r: Split)
    requires f.Valid()
  {
    Concat(r.frames) + r.rest == s && AllFrames(f, r.frames) && IsPartial(f, r.rest)
  }

  predicate AllFrames(f: Framer, xs: seq<seq<Byte>>)
    requires f.Valid()
  {
    forall x | x in xs :: IsFrame(f, x)
  }

  lemma ConcatCons(x: seq<Byte>, xs: seq<seq<Byte>>)
    ensures Concat([x] + xs) == x + Concat(xs)
  {
    assert ([x] + xs)[1..] == xs;
  }

  lemma SplitsCons(f: Framer, frame: seq<Byte>, after: seq<Byte>, r: Split)
    requires f.Valid() && IsFrame(f, frame) && Splits(f, after, r)
    ensures Splits(f, frame + after, Split([frame] + r.frames, r.rest))
  {
    ConcatCons(frame, r.frames);
    AppendAssoc(frame, Concat(r.frames), r.rest);
  }

  /** The parse splits the stream into complete frames and an incomplete rest ... */
  lemma {:induction false} CutSplits(f: Framer, s: seq<Byte>)
    requires f.Valid()
    ensures Splits(f, s, Cut(f, s))
    decreases |s|
  {
    LengthNeverInvalid(f, s);
    if Extract(f, s).Ok? {
      var n := Extract(f, s).frameLen;
      var frame, after := s[..n], s[n..];
      assert s == frame + after;
      CutTakes(f, s, frame, after);
      CutSplits(f, after);
      HeaderOfPrefix(f, frame, after);
      SplitsCons(f, frame, after, Cut(f, after));
    } else {
      assert Cut(f, s) == Split([], s);
      assert Concat([]) + s == s;
    }
  }

  /** ... and it is the only such split. */
  lemma {:induction false} CutUnique(f: Framer, frames: seq<seq<Byte>>, rest: seq<Byte>)
    requires f.Valid() && AllFrames(f, frames) && IsPartial(f, rest)
    ensures Cut(f, Concat(frames) + rest) == Split(frames, rest)
    decreases |frames|
  {
    if frames == [] {
      assert Concat(frames) + rest == rest;
    } else {
      var x, tail := frames[0], Concat(frames[1..]) + rest;
      assert x in frames;
      CutUnique(f, frames[1..], rest);
      AppendAssoc(x, Concat(frames[1..]), rest);
      HeaderOfPrefix(f, x, tail);
      CutTakes(f, x + tail, x, tail);
      assert [x] + frames[1..] == frames;
    }
  }

  lemma JoinSplits(f: Framer, a: Split, b: Split, s: seq<Byte>, t: seq<Byte>)
    requires f.Valid() && Splits(f, s, a) && Splits(f, a.rest + t, b)
    ensures Splits(f, s + t, Split(a.frames + b.frames, b.rest))
  {
    ConcatAppend(a.frames, b.frames);
    AppendAssoc(Concat(a.frames), Concat(b.frames), b.rest);
    AppendAssoc(Concat(a.frames), a.rest, t);
  }

  /** Bytes that arrive later are cut together with what was left over. */
  lemma CutAppend(f: Framer, s: seq<Byte>, t: seq<Byte>)
    requires f.Valid()
    ensures var r := Cut(f, s);
      var q := Cut(f, r.rest + t);
      Cut(f, s + t) == Split(r.frames + q.frames, q.rest)
  {
    var r := Cut(f, s);
    var q := Cut(f, r.rest + t);
    CutSplits(f, s);
    CutSplits(f, r.rest + t);
    JoinSplits(f, r, q, s, t);
    CutUnique(f, r.frames + q.frames, q.rest);
  }

  lemma CutTakes(f: Framer, s: seq<Byte>, frame: seq<Byte>, after: seq<Byte>)
    requires f.Valid() && s == frame + after && Extract(f, s) == Ok(|frame|)
    ensures Cut(f, s) == Split([frame] + Cut(f, after).frames, Cut(f, after).rest)
  {
    assert s[..|frame|] == frame && s[|frame|..] == after;
  }

  /** What a receiver with an unbounded buffer accumulates when the stream comes in pieces. */
  function Feed(f: Framer, chunks: seq<seq<Byte>>): Split
    requires f.Valid()
    decreases |chunks|
  {
    if chunks == [] then Split([], [])
    else
      var before := Feed(f, chunks[..|chunks| - 1]);
      var now := Cut(f, before.rest + chunks[|chunks| - 1]);
      Split(before.frames + now.frames, now.rest)
  }

  /** Any two ways to chop up one stream give the same frames and the same rest. */
  lemma {:induction false} ChunkingIndependent(f: Framer, chunks: seq<seq<Byte>>)
    requires f.Valid()
    ensures Feed(f, chunks) == Cut(f, Concat(chunks))
    decreases |chunks|
  {
    if chunks != [] {
      var front, last := chunks[..|chunks| - 1], chunks[|chunks| - 1];
      ChunkingIndependent(f, front);
      CutAppend(f, Concat(front), last);
      ConcatAppend(front, [last]);
      assert Concat([last]) == last + Concat([last][1..]) == last;
      assert front + [last] == chunks;
    }
  }

  // ---- The bounded ring ----

  /** `s` can come in through the ring: whenever one more byte of it is due, the bytes of
      the pending frame leave room. */
  ghost predicate Passes(f: Framer, s: seq<Byte>)
    requires f.Valid()
  {
    forall k | 0 <= k < |s| :: |Cut(f, s[..k]).rest| < RING_SIZE
  }

  predicate FramesFit(xs: seq<seq<Byte>>)
  {
    forall x | x in xs :: |x| <= RING_SIZE
  }

  /** A chunk no longer than the room that is left comes in. */
  lemma ChunkPasses(f: Framer, s: seq<Byte>, t: seq<Byte>)
    requires f.Valid() && Passes(f, s) && |Cut(f, s).rest| + |t| <= RING_SIZE
    ensures Passes(f, s + t)
  {
    forall k | 0 <= k < |s + t| ensures |Cut(f, (s + t)[..k]).rest| < RING_SIZE {
      if k < |s| {
        assert (s + t)[..k] == s[..k];
      } else {
        var part := t[..k - |s|];
        assert (s + t)[..k] == s + part;
        CutAppend(f, s, part);
        CutSplits(f, Cut(f, s).rest + part);
      }
    }
  }

  /** A ring-sized rest in mid-stream belongs to a frame that is longer than the ring, or
      is followed by a rest that is. */
  lemma FullRingHoldsOversizedFrame(f: Framer, s: seq<Byte>, t: seq<Byte>)
    requires f.Valid() && |Cut(f, s).rest| >= RING_SIZE && t != []
    ensures BodyLen(f, Cut(f, s).rest) > RING_SIZE - f.headerSize
    ensures !FramesFit(Cut(f, s + t).frames) || |Cut(f, s + t).rest| > RING_SIZE
  {
    var x := Cut(f, s).rest;
    CutSplits(f, s);
    CutAppend(f, s, t);
    HeaderOfPrefix(f, x, t);
    LengthNeverInvalid(f, x + t);
    if Extract(f, x + t).Ok? {
      var frame := (x + t)[..Extract(f, x + t).frameLen];
      assert Cut(f, x + t).frames[0] == frame;
      assert Cut(f, s + t).frames[|Cut(f, s).frames|] == frame;
    }
  }

  /** Once a ring's worth of an oversized frame, complete or not, has arrived behind any
      complete frames, the rest of the parse fills the ring, and the byte after it is one
      that cannot come in. */
  lemma OversizedFrameFillsRing(f: Framer, frames: seq<seq<Byte>>, x: seq<Byte>, t: seq<Byte>)
    requires f.Valid() && AllFrames(f, frames) && RING_SIZE < |x| <= f.headerSize + BodyLen(f, x)
    ensures Cut(f, Concat(frames) + x[..RING_SIZE]).rest == x[..RING_SIZE]
    ensures !Passes(f, Concat(frames) + (x + t))
  {
    var y, s := x[..RING_SIZE], Concat(frames) + (x + t);
    assert x == y + x[RING_SIZE..];
    HeaderOfPrefix(f, y, x[RING_SIZE..]);
    CutUnique(f, frames, y);
    assert s[..|Concat(frames)| + RING_SIZE] == Concat(frames) + y;
  }

  lemma ConcatAt(frames: seq<seq<Byte>>, j: nat)
    requires j < |frames|
    ensures Concat(frames) == Concat(frames[..j]) + (frames[j] + Concat(frames[j + 1..]))
  {
    var tail := frames[j..];
    assert tail[0] == frames[j] && tail[1..] == frames[j + 1..];
    ConcatAppend(frames[..j], tail);
    assert frames[..j] + tail == frames;
  }

  /** The exact limit: what comes in through the ring are the streams whose complete frames
      are no longer than the ring, and whose incomplete frame does not overfill it. */
  lemma PassesIffFramesFit(f: Framer, s: seq<Byte>)
    requires f.Valid()
    ensures Passes(f, s) <==> FramesFit(Cut(f, s).frames) && |Cut(f, s).rest| <= RING_SIZE
  {
    var frames, rest := Cut(f, s).frames, Cut(f, s).rest;
    CutSplits(f, s);
    if Passes(f, s) {
      forall x | x in frames ensures |x| <= RING_SIZE {
        var j :| 0 <= j < |frames| && frames[j] == x;
        if |x| > RING_SIZE { OversizedAt(f, frames, rest, j); }
      }
      assert rest + [] == rest;
      if |rest| > RING_SIZE { OversizedFrameFillsRing(f, frames, rest, []); }
    }
    if FramesFit(frames) && |rest| <= RING_SIZE {
      forall k | 0 <= k < |s| ensures |Cut(f, s[..k]).rest| < RING_SIZE {
        assert s[..k] + s[k..] == s;
        if |Cut(f, s[..k]).rest| >= RING_SIZE { FullRingHoldsOversizedFrame(f, s[..k], s[k..]); }
      }
    }
  }

  lemma OversizedAt(f: Framer, frames: seq<seq<Byte>>, rest: seq<Byte>, j: nat)
    requires f.Valid() && AllFrames(f, frames) && j < |frames| && |frames[j]| > RING_SIZE
    ensures !Passes(f, Concat(frames) + rest)
  {
    ConcatAt(frames, j);
    assert AllFrames(f, frames[..j]) && IsFrame(f, frames[j]);
    var before, x, after := Concat(frames[..j]), frames[j], Concat(frames[j + 1..]);
    AppendAssoc(before, x + after, rest);
    AppendAssoc(x, after, rest);
    OversizedFrameFillsRing(f, frames[..j], x, after + rest);
  }

  /** A stream of complete frames comes in if and only if every frame fits the ring. */
  lemma FramesPassIff(f: Framer, frames: seq<seq<Byte>>)
    requires f.Valid() && AllFrames(f, frames)
    ensures Cut(f, Concat(frames)) == Split(frames, [])
    ensures Passes(f, Concat(frames)) <==> FramesFit(frames)
  {
    CutUnique(f, frames, []);
    assert Concat(frames) + [] == Concat(frames);
    PassesIffFramesFit(f, Concat(frames));
  }

  /** The first part of such a stream is cut into the first frames; it leaves the ring full
      only if some frame does not fit. */
  lemma PartOfFrames(f: Framer, frames: seq<seq<Byte>>, s: seq<Byte>, t: seq<Byte>)
    requires f.Valid() && AllFrames(f, frames) && s + t == Concat(frames)
    ensures Cut(f, s).frames <= frames
    ensures FramesFit(frames) ==> |Cut(f, s).rest| < RING_SIZE
    ensures Cut(f, s).rest != [] ==> Cut(f, s).frames != frames
  {
    FramesPassIff(f, frames);
    CutAppend(f, s, t);
    CutSplits(f, s);
    if t == [] {
      assert s == Concat(frames);
    } else if FramesFit(frames) {
      assert s == Concat(frames)[..|s|];
    }
  }

  // ---- The loop ----

  /** What a call of `recv` or `SSL_read` may report. */
  datatype RecvResult =
    | Data(limit: nat)   // some of the pending bytes, at most `limit` (and at least one)
    | EndOfStream
    | Interrupted
    | WouldBlock
    | Failed

  datatype Outcome = Drained | RingFull | PeerClosed | SocketError | BadLength

  /** How many bytes a call that may return `limit` bytes hands over. */
  function Handed(limit: nat, room: nat, n: nat): nat
  {
    var most := if limit < 1 then 1 else limit;
    if most <= room && most <= n then most else if room <= n then room else n
  }

  /** The position of the first result after which the loop does not go on. */
  function Ending(results: seq<RecvResult>): (j: nat)
    ensures j <= |results|
    ensures j < |results| ==> !results[j].Data? && !results[j].Interrupted?
    ensures forall k | 0 <= k < j :: results[k].Data? || results[k].Interrupted?
  {
    if results == [] || (!results[0].Data? && !results[0].Interrupted?) then 0 else 1 + Ending(results[1..])
  }

  /** How many calls report data. */
  function CountData(results: seq<RecvResult>): nat
  {
    if results == [] then 0
    else CountData(results[..|results| - 1]) + if results[|results| - 1].Data? then 1 else 0
  }

  /** How the event ends if neither the ring nor the pending bytes run out first. */
  function Verdict(results: seq<RecvResult>): Outcome
  {
    var j := Ending(results);
    if j == |results| || results[j].WouldBlock? then Drained
    else if results[j].EndOfStream? then PeerClosed
    else SocketError
  }

  /** After `i` calls that let the loop go on, `taken` of `n` pending bytes are in. */
  predicate Progress(results: seq<RecvResult>, i: nat, taken: nat, n: nat)
  {
    i <= Ending(results) && taken <= n && (taken == n || taken >= CountData(results[..i]))
  }

  /** What the call after `i` others reports: past the end it would block. */
  function ResultAt(results: seq<RecvResult>, i: nat): RecvResult
  {
    if i < |results| then results[i] else WouldBlock
  }

  lemma ProgressNext(results: seq<RecvResult>, i: nat, taken: nat, now: nat, n: nat)
    requires Progress(results, i, taken, n) && taken <= now <= n
    requires Ending([ResultAt(results, i)]) == 1
    requires ResultAt(results, i).Data? ==> now > taken
    ensures i < |results| && Progress(results, i + 1, now, n)
  {
    assert results[..i + 1][..i] == results[..i];
  }

  lemma EventEnds(results: seq<RecvResult>, i: nat, taken: nat, n: nat)
    requires Progress(results, i, taken, n) && (Ending([ResultAt(results, i)]) == 0 || taken == n)
    ensures taken == n || taken >= CountData(results[..Ending(results)])
    ensures Ending([ResultAt(results, i)]) == 0 ==> Verdict(results) == Verdict([ResultAt(results, i)])
    ensures Ending([ResultAt(results, i)]) == 1 ==> Verdict([ResultAt(results, i)]).Drained?
  {
  }

  /** One readiness event of a connection: how much of the stream the kernel has by then,
      and what the successive calls report. */
  datatype Readiness = Readiness(arrived: nat, results: seq<RecvResult>)

  /** No call reports the end of the stream or an error. */
  predicate Quiet(events: seq<Readiness>)
  {
    forall e | e in events :: Verdict(e.results).Drained?
  }

  /** All `n` bytes have arrived, and the calls go on long enough to read them. */
  predicate ReadsAll(e: Readiness, n: nat)
  {
    e.arrived >= n && CountData(e.results[..Ending(e.results)]) >= n
  }

  predicate Delivers(events: seq<Readiness>, n: nat)
  {
    Quiet(events) && events != [] && ReadsAll(events[|events| - 1], n)
  }

  /** What of the stream the kernel holds at an event, `taken` bytes having been read. */
  function Held(stream: seq<Byte>, taken: nat, e: Readiness): (r: seq<Byte>)
    requires taken <= |stream|
    ensures r <= stream[taken..]
    ensures e.arrived >= |stream| ==> r == stream[taken..]
  {
    if e.arrived <= taken then []
    else if e.arrived < |stream| then stream[taken..e.arrived]
    else stream[taken..]
  }

  class RxConnection {
    const framer: Framer
    const ring: ByteRingBuffer
    var open: bool
    var frames: seq<seq<Byte>>        // handed to the workers, in order
    ghost var received: seq<Byte>     // every byte the socket delivered

    ghost predicate Valid()
      reads this, ring, ring.buffer
    {
      && framer.Valid()
      && ring.Valid() && ring.buffer.Length == RING_SIZE
      && frames == Cut(framer, received).frames
      && ring.Contents() == Cut(framer, received).rest
      && Passes(framer, received)
    }

    constructor (framer: Framer)
      requires framer.Valid()
      ensures Valid() && fresh(ring) && fresh(ring.buffer) && this.framer == framer
      ensures open && received == [] && frames == []
    {
      this.framer := framer;
      ring := new ByteRingBuffer(RING_SIZE);
      open, frames, received := true, [], [];
    }

    /** `tryExtractFrame` on the ring. */
    method TryExtractFrame() returns (r: Result)
      requires framer.Valid() && ring.Valid()
      ensures r == Extract(framer, ring.Contents())
    {
      var n := ring.Readable();
      if n < framer.headerSize { return NeedMoreData; }
      var hdr := ring.Peek(framer.headerSize);
      var bodyLen := FromBe16(hdr[framer.lenAt..framer.lenAt + 2]);
      assert hdr[framer.lenAt..framer.lenAt + 2] == ring.Contents()[framer.lenAt..framer.lenAt + 2];
      if bodyLen > MAX_BODY_LEN { return InvalidBodyLen; }
      if n < framer.headerSize + bodyLen { return NeedMoreData; }
      r := Ok(framer.headerSize + bodyLen);
    }

    method ReadFrame(n: nat) returns (payload: seq<Byte>)
      requires ring.Valid() && n <= |ring.Contents()|
      modifies ring
      ensures ring.Valid() && |payload| == n && ring.size == old(ring.size) - n
      ensures payload + ring.Contents() == old(ring.Contents())
    {
      var bytes, _ := ring.Read(n);
      payload := bytes;
    }

    /** Tests for a complete frame and reads it out of the ring. */
    method NextFrame() returns (r: Result, payload: seq<Byte>)
      requires framer.Valid() && ring.Valid()
      modifies ring
      ensures ring.Valid() && r != InvalidBodyLen
      ensures r.Ok? ==> |payload| == r.frameLen && ring.size < old(ring.size)
      ensures r.NeedMoreData? ==>
        ring.Contents() == old(ring.Contents()) &&
        Cut(framer, old(ring.Contents())) == Split([], old(ring.Contents()))
      ensures r.Ok? ==>
        Cut(framer, old(ring.Contents())) ==
          Split([payload] + Cut(framer, ring.Contents()).frames, Cut(framer, ring.Contents()).rest)
    {
      payload := [];
      r := TryExtractFrame();
      LengthNeverInvalid(framer, ring.Contents());
      if r.Ok? {
        ghost var before := ring.Contents();
        payload := ReadFrame(r.frameLen);
        CutTakes(framer, before, payload, ring.Contents());
      }
    }

    /** The inner loop: moves every complete frame out of the ring. */
    method ExtractAll() returns (ok: bool)
      requires framer.Valid() && ring.Valid()
      modifies this`frames, ring
      ensures ok && ring.Valid()
      ensures frames == old(frames) + Cut(framer, old(ring.Contents())).frames
      ensures ring.Contents() == Cut(framer, old(ring.Contents())).rest
    {
      ghost var todo := Cut(framer, ring.Contents());
      ghost var goal := frames + todo.frames;
      ghost var rest := todo.rest;
      while true
        invariant ring.Valid() && Cut(framer, ring.Contents()) == todo
        invariant frames + todo.frames == goal && todo.rest == rest
        decreases ring.size
      {
        var r, payload := NextFrame();
        if r.NeedMoreData? { return true; }
        if r.InvalidBodyLen? || |payload| != r.frameLen { return false; }
        todo := Cut(framer, ring.Contents());
        AppendAssoc(frames, [payload], todo.frames);
        frames := frames + [payload];
      }
    }

    /** A successful `recv` of `xs` at the write pointer, and the frames it completes. */
    method ReceiveChunk(xs: seq<Byte>) returns (ok: bool)
      requires Valid() && 0 < |xs| <= ring.ToView().WriteLen()
      modifies this`frames, this`received, ring, ring.buffer
      ensures Valid() && ok
      ensures received == old(received) + xs
    {
      ghost var before := ring.Contents();
      CutAppend(framer, received, xs);
      ChunkPasses(framer, received, xs);
      ring.Place(xs);
      ring.Produce(|xs|);
      received := received + xs;
      assert ring.Contents() == before + xs;
      ok := ExtractAll();
    }

    /** One turn of the outer loop; `outcome` is `Drained` and `again` is false when
        the event is over with the connection intact. */
    method ReceiveOnce(pending: seq<Byte>, result: RecvResult)
      returns (outcome: Outcome, again: bool, taken: nat)
      requires Valid() && open
      modifies this, ring, ring.buffer
      ensures Valid() && taken <= |pending|
      ensures received == old(received) + pending[..taken]
      ensures open <==> outcome.Drained?
      ensures outcome.RingFull? <==> |old(ring.Contents())| == RING_SIZE
      ensures outcome.PeerClosed? <==> !outcome.RingFull? && result.EndOfStream?
      ensures outcome.SocketError? <==> !outcome.RingFull? && result.Failed?
      ensures outcome != BadLength
      ensures again <==> !outcome.RingFull? && (result.Interrupted? || (result.Data? && pending != []))
      ensures taken == if again && result.Data?
                       then Handed(result.limit, old(ring.ToView()).WriteLen(), |pending|) else 0
      ensures again && result.Data? ==> taken > 0
    {
      var room := ring.WriteLen();
      if room == 0 {
        open := false;
        return RingFull, false, 0;
      }
      match result {
        case Data(limit) =>
          if pending == [] { return Drained, false, 0; }
          var n := if limit < 1 then 1 else limit;
          n := if n < room then n else room;
          n := if n < |pending| then n else |pending|;
          var ok := ReceiveChunk(pending[..n]);
          if !ok {
            open := false;
            return BadLength, false, n;
          }
          return Drained, true, n;
        case Interrupted => return Drained, true, 0;
        case WouldBlock => return Drained, false, 0;
        case EndOfStream =>
          open := false;
          return PeerClosed, false, 0;
        case Failed =>
          open := false;
          return SocketError, false, 0;
      }
    }

    /** A turn within an event that has brought in `taken` bytes of `pending` so far. */
    method TakeTurn(pending: seq<Byte>, before: nat, result: RecvResult, ghost was: seq<Byte>)
      returns (outcome: Outcome, again: bool, taken: nat)
      requires Valid() && open && before <= |pending| && received == was + pending[..before]
      modifies this, ring, ring.buffer
      ensures Valid() && before <= taken <= |pending| && received == was + pending[..taken]
      ensures open <==> outcome.Drained?
      ensures outcome.RingFull? <==> |old(ring.Contents())| == RING_SIZE
      ensures !outcome.RingFull? ==> outcome == Verdict([result])
      ensures again ==> outcome.Drained? && Ending([result]) == 1 && (result.Data? ==> taken > before)
      ensures !again ==> taken == before
      ensures !again && !outcome.RingFull? ==> Ending([result]) == 0 || taken == |pending|
    {
      var n;
      outcome, again, n := ReceiveOnce(pending[before..], result);
      TakeMore(pending, before, n);
      AppendAssoc(was, pending[..before], pending[before..][..n]);
      taken := before + n;
    }

    /** One readiness event: `pending` is what the kernel holds for this socket and
        `results` what the successive calls report; when they run out, the next call
        would block.  `taken` bytes of `pending` were received: all of them, unless the
        ring filled up or the calls ended first. */
    method Receive(pending: seq<Byte>, results: seq<RecvResult>) returns (outcome: Outcome, taken: nat)
      requires Valid() && open
      modifies this, ring, ring.buffer
      ensures Valid() && taken <= |pending|
      ensures received == old(received) + pending[..taken]
      ensures open <==> outcome.Drained?
      ensures outcome.RingFull? <==> |Cut(framer, received).rest| == RING_SIZE
      ensures !outcome.RingFull? ==> outcome == Verdict(results) || (outcome.Drained? && taken == |pending|)
      ensures !outcome.RingFull? ==> taken == |pending| || taken >= CountData(results[..Ending(results)])
    {
      taken := 0;
      var i := 0;
      while true
        invariant Valid() && open && Progress(results, i, taken, |pending|)
        invariant received == old(received) + pending[..taken]
        decreases |results| + 1 - i
      {
        var again, now;
        outcome, again, now := TakeTurn(pending, taken, ResultAt(results, i), old(received));
        if !again {
          if !outcome.RingFull? { EventEnds(results, i, taken, |pending|); }
          return;
        }
        ProgressNext(results, i, taken, now, |pending|);
        i, taken := i + 1, now;
      }
    }

    /** An event of a connection to which `stream` is being sent. */
    method ServeEvent(stream: seq<Byte>, before: nat, e: Readiness) returns (outcome: Outcome, taken: nat)
      requires Valid() && open && before <= |stream| && received == stream[..before]
      modifies this, ring, ring.buffer
      ensures Valid() && taken <= |stream| && received == stream[..taken]
      ensures open <==> outcome.Drained?
      ensures outcome.RingFull? ==> |Cut(framer, received).rest| == RING_SIZE
      ensures Verdict(e.results).Drained? ==> outcome.Drained? || outcome.RingFull?
      ensures ReadsAll(e, |stream|) && !outcome.RingFull? ==> taken == |stream|
    {
      var pending := Held(stream, before, e);
      var n;
      outcome, n := Receive(pending, e.results);
      assert pending[..n] == stream[before..][..n];
      TakeMore(stream, before, n);
      taken := before + n;
    }

    /** A connection's life: `stream` is sent to it, and read at the given events until it
        closes or they are over. */
    method ReceiveAll(stream: seq<Byte>, events: seq<Readiness>) returns (outcome: Outcome, taken: nat)
      requires Valid() && open && received == []
      modifies this, ring, ring.buffer
      ensures Valid() && taken <= |stream| && received == stream[..taken]
      ensures outcome.RingFull? ==> |Cut(framer, received).rest| == RING_SIZE
      ensures Quiet(events) ==> outcome.Drained? || outcome.RingFull?
      ensures Delivers(events, |stream|) && !outcome.RingFull? ==> taken == |stream|
    {
      outcome, taken := Drained, 0;
      var i := 0;
      while i < |events| && open
        invariant i <= |events| && Valid() && taken <= |stream| && received == stream[..taken]
        invariant open <==> outcome.Drained?
        invariant outcome.RingFull? ==> |Cut(framer, received).rest| == RING_SIZE
        invariant Quiet(events) ==> outcome.Drained? || outcome.RingFull?
        invariant Delivers(events, |stream|) && !outcome.RingFull? && i == |events| ==> taken == |stream|
        decreases |events| - i
      {
        outcome, taken := ServeEvent(stream, taken, events[i]);
        i := i + 1;
      }
    }
  }
}
