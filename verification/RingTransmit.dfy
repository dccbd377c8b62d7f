/** The transmit side of the TCP and IPC reactors: packets from the lock-free queue
    go whole into a connection's ring or are dropped, and the ring is sent piecemeal.
    Connections are values in a map that the reactor's methods reassign. */
module RingTransmit {
  import opened Bytes
  import opened Sequences
  import opened RingBuffer
  import opened Framing

  datatype Packet = Packet(fd: int, payload: seq<Byte>)

  datatype TxConn = TxConn(
    ring: View,
    epollOut: bool,                 // EPOLLOUT is part of the registered interest
    accepted: seq<seq<Byte>>,       // payloads written to the ring, in order
    wire: seq<Byte>)                // bytes the socket took, in order

  /** What a call of `send` may report. */
  datatype SendResult =
    | Sent(limit: nat)   // some of the offered bytes, at most `limit`
    | Blocked            // EAGAIN or EWOULDBLOCK
    | Broken             // any other error

  /** Every call takes all it is offered. */
  predicate TakesAll(sends: seq<SendResult>)
  {
    forall r | r in sends :: r.Sent? && r.limit >= RING_SIZE
  }

  datatype FlushEnd = NoConnection | Kept | Completed | Aborted

  const FRESH := TxConn(View(RING_SIZE, 0, []), false, [], [])

  /** Nothing invented, lost or reordered between the packets and the socket. */
  predicate Conserves(c: TxConn)
  {
    c.ring.Valid() && c.ring.capacity == RING_SIZE && Concat(c.accepted) == c.wire + c.ring.data
  }

  /** What holds of a connection whenever the reactor is back in epoll_wait. */
  predicate Settled(c: TxConn)
  {
    Conserves(c) && (c.epollOut <==> c.ring.data != [])
  }

  // ---- Which packets get in ----

  /** The payloads addressed to one connection. */
  function PayloadsFor(fd: int, packets: seq<Packet>): seq<seq<Byte>>
  {
    if packets == [] then []
    else
      var front, last := PayloadsFor(fd, packets[..|packets| - 1]), packets[|packets| - 1];
      if last.fd == fd then front + [last.payload] else front
  }

  /** Of a list of payloads, those that fit one after the other in `room` bytes. */
  function Admitted(room: nat, payloads: seq<seq<Byte>>): (r: seq<seq<Byte>>)
    ensures |Concat(r)| <= room
    decreases |payloads|
  {
    if payloads == [] then []
    else
      var front, last := Admitted(room, payloads[..|payloads| - 1]), payloads[|payloads| - 1];
      ConcatAppend(front, [last]);
      ConcatOne(last);
      if |last| <= room - |Concat(front)| then front + [last] else front
  }

  lemma ConcatOne(x: seq<Byte>)
    ensures Concat([x]) == x
  {
    assert Concat([x]) == x + Concat([x][1..]);
  }

  /** The payloads a connection takes in from a batch. */
  function Gained(before: TxConn, payloads: seq<seq<Byte>>): seq<seq<Byte>>
    requires before.ring.Valid()
  {
    Admitted(before.ring.Writable(), payloads)
  }

  /** `c` is `before` after a batch with these payloads, sent in part or in full. */
  predicate Took(before: TxConn, c: TxConn, payloads: seq<seq<Byte>>)
    requires before.ring.Valid()
  {
    Conserves(c) && c.accepted == before.accepted + Gained(before, payloads) && before.wire <= c.wire
  }

  /** A connection with the payloads of a batch in its ring, not flushed yet. */
  function LoadAll(c: TxConn, payloads: seq<seq<Byte>>): (r: TxConn)
    requires c.ring.Valid()
    ensures r.ring.Valid() && r.ring.capacity == c.ring.capacity
  {
    var got := Gained(c, payloads);
    c.(ring := c.ring.Append(Concat(got)), accepted := c.accepted + got)
  }

  /** `txRing.write` of a payload that fits. */
  function Load(c: TxConn, payload: seq<Byte>): TxConn
    requires c.ring.Valid() && |payload| <= c.ring.Writable()
  {
    c.(ring := c.ring.Append(payload), accepted := c.accepted + [payload])
  }

  lemma LoadAllStep(c: TxConn, payloads: seq<seq<Byte>>, payload: seq<Byte>)
    requires c.ring.Valid()
    ensures var now := LoadAll(c, payloads);
      && LoadAll(c, payloads + [payload]) == (if now.ring.Writable() >= |payload| then Load(now, payload) else now)
      && Gained(c, payloads + [payload]) ==
         (if now.ring.Writable() >= |payload| then Gained(c, payloads) + [payload] else Gained(c, payloads))
  {
    var got := Gained(c, payloads);
    assert (payloads + [payload])[..|payloads|] == payloads;
    ConcatAppend(got, [payload]);
    ConcatOne(payload);
    AppendAssoc(c.ring.data, Concat(got), payload);
    AppendAssoc(c.accepted, got, [payload]);
  }

  lemma LoadAllConserves(c: TxConn, payloads: seq<seq<Byte>>)
    requires Conserves(c)
    ensures Conserves(LoadAll(c, payloads))
  {
    ConcatAppend(c.accepted, Gained(c, payloads));
    AppendAssoc(c.wire, c.ring.data, Concat(Gained(c, payloads)));
  }

  lemma LoadNothing(c: TxConn, payloads: seq<seq<Byte>>)
    requires c.ring.Valid() && Gained(c, payloads) == []
    ensures LoadAll(c, payloads) == c
  {
    assert c.ring.data + [] == c.ring.data && c.accepted + [] == c.accepted;
  }

  // ---- What a flush does ----

  /** How many bytes of the ring the `send` loop moves to a socket that answers the results
      from number `i` on: it offers one contiguous stretch at a time, and stops when one is
      taken only in part. */
  function MovesFrom(v: View, sends: seq<SendResult>, i: nat): (k: nat)
    requires v.Valid() && i <= |sends|
    ensures k <= |v.data|
    decreases |sends| - i
  {
    if v.data == [] || i == |sends| || !sends[i].Sent? then 0
    else if sends[i].limit < v.ReadLen() then sends[i].limit
    else v.ReadLen() + MovesFrom(v.Drop(v.ReadLen()), sends, i + 1)
  }

  /** Whether the loop runs into an error. */
  predicate BreaksFrom(v: View, sends: seq<SendResult>, i: nat)
    requires v.Valid() && i <= |sends|
    decreases |sends| - i
  {
    v.data != [] && i < |sends| &&
    (sends[i].Broken? ||
     (sends[i].Sent? && sends[i].limit >= v.ReadLen() && BreaksFrom(v.Drop(v.ReadLen()), sends, i + 1)))
  }

  function Moves(v: View, sends: seq<SendResult>): (k: nat)
    requires v.Valid()
    ensures k <= |v.data|
  {
    MovesFrom(v, sends, 0)
  }

  predicate Breaks(v: View, sends: seq<SendResult>)
    requires v.Valid()
  {
    BreaksFrom(v, sends, 0)
  }

  /** The loop that began in `before` has moved `k` bytes with the first `i` results. */
  predicate Sending(before: View, v: View, k: nat, sends: seq<SendResult>, i: nat)
    requires before.Valid()
  {
    && i <= |sends| && k <= |before.data| && v == before.Drop(k)
    && Moves(before, sends) == k + MovesFrom(v, sends, i)
    && Breaks(before, sends) == BreaksFrom(v, sends, i)
  }

  lemma SendingNext(before: View, v: View, k: nat, sends: seq<SendResult>, i: nat)
    requires before.Valid() && Sending(before, v, k, sends, i)
    requires v.data != [] && i < |sends| && sends[i].Sent? && sends[i].limit >= v.ReadLen()
    ensures Sending(before, v.Drop(v.ReadLen()), k + v.ReadLen(), sends, i + 1)
  {
    DropTwice(before, k, v.ReadLen());
  }

  lemma SendingEnds(before: View, v: View, k: nat, sends: seq<SendResult>, i: nat)
    requires before.Valid() && Sending(before, v, k, sends, i)
    requires v.data == [] || i == |sends| || !sends[i].Sent? || sends[i].limit < v.ReadLen()
    ensures v.data == [] || i == |sends| || !sends[i].Sent? ==>
      Moves(before, sends) == k && (Breaks(before, sends) <==> v.data != [] && i < |sends| && sends[i].Broken?)
    ensures v.data != [] && i < |sends| && sends[i].Sent? ==>
      Moves(before, sends) == k + sends[i].limit && !Breaks(before, sends)
  {
  }

  /** `c` with its first `k` ring bytes handed to the socket. */
  function Shift(c: TxConn, k: nat): TxConn
    requires c.ring.Valid() && k <= |c.ring.data|
  {
    c.(ring := c.ring.Drop(k), wire := c.wire + c.ring.data[..k])
  }

  /** The connection after the `send` loop. */
  function Sends(c: TxConn, sends: seq<SendResult>): TxConn
    requires c.ring.Valid()
  {
    Shift(c, Moves(c.ring, sends))
  }

  predicate Reached(before: TxConn, c: TxConn, k: nat, sends: seq<SendResult>, i: nat)
  {
    before.ring.Valid() && Sending(before.ring, c.ring, k, sends, i) && c == Shift(before, k)
  }

  lemma ReachedEnds(before: TxConn, c: TxConn, k: nat, sends: seq<SendResult>, i: nat)
    requires Reached(before, c, k, sends, i) && (c.ring.data == [] || i == |sends| || !sends[i].Sent?)
    ensures c == Sends(before, sends)
    ensures Breaks(before.ring, sends) <==> c.ring.data != [] && i < |sends| && sends[i].Broken?
  {
    SendingEnds(before.ring, c.ring, k, sends, i);
  }

  lemma ReachedPartly(before: TxConn, c: TxConn, k: nat, sends: seq<SendResult>, i: nat)
    requires Reached(before, c, k, sends, i) && c.ring.data != [] && i < |sends|
    requires sends[i].Sent? && sends[i].limit < c.ring.ReadLen()
    ensures Shift(c, sends[i].limit) == Sends(before, sends) && !Breaks(before.ring, sends)
  {
    SendingEnds(before.ring, c.ring, k, sends, i);
    ShiftTwice(before, k, sends[i].limit);
  }

  lemma ReachedWholly(before: TxConn, c: TxConn, k: nat, sends: seq<SendResult>, i: nat)
    requires Reached(before, c, k, sends, i) && c.ring.data != [] && i < |sends|
    requires sends[i].Sent? && sends[i].limit >= c.ring.ReadLen()
    ensures Reached(before, Shift(c, c.ring.ReadLen()), k + c.ring.ReadLen(), sends, i + 1)
  {
    SendingNext(before.ring, c.ring, k, sends, i);
    ShiftTwice(before, k, c.ring.ReadLen());
  }

  /** What becomes of a connection: it stays, or it is closed in the state given. */
  datatype Fate = Open(c: TxConn) | Shut(c: TxConn)

  function FlushFate(c: TxConn, closing: bool, sends: seq<SendResult>): Fate
    requires c.ring.Valid()
  {
    var r := Sends(c, sends);
    if c.ring.data == [] then Open(c)
    else if Breaks(c.ring, sends) || (closing && r.ring.data == []) then Shut(r)
    else Open(r.(epollOut := r.ring.data != []))
  }

  function BatchFate(c: TxConn, payloads: seq<seq<Byte>>, closing: bool, sends: seq<SendResult>): Fate
    requires c.ring.Valid()
  {
    if Gained(c, payloads) == [] then Open(c) else FlushFate(LoadAll(c, payloads), closing, sends)
  }

  lemma ShiftConserves(c: TxConn, k: nat)
    requires Conserves(c) && k <= |c.ring.data|
    ensures Conserves(Shift(c, k)) && c.wire <= Shift(c, k).wire
  {
    assert c.ring.data[..k] + c.ring.data[k..] == c.ring.data;
    AppendAssoc(c.wire, c.ring.data[..k], c.ring.data[k..]);
  }

  lemma ShiftTwice(c: TxConn, j: nat, k: nat)
    requires c.ring.Valid() && j + k <= |c.ring.data|
    ensures Shift(Shift(c, j), k) == Shift(c, j + k)
  {
    DropTwice(c.ring, j, k);
    AppendAssoc(c.wire, c.ring.data[..j], c.ring.data[j..][..k]);
  }

  lemma ShiftNothing(c: TxConn)
    requires c.ring.Valid()
    ensures Shift(c, 0) == c
  {
    assert c.wire + [] == c.wire;
  }

  /** A flush invents, loses and reorders nothing, leaves EPOLLOUT registered exactly for a
      non-empty ring, and closes a connection only after its last byte, where that closes
      it, or on an error. */
  lemma FlushSettles(c: TxConn, closing: bool, sends: seq<SendResult>)
    requires Conserves(c) && (c.ring.data == [] ==> Settled(c))
    ensures var f := FlushFate(c, closing, sends);
      && Conserves(f.c) && f.c.accepted == c.accepted && c.wire <= f.c.wire
      && (f.Open? ==> Settled(f.c) && (closing && c.ring.data != [] ==> f.c.ring.data != []))
      && (f.Shut? ==> (closing && f.c.ring.data == []) || Broken in sends)
  {
    ShiftConserves(c, Moves(c.ring, sends));
    if Breaks(c.ring, sends) { BreaksHasBroken(c.ring, sends, 0); }
  }

  lemma {:induction false} BreaksHasBroken(v: View, sends: seq<SendResult>, i: nat)
    requires v.Valid() && i <= |sends| && BreaksFrom(v, sends, i)
    ensures Broken in sends
    decreases |sends| - i
  {
    if sends[i].Sent? { BreaksHasBroken(v.Drop(v.ReadLen()), sends, i + 1); }
  }

  /** The same for a whole batch: what is accepted is decided by the room alone. */
  lemma BatchSettles(c: TxConn, payloads: seq<seq<Byte>>, closing: bool, sends: seq<SendResult>)
    requires Settled(c)
    ensures var f := BatchFate(c, payloads, closing, sends);
      && Took(c, f.c, payloads)
      && (f.Open? ==> Settled(f.c))
      && (f.Shut? ==> (closing && f.c.ring.data == []) || Broken in sends)
  {
    var got := Gained(c, payloads);
    if got == [] {
      assert c.accepted + got == c.accepted;
    } else {
      LoadAllConserves(c, payloads);
      var loaded := LoadAll(c, payloads);
      assert c.ring.data <= loaded.ring.data;
      FlushSettles(loaded, closing, sends);
    }
  }

  /** The loop has at most two stretches to offer, up to the end of the buffer and from its
      beginning, and so at most two sends matter: what they take goes out, and an error in
      the one that is due, if data is left, breaks the connection. */
  lemma TwoStretches(v: View, sends: seq<SendResult>)
    requires v.Valid() && v.data != []
    ensures var a, b := v.ReadLen(), |v.data| - v.ReadLen();
      var first := if |sends| > 0 then sends[0] else Blocked;
      var second := if |sends| > 1 then sends[1] else Blocked;
      if !first.Sent? then Moves(v, sends) == 0 && (Breaks(v, sends) <==> first.Broken?)
      else if first.limit < a then Moves(v, sends) == first.limit && !Breaks(v, sends)
      else if b == 0 then Moves(v, sends) == a && !Breaks(v, sends)
      else if !second.Sent? then Moves(v, sends) == a && (Breaks(v, sends) <==> second.Broken?)
      else Moves(v, sends) == (if second.limit < b then a + second.limit else a + b) && !Breaks(v, sends)
  {
    if |sends| > 0 && sends[0].Sent? && sends[0].limit >= v.ReadLen() {
      var w := v.Drop(v.ReadLen());
      if w.data != [] {
        assert w.head == 0 && w.ReadLen() == |w.data|;
        assert w.Drop(w.ReadLen()).data == [];
        SecondStretch(w, sends);
      } else {
        assert !BreaksFrom(w, sends, 1);
      }
    }
  }

  lemma SecondStretch(w: View, sends: seq<SendResult>)
    requires w.Valid() && w.data != [] && w.ReadLen() == |w.data| && |sends| >= 1
    requires w.Drop(w.ReadLen()).data == []
    ensures var second := if |sends| > 1 then sends[1] else Blocked;
      if !second.Sent? then MovesFrom(w, sends, 1) == 0 && (BreaksFrom(w, sends, 1) <==> second.Broken?)
      else MovesFrom(w, sends, 1) == (if second.limit < |w.data| then second.limit else |w.data|)
           && !BreaksFrom(w, sends, 1)
  {
  }

  lemma EmptiesFrom(v: View, sends: seq<SendResult>, i: nat)
    requires v.Valid() && i < |sends| && (v.data == [] || v.ReadLen() == |v.data|)
    requires sends[i].Sent? && sends[i].limit >= |v.data|
    ensures MovesFrom(v, sends, i) == |v.data| && !BreaksFrom(v, sends, i)
  {
    if v.data != [] { assert v.Drop(v.ReadLen()).data == []; }
  }

  /** Two sends that take all they are offered empty the ring, wherever its data wraps. */
  lemma UnhinderedEmpties(v: View, sends: seq<SendResult>)
    requires v.Valid() && v.capacity <= RING_SIZE && |sends| >= 2 && TakesAll(sends)
    ensures Moves(v, sends) == |v.data| && !Breaks(v, sends)
  {
    if v.data != [] {
      assert sends[0] in sends && sends[1] in sends;
      EmptiesFrom(v.Drop(v.ReadLen()), sends, 1);
    }
  }

  function SendsFor(fd: int, sends: map<int, seq<SendResult>>): seq<SendResult>
  {
    if fd in sends then sends[fd] else []
  }

  /** `now` has what `f` says about `fd`, and `gone` its last state if it was closed. */
  predicate Has(f: Fate, fd: int, now: map<int, TxConn>, gone: map<int, TxConn>)
  {
    match f
    case Open(c) => fd in now && now[fd] == c
    case Shut(c) => fd !in now && fd in gone && gone[fd] == c
  }

  /** What a flush of each of these connections leads to. */
  ghost function Fates(conns: map<int, TxConn>, fds: set<int>, closing: bool, sends: map<int, seq<SendResult>>)
    : map<int, Fate>
  {
    map fd | fd in conns && fd in fds && conns[fd].ring.Valid() :: FlushFate(conns[fd], closing, SendsFor(fd, sends))
  }

  /** `now` is `start` with those connections flushed that have a fate and are no longer in
      `dirty`; `gone` has the last state of those that were closed. */
  ghost predicate Flushing(start: map<int, TxConn>, now: map<int, TxConn>, gone: map<int, TxConn>,
                           fates: map<int, Fate>, dirty: set<int>)
  {
    && (forall fd | fd in now :: fd in start)
    && (forall fd | fd in start && (fd !in fates || fd in dirty) :: fd in now && now[fd] == start[fd])
    && (forall fd | fd in start && fd in fates && fd !in dirty :: Has(fates[fd], fd, now, gone))
  }

  lemma FlushingStep(start: map<int, TxConn>, now: map<int, TxConn>, gone: map<int, TxConn>,
                     fates: map<int, Fate>, dirty: set<int>, fd: int)
    requires Flushing(start, now, gone, fates, dirty) && fd in dirty
    requires fd in start <==> fd in fates
    ensures fd !in now ==> Flushing(start, now, gone, fates, dirty - {fd})
    ensures fd in now ==> fd in fates && now[fd] == start[fd]
    ensures fd in now && fates[fd].Open? ==> Flushing(start, now[fd := fates[fd].c], gone, fates, dirty - {fd})
    ensures fd in now && fates[fd].Shut? ==>
              Flushing(start, now - {fd}, gone[fd := fates[fd].c], fates, dirty - {fd})
  {
  }

  /** Iteration over an unordered set visits its members in an arbitrary order. */
  method Pick<T>(s: set<T>) returns (x: T)
    requires s != {}
    ensures x in s
  {
    x :| x in s;
  }

  class TxReactor {
    // IPC answers one request per connection and closes it when the ring is empty.
    const closeWhenDrained: bool
    var conns: map<int, TxConn>

    constructor (closeWhenDrained: bool)
      ensures Valid() && conns == map[] && this.closeWhenDrained == closeWhenDrained
    {
      this.closeWhenDrained := closeWhenDrained;
      conns := map[];
    }

    /** The event-loop invariant. */
    predicate Valid()
      reads this
    {
      forall fd | fd in conns :: Settled(conns[fd])
    }

    method AcceptConnection(fd: int)
      requires Valid()
      modifies this
      ensures Valid()
      ensures conns == if fd in old(conns) then old(conns) else old(conns)[fd := FRESH]
    {
      if fd !in conns {
        conns := conns[fd := FRESH];
      }
    }

    method CloseConnection(fd: int)
      modifies this
      ensures fd !in conns
      ensures forall g | g != fd :: g in conns <==> g in old(conns)
      ensures forall g | g in conns :: conns[g] == old(conns)[g]
    {
      conns := conns - {fd};
    }

    /** Sends from the ring until it is empty or the socket stops taking bytes; when
        `sends` runs out the socket would block. */
    method FlushTxBuffer(fd: int, sends: seq<SendResult>) returns (end: FlushEnd, last: TxConn)
      requires fd in conns ==> Conserves(conns[fd])
      modifies this
      ensures fd !in old(conns) ==> end.NoConnection? && conns == old(conns)
      ensures fd in old(conns) ==>
        match FlushFate(old(conns)[fd], closeWhenDrained, sends)
        case Open(c) => end.Kept? && last == c && conns == old(conns)[fd := c]
        case Shut(c) =>
          last == c && conns == old(conns) - {fd}
          && end == if Breaks(old(conns)[fd].ring, sends) then Aborted else Completed
    {
      last := FRESH;
      if fd !in conns { return NoConnection, last; }
      var c := conns[fd];
      last := c;
      if c.ring.data == [] { return Kept, last; }
      end, c := SendLoop(c, sends);
      last := c;
      if end.Aborted? {
        conns := conns - {fd};
      } else if c.ring.data != [] {
        last := c.(epollOut := true);
        conns := conns[fd := last];
      } else if closeWhenDrained {
        conns := conns - {fd};
        end := Completed;
      } else {
        last := c.(epollOut := false);
        conns := conns[fd := last];
      }
    }

    /** The EPOLLOUT event. */
    method OnWritable(fd: int, sends: seq<SendResult>) returns (end: FlushEnd, last: TxConn)
      requires Valid()
      modifies this
      ensures Valid()
      ensures fd !in old(conns) ==> end.NoConnection? && conns == old(conns)
      ensures fd in old(conns) ==>
        match FlushFate(old(conns)[fd], closeWhenDrained, sends)
        case Open(c) => end.Kept? && last == c && conns == old(conns)[fd := c]
        case Shut(c) =>
          last == c && conns == old(conns) - {fd}
          && end == if Breaks(old(conns)[fd].ring, sends) then Aborted else Completed
    {
      if fd in conns { FlushSettles(conns[fd], closeWhenDrained, sends); }
      end, last := FlushTxBuffer(fd, sends);
    }

    /** The `send` loop on one connection. */
    method SendLoop(before: TxConn, sends: seq<SendResult>) returns (end: FlushEnd, c: TxConn)
      requires before.ring.Valid()
      ensures end == if Breaks(before.ring, sends) then Aborted else Kept
      ensures c == Sends(before, sends)
    {
      c := before;
      var i := 0;
      ghost var k: nat := 0;
      ShiftNothing(before);
      while c.ring.data != []
        invariant Reached(before, c, k, sends, i)
        decreases |c.ring.data|
      {
        var len := c.ring.ReadLen();
        var r := if i < |sends| then sends[i] else Blocked;
        if !r.Sent? {
          ReachedEnds(before, c, k, sends, i);
          return if r.Blocked? then Kept else Aborted, c;
        }
        var n := if r.limit < len then r.limit else len;
        if n < len {
          ReachedPartly(before, c, k, sends, i);
          return Kept, Shift(c, n);
        }
        ReachedWholly(before, c, k, sends, i);
        c, k, i := Shift(c, n), k + n, i + 1;
      }
      ReachedEnds(before, c, k, sends, i);
      end := Kept;
    }

    /** The wakeup branch: distributes one batch from the queue, then flushes every
        connection that got something, in any order. */
    method ProcessTxQueue(packets: seq<Packet>, sends: map<int, seq<SendResult>>)
      returns (gone: map<int, TxConn>)
      requires Valid()
      modifies this
      ensures Valid()
      ensures forall fd | fd in conns :: fd in old(conns)
      ensures forall fd | fd in old(conns) ::
                Has(BatchFate(old(conns)[fd], PayloadsFor(fd, packets), closeWhenDrained, SendsFor(fd, sends)),
                    fd, conns, gone)
    {
      var dirty := LoadPackets(packets);
      ghost var loaded := conns;
      gone := FlushDirty(dirty, sends);
      BatchDone(old(conns), loaded, conns, gone, dirty, packets, closeWhenDrained, sends);
    }

    method FlushDirty(dirtyFds: set<int>, sends: map<int, seq<SendResult>>)
      returns (gone: map<int, TxConn>)
      requires forall fd | fd in conns :: Conserves(conns[fd])
      modifies this
      ensures Flushing(old(conns), conns, gone, Fates(old(conns), dirtyFds, closeWhenDrained, sends), {})
    {
      var dirty := dirtyFds;
      gone := map[];
      ghost var fates := Fates(conns, dirtyFds, closeWhenDrained, sends);
      while dirty != {}
        invariant dirty <= dirtyFds && Flushing(old(conns), conns, gone, fates, dirty)
        decreases dirty
      {
        var fd := Pick(dirty);
        FlushingStep(old(conns), conns, gone, fates, dirty, fd);
        var end, last := FlushTxBuffer(fd, SendsFor(fd, sends));
        gone := if end.Aborted? || end.Completed? then gone[fd := last] else gone;
        dirty := dirty - {fd};
      }
    }

    /** Moves packets into the rings; a packet that does not fit is dropped whole. */
    method LoadPackets(packets: seq<Packet>) returns (dirty: set<int>)
      requires Valid()
      modifies this
      ensures Loading(old(conns), conns, dirty, packets)
      ensures forall fd | fd in conns :: Conserves(conns[fd])
    {
      dirty := {};
      LoadingNothing(conns);
      for i := 0 to |packets|
        invariant Loading(old(conns), conns, dirty, packets[..i])
      {
        var fd, payload := packets[i].fd, packets[i].payload;
        ghost var before, was := conns, dirty;
        if fd in conns && conns[fd].ring.Writable() >= |payload| {
          conns := conns[fd := Load(conns[fd], payload)];
          dirty := dirty + {fd};
        }
        assert packets[..i + 1] == packets[..i] + [packets[i]];
        LoadingStep(old(conns), before, was, packets[..i], packets[i]);
      }
      assert packets[..|packets|] == packets;
      forall fd | fd in conns ensures Conserves(conns[fd]) {
        LoadAllConserves(old(conns)[fd], PayloadsFor(fd, packets));
      }
    }
  }

  /** `now` is `start` with the packets of a batch moved into the rings. */
  ghost predicate Loading(start: map<int, TxConn>, now: map<int, TxConn>, dirty: set<int>, packets: seq<Packet>)
  {
    && (forall fd | fd in start :: start[fd].ring.Valid())
    && (forall fd :: fd in now <==> fd in start)
    && (forall fd | fd in now :: now[fd] == LoadAll(start[fd], PayloadsFor(fd, packets)))
    && (forall fd | fd in now :: fd in dirty <==> Gained(start[fd], PayloadsFor(fd, packets)) != [])
  }

  lemma LoadingNothing(start: map<int, TxConn>)
    requires forall fd | fd in start :: start[fd].ring.Valid()
    ensures Loading(start, start, {}, [])
  {
    forall fd | fd in start ensures start[fd] == LoadAll(start[fd], PayloadsFor(fd, [])) {
      LoadNothing(start[fd], []);
    }
  }

  /** The connection table after one more packet. */
  function LoadOne(now: map<int, TxConn>, p: Packet): map<int, TxConn>
    requires forall fd | fd in now :: now[fd].ring.Valid()
  {
    if p.fd in now && now[p.fd].ring.Writable() >= |p.payload| then now[p.fd := Load(now[p.fd], p.payload)]
    else now
  }

  lemma PayloadsForNext(fd: int, packets: seq<Packet>, p: Packet)
    ensures PayloadsFor(fd, packets + [p]) ==
            if p.fd == fd then PayloadsFor(fd, packets) + [p.payload] else PayloadsFor(fd, packets)
  {
    assert (packets + [p])[..|packets|] == packets;
  }

  lemma LoadingStep(start: map<int, TxConn>, now: map<int, TxConn>, dirty: set<int>, packets: seq<Packet>,
                    p: Packet)
    requires Loading(start, now, dirty, packets)
    ensures forall fd | fd in now :: now[fd].ring.Valid()
    ensures Loading(start, LoadOne(now, p), if LoadOne(now, p) == now then dirty else dirty + {p.fd},
                    packets + [p])
  {
    if p.fd in now {
      LoadAllStep(start[p.fd], PayloadsFor(p.fd, packets), p.payload);
      if now[p.fd].ring.Writable() >= |p.payload| {
        assert |Load(now[p.fd], p.payload).accepted| == |now[p.fd].accepted| + 1;
      }
    }
    forall fd ensures PayloadsFor(fd, packets + [p]) ==
                      if p.fd == fd then PayloadsFor(fd, packets) + [p.payload] else PayloadsFor(fd, packets) {
      PayloadsForNext(fd, packets, p);
    }
  }

  /** Loading and flushing together do to each connection what its fate says. */
  lemma BatchDone(start: map<int, TxConn>, loaded: map<int, TxConn>, now: map<int, TxConn>, gone: map<int, TxConn>,
                  dirty: set<int>, packets: seq<Packet>, closing: bool, sends: map<int, seq<SendResult>>)
    requires forall fd | fd in start :: Settled(start[fd])
    requires Loading(start, loaded, dirty, packets)
    requires Flushing(loaded, now, gone, Fates(loaded, dirty, closing, sends), {})
    ensures forall fd | fd in now :: fd in start && Settled(now[fd])
    ensures forall fd | fd in start ::
              Has(BatchFate(start[fd], PayloadsFor(fd, packets), closing, SendsFor(fd, sends)), fd, now, gone)
  {
    forall fd | fd in start
      ensures Has(BatchFate(start[fd], PayloadsFor(fd, packets), closing, SendsFor(fd, sends)), fd, now, gone)
      ensures fd in now ==> Settled(now[fd])
    {
      var payloads := PayloadsFor(fd, packets);
      if Gained(start[fd], payloads) == [] { LoadNothing(start[fd], payloads); }
      BatchSettles(start[fd], payloads, closing, SendsFor(fd, sends));
    }
  }
}
