/** The transmit side of the TLS reactor: a queue of packets per connection, written
    with offsets under a budget, and the epoll interest that keeps it moving. */
module TlsTransmit {
  import opened Bytes
  import opened Sequences
  import opened Framing
  import opened RingTransmit

  /** A packet with its transmit offset. */
  datatype Offset = TxPacket(payload: seq<Byte>, offset: nat) {
    predicate Valid() { offset <= |payload| }

    function Left(): seq<Byte>
      requires Valid()
    {
      payload[offset..]
    }

    /** `updateTxOffset`, which limits the offset to the payload size. */
    function Advance(n: nat): (p: Offset)
      ensures p.Valid()
    {
      TxPacket(payload, if offset + n > |payload| then |payload| else offset + n)
    }
  }

  type TxPacket = p: Offset | p.Valid() witness TxPacket([], 0)

  /** One call of `SSL_write`: what it was given and how much it took (0 when it has
      to be retried). */
  datatype Offer = Offer(data: seq<Byte>, taken: nat) {
    function Got(): seq<Byte>
    {
      if taken <= |data| then data[..taken] else data
    }
  }

  /** What the calls took, one after the other. */
  function GotAll(offers: seq<Offer>): seq<Byte>
  {
    if offers == [] then [] else GotAll(offers[..|offers| - 1]) + offers[|offers| - 1].Got()
  }

  lemma {:induction false} GotAppend(xs: seq<Offer>, ys: seq<Offer>)
    ensures GotAll(xs + ys) == GotAll(xs) + GotAll(ys)
    decreases |ys|
  {
    if ys == [] {
      assert xs + ys == xs;
    } else {
      GotAppend(xs, ys[..|ys| - 1]);
      assert (xs + ys)[..|xs + ys| - 1] == xs + ys[..|ys| - 1];
    }
  }

  datatype TlsConn = TlsConn(
    queue: seq<TxPacket>,
    finished: bool,          // SSL_is_init_finished
    epollOut: bool,
    offers: seq<Offer>,
    queued: seq<Byte>,       // all payloads ever put in the queue, concatenated
    wire: seq<Byte>)         // all bytes SSL_write took, in order

  /** What `SSL_write` may report; any call may also start or end a renegotiation and
      so change whether the handshake counts as finished. */
  datatype WriteResult =
    | Wrote(limit: nat, finished: bool)   // at least one byte, at most `limit`
    | WantIo(finished: bool)              // SSL_ERROR_WANT_READ or SSL_ERROR_WANT_WRITE
    | Fatal

  datatype HandshakeStep = Done | WantRead | WantWrite | Refused

  /** How a run of `SSL_read` calls ends, as far as the transmit side can tell. */
  datatype ReadEnd = ReadBlocked(finished: bool) | ReadWantsWrite(finished: bool) | ReadClosed

  const BUDGET := 256

  const NEW_CONNECTION := TlsConn([], false, false, [], [], [])

  function Unsent(q: seq<TxPacket>): seq<Byte>
  {
    if q == [] then [] else q[0].Left() + Unsent(q[1..])
  }

  /** A blocked write is always followed by a write of the very same bytes, as OpenSSL
      demands. */
  predicate RetriesMatch(offers: seq<Offer>)
  {
    forall i | 0 < i < |offers| && offers[i - 1].taken == 0 :: offers[i].data == offers[i - 1].data
  }

  predicate Stuck(c: TlsConn)
  {
    c.offers != [] && c.offers[|c.offers| - 1].taken == 0
  }

  predicate Intact(c: TlsConn)
  {
    && c.queued == c.wire + Unsent(c.queue)
    && RetriesMatch(c.offers)
    && (Stuck(c) ==> c.queue != [] && c.offers[|c.offers| - 1].data == c.queue[0].Left() != [])
  }

  /** What holds of a connection whenever the reactor is back in epoll_wait. */
  predicate Served(c: TlsConn)
  {
    Intact(c) && (c.finished && c.queue != [] ==> c.epollOut)
  }

  lemma {:induction false} UnsentAppend(q: seq<TxPacket>, r: seq<TxPacket>)
    ensures Unsent(q + r) == Unsent(q) + Unsent(r)
  {
    if q == [] {
      assert q + r == r;
    } else {
      UnsentAppend(q[1..], r);
      assert (q + r)[1..] == q[1..] + r;
      AppendAssoc(q[0].Left(), Unsent(q[1..]), Unsent(r));
    }
  }

  /** How many of `left` bytes a call takes that may take `limit`. */
  function Taken(limit: nat, left: nat): (n: nat)
    requires left > 0
    ensures 0 < n <= left && (limit >= left ==> n == left) && (1 <= limit <= left ==> n == limit)
  {
    if limit < 1 then 1 else if limit < left then limit else left
  }

  /** One `SSL_write` of the front packet. */
  function Write(c: TlsConn, limit: nat, finished: bool): (r: TlsConn)
    requires c.queue != [] && c.queue[0].Left() != []
  {
    var left := c.queue[0].Left();
    var n := Taken(limit, |left|);
    c.(queue := [c.queue[0].Advance(n)] + c.queue[1..], finished := finished,
       offers := c.offers + [Offer(left, n)], wire := c.wire + left[..n])
  }

  /** An `SSL_write` that has to be retried. */
  function Block(c: TlsConn, finished: bool): (r: TlsConn)
    requires c.queue != []
  {
    c.(finished := finished, offers := c.offers + [Offer(c.queue[0].Left(), 0)], epollOut := true)
  }

  /** The front packet has been sent completely. */
  function PopFront(c: TlsConn): (r: TlsConn)
    requires c.queue != []
  {
    c.(queue := c.queue[1..])
  }

  lemma AdvanceLeft(p: TxPacket, n: nat)
    requires n <= |p.Left()|
    ensures p.Advance(n).Left() == p.Left()[n..]
    ensures |p.Advance(n).Left()| == |p.Left()| - n
  {
  }

  lemma SplitFront<T>(left: seq<T>, rest: seq<T>, n: nat)
    requires n <= |left|
    ensures left + rest == left[..n] + (left[n..] + rest)
  {
    assert left == left[..n] + left[n..];
    AppendAssoc(left[..n], left[n..], rest);
  }

  // ---- Bytes move from the queue to the wire ----

  /** `c` is `c0` after the bytes `x` have gone out: they were the next ones in the queue, what
      was on the wire stays there, and they are what the calls `o` have taken. */
  ghost predicate Sent(c0: TlsConn, c: TlsConn, x: seq<Byte>, o: seq<Offer>)
  {
    && Unsent(c0.queue) == x + Unsent(c.queue) && c.queued == c0.queued
    && c.wire == c0.wire + x && c.offers == c0.offers + o && GotAll(o) == x
  }

  ghost predicate SentBytes(c0: TlsConn, c: TlsConn, k: nat)
  {
    exists x, o :: |x| == k && Sent(c0, c, x, o)
  }

  lemma SentNothing(c: TlsConn)
    ensures Sent(c, c, [], [])
  {
  }

  lemma SentTrans(c0: TlsConn, c1: TlsConn, c2: TlsConn, x: seq<Byte>, o: seq<Offer>, y: seq<Byte>, p: seq<Offer>)
    requires Sent(c0, c1, x, o) && Sent(c1, c2, y, p)
    ensures Sent(c0, c2, x + y, o + p)
  {
    AppendAssoc(x, y, Unsent(c2.queue));
    AppendAssoc(c0.wire, x, y);
    AppendAssoc(c0.offers, o, p);
    GotAppend(o, p);
  }

  lemma OneOffer(o: Offer)
    ensures GotAll([o]) == o.Got()
  {
    assert GotAll([o]) == GotAll([]) + o.Got();
  }

  lemma WriteSends(c: TlsConn, limit: nat, finished: bool) returns (x: seq<Byte>, o: seq<Offer>)
    requires c.queue != [] && c.queue[0].Left() != []
    ensures |x| == Taken(limit, |c.queue[0].Left()|) && Sent(c, Write(c, limit, finished), x, o)
  {
    var left := c.queue[0].Left();
    var n := Taken(limit, |left|);
    x, o := left[..n], [Offer(left, n)];
    AdvanceLeft(c.queue[0], n);
    assert Write(c, limit, finished).queue[1..] == c.queue[1..];
    SplitFront(left, Unsent(c.queue[1..]), n);
    OneOffer(Offer(left, n));
  }

  lemma BlockSends(c: TlsConn, finished: bool) returns (o: seq<Offer>)
    requires c.queue != []
    ensures Sent(c, Block(c, finished), [], o)
  {
    o := [Offer(c.queue[0].Left(), 0)];
    OneOffer(o[0]);
  }

  lemma PopSends(c: TlsConn)
    requires c.queue != [] && c.queue[0].Left() == []
    ensures Sent(c, PopFront(c), [], [])
  {
  }

  /** Moving bytes to the wire conserves the total. */
  lemma SentConserves(c0: TlsConn, c: TlsConn, x: seq<Byte>, o: seq<Offer>)
    requires c0.queued == c0.wire + Unsent(c0.queue) && Sent(c0, c, x, o)
    ensures c.queued == c.wire + Unsent(c.queue)
  {
    AppendAssoc(c0.wire, x, Unsent(c.queue));
  }

  lemma WriteKeepsIntact(c: TlsConn, limit: nat, finished: bool)
    requires Intact(c) && c.queue != [] && c.queue[0].Left() != []
    ensures Intact(Write(c, limit, finished))
  {
    var x, o := WriteSends(c, limit, finished);
    SentConserves(c, Write(c, limit, finished), x, o);
  }

  lemma BlockKeepsIntact(c: TlsConn, finished: bool)
    requires Intact(c) && c.queue != [] && c.queue[0].Left() != []
    ensures Intact(Block(c, finished))
  {
  }

  lemma PopKeepsIntact(c: TlsConn)
    requires Intact(c) && !Stuck(c) && c.queue != [] && c.queue[0].Left() == []
    ensures Intact(PopFront(c))
  {
    assert [] + Unsent(c.queue[1..]) == Unsent(c.queue[1..]);
  }

  // ---- How far a flush gets ----

  /** What the results from number `i` on make of a packet with `left` bytes to go: how many
      of them are taken, the next result to use, and whether the connection fails. */
  datatype Front = Front(bytes: nat, next: nat, dies: bool)

  function FrontOf(left: nat, rs: seq<WriteResult>, i: nat): (f: Front)
    requires i <= |rs|
    ensures f.bytes <= left && i <= f.next <= |rs| && (f.dies ==> f.bytes < left)
    decreases left
  {
    if left == 0 || i == |rs| then Front(0, i, false)
    else
      match rs[i]
      case WantIo(_) => Front(0, i + 1, false)
      case Fatal => Front(0, i + 1, true)
      case Wrote(limit, _) =>
        var n := Taken(limit, left);
        var f := FrontOf(left - n, rs, i + 1);
        Front(n + f.bytes, f.next, f.dies)
  }

  /** The same for a queue under a budget of packets: bytes in all, packets sent completely,
      bytes of the next packet, the next result to use, failure. */
  datatype Plan = Plan(bytes: nat, packets: nat, part: nat, next: nat, dies: bool)

  function PlanOf(q: seq<TxPacket>, budget: nat, rs: seq<WriteResult>, i: nat): (p: Plan)
    requires i <= |rs|
    ensures p.packets <= |q| && p.packets <= budget && i <= p.next <= |rs|
    ensures p.packets == |q| || p.packets == budget ==> p.part == 0 && !p.dies
    decreases budget
  {
    if budget == 0 || q == [] then Plan(0, 0, 0, i, false)
    else
      var f := FrontOf(|q[0].Left()|, rs, i);
      if f.bytes < |q[0].Left()| then Plan(f.bytes, 0, f.bytes, f.next, f.dies)
      else
        var p := PlanOf(q[1..], budget - 1, rs, f.next);
        Plan(f.bytes + p.bytes, 1 + p.packets, p.part, p.next, p.dies)
  }

  /** What is left of a queue after some whole packets and part of the next. */
  function Rest(q: seq<TxPacket>, packets: nat, part: nat): seq<TxPacket>
    requires packets <= |q|
  {
    if packets == |q| then [] else [q[packets].Advance(part)] + q[packets + 1..]
  }

  /** Every `SSL_write` takes all it is given, up to `bound` bytes. */
  predicate WritesAll(results: seq<WriteResult>, bound: nat)
  {
    forall r | r in results :: r.Wrote? && r.limit >= bound
  }

  /** When every write takes everything, exactly the budget is used, or the queue emptied. */
  lemma {:induction false} WritesAllPlan(q: seq<TxPacket>, budget: nat, rs: seq<WriteResult>, i: nat, bound: nat)
    requires forall x | x in q :: |x.payload| <= bound
    requires WritesAll(rs, bound) && i + budget <= |rs|
    ensures PlanOf(q, budget, rs, i).packets == if budget < |q| then budget else |q|
    decreases budget
  {
    if budget > 0 && q != [] {
      assert rs[i] in rs && q[0] in q;
      var left := |q[0].Left()|;
      assert left > 0 ==> FrontOf(left - Taken(rs[i].limit, left), rs, i + 1) == Front(0, i + 1, false);
      WritesAllPlan(q[1..], budget - 1, rs, FrontOf(left, rs, i).next, bound);
    }
  }

  /** The first result from number `i` on that is not a success. */
  function FirstStop(rs: seq<WriteResult>, i: nat): (j: nat)
    requires i <= |rs|
    ensures i <= j <= |rs| && (j < |rs| ==> !rs[j].Wrote?) && forall k | i <= k < j :: rs[k].Wrote?
    decreases |rs| - i
  {
    if i == |rs| || !rs[i].Wrote? then i else FirstStop(rs, i + 1)
  }

  lemma {:induction false} FrontStops(left: nat, rs: seq<WriteResult>, i: nat)
    requires i <= |rs|
    ensures var f, j := FrontOf(left, rs, i), FirstStop(rs, i);
      if f.bytes < left then f.dies <==> j < |rs| && rs[j].Fatal? else !f.dies && FirstStop(rs, f.next) == j
    decreases left
  {
    if left > 0 && i < |rs| && rs[i].Wrote? { FrontStops(left - Taken(rs[i].limit, left), rs, i + 1); }
  }

  /** A flush that uses up its budget or its queue never fails; one that stops short fails if
      and only if the first call that is not a success is a fatal one. */
  lemma {:induction false} FailsIffFatal(q: seq<TxPacket>, budget: nat, rs: seq<WriteResult>, i: nat)
    requires i <= |rs|
    ensures var p, j := PlanOf(q, budget, rs, i), FirstStop(rs, i);
      p.dies <==> p.packets < budget && p.packets < |q| && j < |rs| && rs[j].Fatal?
    decreases budget
  {
    if budget > 0 && q != [] {
      FrontStops(|q[0].Left()|, rs, i);
      var f := FrontOf(|q[0].Left()|, rs, i);
      if f.bytes == |q[0].Left()| { FailsIffFatal(q[1..], budget - 1, rs, f.next); }
    }
  }

  // ---- The states a flush goes through ----

  /** The front packet has been sent, has to be retried, or has failed; `next` is the number of
      the first unused result. */
  datatype FrontEnd =
    | AllSent(c: TlsConn, next: nat)
    | Retry(c: TlsConn, next: nat)
    | Lost(c: TlsConn, next: nat)

  function SendPacket(c: TlsConn, rs: seq<WriteResult>, i: nat): (r: FrontEnd)
    requires c.queue != [] && i <= |rs|
    ensures i <= r.next <= |rs| && r.c.queue != []
    decreases |rs| - i
  {
    if c.queue[0].Left() == [] then AllSent(c, i)
    else if i == |rs| then Retry(Block(c, c.finished), i)
    else
      match rs[i]
      case Wrote(limit, finished) => SendPacket(Write(c, limit, finished), rs, i + 1)
      case WantIo(finished) => Retry(Block(c, finished), i + 1)
      case Fatal => Lost(c, i + 1)
  }

  /** How a flush of one connection ended. */
  datatype FlushResult =
    | Emptied(c: TlsConn)
    | OutOfBudget(c: TlsConn)
    | MustRetry(c: TlsConn)
    | Dead

  function SendQueue(c: TlsConn, budget: nat, rs: seq<WriteResult>, i: nat): FlushResult
    requires i <= |rs|
    decreases budget
  {
    if budget == 0 then OutOfBudget(c)
    else if c.queue == [] then Emptied(c)
    else
      match SendPacket(c, rs, i)
      case AllSent(c', next) => SendQueue(PopFront(c'), budget - 1, rs, next)
      case Retry(c', _) => MustRetry(c')
      case Lost(_, _) => Dead
  }

  class TlsReactor {
    var conns: map<int, TlsConn>

    constructor ()
      ensures Valid() && conns == map[]
    {
      conns := map[];
    }

    predicate Valid()
      reads this
    {
      forall fd | fd in conns :: Served(conns[fd])
    }

    /** Only the entry of `fd` may differ between two connection tables. */
    static ghost predicate OnlyAt(fd: int, before: map<int, TlsConn>, after: map<int, TlsConn>)
    {
      && (forall g | g != fd :: g in after <==> g in before)
      && (forall g | g != fd && g in after :: after[g] == before[g])
      && (fd in after ==> fd in before)
    }

    method CloseConnection(fd: int)
      modifies this
      ensures fd !in conns && OnlyAt(fd, old(conns), conns)
    {
      conns := conns - {fd};
    }

    /** Writes the front packet until it is sent, blocked or failed, starting with
        result number `first`. */
    method SendFront(c0: TlsConn, results: seq<WriteResult>, first: nat) returns (r: FrontEnd)
      requires Intact(c0) && c0.queue != [] && first <= |results|
      ensures r == SendPacket(c0, results, first)
    {
      var c, next := c0, first;
      while c.queue[0].offset < |c.queue[0].payload|
        invariant next <= |results| && c.queue != [] && c.queue[0].Valid()
        invariant SendPacket(c, results, next) == SendPacket(c0, results, first)
        decreases |results| - next
      {
        if next == |results| { return Retry(Block(c, c.finished), next); }
        match results[next] {
          case Wrote(limit, finished) => c := Write(c, limit, finished);
          case WantIo(finished) => return Retry(Block(c, finished), next + 1);
          case Fatal => return Lost(c, next + 1);
        }
        next := next + 1;
      }
      r := AllSent(c, next);
    }

    /** The packet loop of `flushTx` on one connection. */
    method FlushQueue(c0: TlsConn, budget: nat, results: seq<WriteResult>) returns (r: FlushResult)
      requires Intact(c0)
      ensures r == SendQueue(c0, budget, results, 0)
    {
      var c, used, next: nat := c0, 0, 0;
      while used < budget
        invariant used <= budget && next <= |results| && Intact(c)
        invariant SendQueue(c, budget - used, results, next) == SendQueue(c0, budget, results, 0)
        decreases budget - used
      {
        if c.queue == [] { return Emptied(c); }
        var f := SendFront(c, results, next);
        if f.Lost? { return Dead; }
        if f.Retry? { return MustRetry(f.c); }
        PacketKeepsIntact(c, results, next);
        c, next := PopFront(f.c), f.next;
        used := used + 1;
      }
      r := OutOfBudget(c);
    }

    method FlushTx(fd: int, budget: nat, results: seq<WriteResult>)
      requires fd in conns ==> Intact(conns[fd])
      modifies this
      ensures OnlyAt(fd, old(conns), conns)
      ensures fd in old(conns) ==> (fd !in conns <==> Fails(old(conns)[fd], budget, results))
      ensures fd in conns ==> Flushed(old(conns)[fd], conns[fd], budget, results)
    {
      if fd !in conns { return; }
      QueueIsPlanned(conns[fd], budget, results, 0);
      if !SendQueue(conns[fd], budget, results, 0).Dead? {
        ghost var x, o := QueueIsSent(conns[fd], budget, results, 0);
        QueueIsCut(conns[fd], budget, results, 0);
        QueueFinished(conns[fd], budget, results, 0);
      }
      QueueKeepsIntact(conns[fd], budget, results, 0);
      var r := FlushQueue(conns[fd], budget, results);
      if r.Dead? {
        CloseConnection(fd);
      } else {
        conns := conns[fd := r.c];
      }
    }

    /** Registers EPOLLOUT while the handshake or queued packets need it. */
    method UpdateInterest(fd: int)
      modifies this
      ensures OnlyAt(fd, old(conns), conns)
      ensures fd in old(conns) ==> fd in conns
      ensures fd in conns ==>
        conns[fd] == old(conns)[fd].(epollOut := !old(conns)[fd].finished || old(conns)[fd].queue != [])
    {
      if fd !in conns { return; }
      var c := conns[fd];
      if !c.finished {
        conns := conns[fd := c.(epollOut := true)];
        return;
      }
      conns := conns[fd := c.(epollOut := c.queue != [])];
    }

    /** What `receive` does to the transmit side. */
    method Receive(fd: int, end: ReadEnd)
      modifies this
      ensures OnlyAt(fd, old(conns), conns)
      ensures fd in old(conns) ==> (fd in conns <==> !end.ReadClosed?)
      ensures fd in conns ==>
        conns[fd] == old(conns)[fd].(finished := end.finished,
                                     epollOut := end.ReadWantsWrite? || old(conns)[fd].epollOut)
    {
      if fd !in conns { return; }
      match end
      case ReadBlocked(finished) => conns := conns[fd := conns[fd].(finished := finished)];
      case ReadWantsWrite(finished) =>
        conns := conns[fd := conns[fd].(finished := finished, epollOut := true)];
      case ReadClosed => CloseConnection(fd);
    }

    method DriveHandshake(fd: int, step: HandshakeStep, end: ReadEnd)
      requires fd in conns && !conns[fd].finished && Intact(conns[fd])
      modifies this
      ensures OnlyAt(fd, old(conns), conns)
      ensures fd in conns ==> Served(conns[fd])
      ensures fd !in conns <==> step.Refused? || (step.Done? && end.ReadClosed?)
      ensures fd in conns ==> Shaken(old(conns)[fd], conns[fd], step, end)
    {
      match step
      case Done =>
        conns := conns[fd := conns[fd].(finished := true)];
        UpdateInterest(fd);
        Receive(fd, end);
      case WantRead =>
        conns := conns[fd := conns[fd].(epollOut := false)];
      case WantWrite =>
        conns := conns[fd := conns[fd].(epollOut := true)];
      case Refused =>
        CloseConnection(fd);
    }

    /** The EPOLLIN event. */
    method OnReadable(fd: int, step: HandshakeStep, end: ReadEnd)
      requires Valid()
      modifies this
      ensures Valid() && OnlyAt(fd, old(conns), conns)
      ensures fd in old(conns) && !old(conns)[fd].finished ==>
        (fd !in conns <==> step.Refused? || (step.Done? && end.ReadClosed?))
      ensures fd in old(conns) && old(conns)[fd].finished ==> (fd !in conns <==> end.ReadClosed?)
      ensures fd in conns && !old(conns)[fd].finished ==> Shaken(old(conns)[fd], conns[fd], step, end)
      ensures fd in conns && old(conns)[fd].finished ==>
        conns[fd] == old(conns)[fd].(finished := end.finished,
                                     epollOut := end.ReadWantsWrite? || old(conns)[fd].epollOut)
    {
      if fd !in conns { return; }
      if !conns[fd].finished {
        DriveHandshake(fd, step, end);
        return;
      }
      Receive(fd, end);
    }

    /** The EPOLLOUT event. */
    method OnWritable(fd: int, step: HandshakeStep, end: ReadEnd, results: seq<WriteResult>)
      requires Valid()
      modifies this
      ensures Valid() && OnlyAt(fd, old(conns), conns)
      ensures fd in conns ==>
        if old(conns)[fd].finished
        then SentOn(old(conns)[fd], conns[fd], 256, results)
             && conns[fd].epollOut == (!conns[fd].finished || conns[fd].queue != [])
        else Shaken(old(conns)[fd], conns[fd], step, end)
      ensures fd in old(conns) && !old(conns)[fd].finished ==>
        (fd !in conns <==> step.Refused? || (step.Done? && end.ReadClosed?))
      ensures fd in old(conns) && old(conns)[fd].finished ==>
        (fd !in conns <==> Fails(old(conns)[fd], 256, results))
    {
      if fd !in conns { return; }
      if !conns[fd].finished {
        DriveHandshake(fd, step, end);
        return;
      }
      FlushTx(fd, BUDGET, results);
      if fd in conns { InterestAside(old(conns)[fd], conns[fd], BUDGET, results); }
      UpdateInterest(fd);
    }

    /** A connection handed over by the TCP reactor. */
    method Handover(fd: int)
      requires Valid()
      modifies this
      ensures Valid()
      ensures conns == if fd in old(conns) then old(conns) else old(conns)[fd := NEW_CONNECTION]
    {
      if fd !in conns {
        conns := conns[fd := NEW_CONNECTION];
      }
    }

    /** The wakeup branch: queues one batch, then for every connection that got
        something refreshes the interest and flushes, in any order. */
    method ProcessTxQueue(packets: seq<Packet>, results: map<int, seq<WriteResult>>)
      requires Valid()
      modifies this
      ensures Valid()
      ensures forall fd | fd in conns :: fd in old(conns)
      ensures forall fd | fd in conns && PayloadsFor(fd, packets) == [] :: conns[fd] == old(conns)[fd]
      ensures forall fd | fd in conns && PayloadsFor(fd, packets) != [] ::
                Flushed(PushAll(old(conns)[fd], PayloadsFor(fd, packets)).(epollOut := true),
                        conns[fd], 256, ResultsFor(fd, results))
      ensures forall fd | fd in old(conns) ::
                fd !in conns <==>
                PayloadsFor(fd, packets) != [] &&
                Fails(PushAll(old(conns)[fd], PayloadsFor(fd, packets)), 256, ResultsFor(fd, results))
    {
      var dirty := PushPackets(packets);
      ghost var start := conns;
      ghost var all := dirty;
      while dirty != {}
        invariant dirty <= all && Draining(start, conns, all, dirty, results)
        decreases dirty
      {
        var fd := Pick(dirty);
        ghost var before := conns;
        ServeOne(fd, ResultsFor(fd, results));
        DrainingStep(start, before, conns, all, dirty, fd, results);
        dirty := dirty - {fd};
      }
    }

    method ServeOne(fd: int, writes: seq<WriteResult>)
      requires fd in conns ==> Intact(conns[fd]) && conns[fd].queue != []
      modifies this
      ensures OnlyAt(fd, old(conns), conns)
      ensures fd in conns ==> Served(conns[fd])
      ensures fd in conns ==> Flushed(old(conns)[fd].(epollOut := true), conns[fd], 256, writes)
      ensures fd in old(conns) ==> (fd !in conns <==> Fails(old(conns)[fd], 256, writes))
    {
      UpdateInterest(fd);
      FlushTx(fd, BUDGET, writes);
    }

    /** Queues packets; none is dropped, whatever their number. */
    method PushPackets(packets: seq<Packet>) returns (dirty: set<int>)
      requires Valid()
      modifies this
      ensures Pushing(old(conns), conns, dirty, packets)
      ensures forall fd | fd in conns :: Intact(conns[fd])
    {
      dirty := {};
      for i := 0 to |packets|
        invariant Pushing(old(conns), conns, dirty, packets[..i])
      {
        var fd, payload := packets[i].fd, packets[i].payload;
        assert packets[..i + 1] == packets[..i] + [packets[i]];
        PushingStep(old(conns), conns, dirty, packets[..i], packets[i]);
        if fd in conns {
          conns := conns[fd := Push(conns[fd], payload)];
          dirty := dirty + {fd};
        }
      }
      assert packets[..|packets|] == packets;
      forall fd | fd in conns ensures Intact(conns[fd]) {
        PushAllIntact(old(conns)[fd], PayloadsFor(fd, packets));
      }
    }
  }

  /** `now` is `start` with the packets of a batch queued. */
  ghost predicate Pushing(start: map<int, TlsConn>, now: map<int, TlsConn>, dirty: set<int>, packets: seq<Packet>)
  {
    && (forall fd :: fd in now <==> fd in start)
    && (forall fd | fd in now :: now[fd] == PushAll(start[fd], PayloadsFor(fd, packets)))
    && (forall fd | fd in now :: fd in dirty <==> PayloadsFor(fd, packets) != [])
    && (forall fd | fd in now && fd !in dirty :: now[fd] == start[fd])
    && (forall fd | fd in now && fd in dirty :: now[fd].queue != [])
  }

  lemma PushingStep(start: map<int, TlsConn>, now: map<int, TlsConn>, dirty: set<int>, packets: seq<Packet>,
                    p: Packet)
    requires Pushing(start, now, dirty, packets)
    ensures p.fd in now ==>
      Pushing(start, now[p.fd := Push(now[p.fd], p.payload)], dirty + {p.fd}, packets + [p])
    ensures p.fd !in now ==> Pushing(start, now, dirty, packets + [p])
  {
    if p.fd in now {
      PushAllStep(start[p.fd], PayloadsFor(p.fd, packets), p.payload);
    }
    forall fd ensures PayloadsFor(fd, packets + [p]) ==
                      if p.fd == fd then PayloadsFor(fd, packets) + [p.payload] else PayloadsFor(fd, packets) {
      PayloadsForNext(fd, packets, p);
    }
  }

  /** What a step of the handshake makes of a connection that survives it: EPOLLOUT exactly
      while `SSL_accept` wants to write; once done, for packets that wait or a read that
      wants to write; and the packets and the wire as they were. */
  predicate Shaken(before: TlsConn, after: TlsConn, step: HandshakeStep, end: ReadEnd)
  {
    match step
    case WantRead => after == before.(epollOut := false)
    case WantWrite => after == before.(epollOut := true)
    case Done =>
      !end.ReadClosed? &&
      after == before.(finished := end.finished, epollOut := end.ReadWantsWrite? || before.queue != [])
    case Refused => false
  }

  /** What a flush does to a connection that survives it: exactly the bytes the calls take
      leave the front of the queue, and EPOLLOUT is registered if they stop short. */
  ghost predicate Flushed(before: TlsConn, after: TlsConn, budget: nat, results: seq<WriteResult>)
  {
    SentOn(before, after, budget, results) && after.epollOut == (before.epollOut || Short(before, budget, results, 0))
  }

  /** The calls from number `i` on stop short of the budget and of the end of the queue. */
  predicate Short(c: TlsConn, budget: nat, results: seq<WriteResult>, i: nat)
    requires i <= |results|
  {
    var p := PlanOf(c.queue, budget, results, i);
    p.packets < budget && p.packets < |c.queue|
  }

  /** Whether the handshake counts as finished: what the last of the results from number `i` up to
      `next` has reported, or as before if there was none. */
  function Finished(c: TlsConn, rs: seq<WriteResult>, i: nat, next: nat): bool
    requires i <= next <= |rs|
  {
    if i == next || rs[next - 1].Fatal? then c.finished else rs[next - 1].finished
  }

  ghost predicate SentOn(before: TlsConn, after: TlsConn, budget: nat, results: seq<WriteResult>)
  {
    var p := PlanOf(before.queue, budget, results, 0);
    && Intact(after) && SentBytes(before, after, p.bytes) && after.queue == Rest(before.queue, p.packets, p.part)
    && after.finished == Finished(before, results, 0, p.next)
  }

  lemma InterestAside(before: TlsConn, after: TlsConn, budget: nat, results: seq<WriteResult>)
    requires SentOn(before, after, budget, results)
    ensures forall on :: SentOn(before, after.(epollOut := on), budget, results)
  {
    var k := PlanOf(before.queue, budget, results, 0).bytes;
    var x, o :| |x| == k && Sent(before, after, x, o);
    forall on ensures SentBytes(before, after.(epollOut := on), k) {
      assert Sent(before, after.(epollOut := on), x, o);
    }
  }

  /** The calls end in a fatal error. */
  predicate Fails(c: TlsConn, budget: nat, results: seq<WriteResult>)
  {
    PlanOf(c.queue, budget, results, 0).dies
  }

  /** The invariant survives the writes of a packet ... */
  lemma {:induction false} PacketKeepsIntact(c: TlsConn, rs: seq<WriteResult>, i: nat)
    requires Intact(c) && c.queue != [] && i <= |rs|
    ensures Intact(SendPacket(c, rs, i).c)
    ensures SendPacket(c, rs, i).AllSent? ==> Intact(PopFront(SendPacket(c, rs, i).c))
    decreases |rs| - i
  {
    if c.queue[0].Left() == [] {
      PopKeepsIntact(c);
    } else if i == |rs| {
      BlockKeepsIntact(c, c.finished);
    } else if rs[i].WantIo? {
      BlockKeepsIntact(c, rs[i].finished);
    } else if rs[i].Wrote? {
      WriteKeepsIntact(c, rs[i].limit, rs[i].finished);
      PacketKeepsIntact(Write(c, rs[i].limit, rs[i].finished), rs, i + 1);
    }
  }

  /** ... what is done to the packet is what the counts say ... */
  lemma {:induction false} PacketIsPlanned(c: TlsConn, rs: seq<WriteResult>, i: nat)
    requires c.queue != [] && i <= |rs|
    ensures var r, f := SendPacket(c, rs, i), FrontOf(|c.queue[0].Left()|, rs, i);
      && r.next == f.next && (r.Lost? <==> f.dies) && (r.AllSent? <==> f.bytes == |c.queue[0].Left()|)
      && r.c.epollOut == (c.epollOut || r.Retry?)
    decreases |rs| - i
  {
    var left := c.queue[0].Left();
    if left != [] && i < |rs| && rs[i].Wrote? {
      AdvanceLeft(c.queue[0], Taken(rs[i].limit, |left|));
      PacketIsPlanned(Write(c, rs[i].limit, rs[i].finished), rs, i + 1);
    }
  }

  lemma {:induction false} OnlyFrontAdvances(c: TlsConn, rs: seq<WriteResult>, i: nat)
    requires c.queue != [] && i <= |rs|
    ensures SendPacket(c, rs, i).c.queue ==
            [c.queue[0].Advance(FrontOf(|c.queue[0].Left()|, rs, i).bytes)] + c.queue[1..]
    decreases |rs| - i
  {
    var left := c.queue[0].Left();
    if left != [] && i < |rs| && rs[i].Wrote? {
      var d := Write(c, rs[i].limit, rs[i].finished);
      AdvanceLeft(c.queue[0], Taken(rs[i].limit, |left|));
      assert d.queue[1..] == c.queue[1..];
      OnlyFrontAdvances(d, rs, i + 1);
    } else {
      assert c.queue == [c.queue[0]] + c.queue[1..];
    }
  }

  /** ... and those bytes go to the wire. */
  lemma {:induction false} PacketIsSent(c: TlsConn, rs: seq<WriteResult>, i: nat)
    returns (x: seq<Byte>, o: seq<Offer>)
    requires c.queue != [] && i <= |rs|
    ensures |x| == FrontOf(|c.queue[0].Left()|, rs, i).bytes && Sent(c, SendPacket(c, rs, i).c, x, o)
    decreases |rs| - i
  {
    var left := |c.queue[0].Left()|;
    if left == 0 || (i < |rs| && rs[i].Fatal?) {
      SentNothing(c);
      return [], [];
    }
    if i == |rs| || rs[i].WantIo? {
      o := BlockSends(c, if i == |rs| then c.finished else rs[i].finished);
      return [], o;
    }
    var d := Write(c, rs[i].limit, rs[i].finished);
    AdvanceLeft(c.queue[0], Taken(rs[i].limit, left));
    var y, p := WriteSends(c, rs[i].limit, rs[i].finished);
    x, o := PacketIsSent(d, rs, i + 1);
    SentTrans(c, d, SendPacket(d, rs, i + 1).c, y, p, x, o);
    return y + x, p + o;
  }

  /** The last of the results from number `i` up to `next`, if any, has not failed. */
  predicate Alive(rs: seq<WriteResult>, i: nat, next: nat)
    requires i <= next <= |rs|
  {
    i < next ==> !rs[next - 1].Fatal?
  }

  lemma {:induction false} PacketFinished(c: TlsConn, rs: seq<WriteResult>, i: nat)
    requires c.queue != [] && i <= |rs| && !SendPacket(c, rs, i).Lost?
    ensures var r := SendPacket(c, rs, i); Alive(rs, i, r.next) && r.c.finished == Finished(c, rs, i, r.next)
    decreases |rs| - i
  {
    if c.queue[0].Left() != [] && i < |rs| && rs[i].Wrote? {
      PacketFinished(Write(c, rs[i].limit, rs[i].finished), rs, i + 1);
    }
  }

  lemma {:induction false} QueueFinished(c: TlsConn, budget: nat, rs: seq<WriteResult>, i: nat)
    requires i <= |rs| && !SendQueue(c, budget, rs, i).Dead?
    ensures var r, next := SendQueue(c, budget, rs, i), PlanOf(c.queue, budget, rs, i).next;
      Alive(rs, i, next) && r.c.finished == Finished(c, rs, i, next)
    decreases budget
  {
    if budget > 0 && c.queue != [] {
      PacketIsPlanned(c, rs, i);
      var f := SendPacket(c, rs, i);
      PacketFinished(c, rs, i);
      if f.AllSent? {
        OnlyFrontAdvances(c, rs, i);
        assert PopFront(f.c).queue == c.queue[1..];
        QueueFinished(PopFront(f.c), budget - 1, rs, f.next);
      }
    }
  }

  lemma {:induction false} QueueKeepsIntact(c: TlsConn, budget: nat, rs: seq<WriteResult>, i: nat)
    requires Intact(c) && i <= |rs|
    ensures var r := SendQueue(c, budget, rs, i);
      !r.Dead? ==> Intact(r.c)
    decreases budget
  {
    if budget > 0 && c.queue != [] {
      PacketKeepsIntact(c, rs, i);
      var f := SendPacket(c, rs, i);
      if f.AllSent? { QueueKeepsIntact(PopFront(f.c), budget - 1, rs, f.next); }
    }
  }

  /** A flush does to the queue what the plan says ... */
  lemma {:induction false} QueueIsPlanned(c: TlsConn, budget: nat, rs: seq<WriteResult>, i: nat)
    requires i <= |rs|
    ensures var r := SendQueue(c, budget, rs, i);
      && (r.Dead? <==> PlanOf(c.queue, budget, rs, i).dies)
      && (!r.Dead? ==> r.c.epollOut == (c.epollOut || Short(c, budget, rs, i)))
    decreases budget
  {
    if budget > 0 && c.queue != [] {
      PacketIsPlanned(c, rs, i);
      var f := SendPacket(c, rs, i);
      if f.AllSent? {
        OnlyFrontAdvances(c, rs, i);
        assert PopFront(f.c).queue == c.queue[1..];
        QueueIsPlanned(PopFront(f.c), budget - 1, rs, f.next);
      }
    }
  }

  lemma {:induction false} QueueIsCut(c: TlsConn, budget: nat, rs: seq<WriteResult>, i: nat)
    requires i <= |rs| && !SendQueue(c, budget, rs, i).Dead?
    ensures var p := PlanOf(c.queue, budget, rs, i);
      SendQueue(c, budget, rs, i).c.queue == Rest(c.queue, p.packets, p.part)
    decreases budget
  {
    if budget == 0 || c.queue == [] {
      FirstOfQueue(c.queue);
    } else {
      PacketIsPlanned(c, rs, i);
      OnlyFrontAdvances(c, rs, i);
      var f := SendPacket(c, rs, i);
      if f.AllSent? {
        var d := PopFront(f.c);
        assert d.queue == c.queue[1..];
        QueueIsCut(d, budget - 1, rs, f.next);
        RestCons(c.queue, PlanOf(d.queue, budget - 1, rs, f.next));
      }
    }
  }

  lemma FirstOfQueue(q: seq<TxPacket>)
    ensures Rest(q, 0, 0) == q
  {
    if q != [] { assert q == [q[0]] + q[1..]; }
  }

  lemma RestCons(q: seq<TxPacket>, p: Plan)
    requires q != [] && p.packets <= |q| - 1
    ensures Rest(q, 1 + p.packets, p.part) == Rest(q[1..], p.packets, p.part)
  {
  }

  /** ... and those bytes go to the wire. */
  lemma {:induction false} QueueIsSent(c: TlsConn, budget: nat, rs: seq<WriteResult>, i: nat)
    returns (x: seq<Byte>, o: seq<Offer>)
    requires i <= |rs| && !SendQueue(c, budget, rs, i).Dead?
    ensures |x| == PlanOf(c.queue, budget, rs, i).bytes && Sent(c, SendQueue(c, budget, rs, i).c, x, o)
    decreases budget
  {
    if budget == 0 || c.queue == [] {
      SentNothing(c);
      return [], [];
    }
    PacketIsPlanned(c, rs, i);
    x, o := PacketIsSent(c, rs, i);
    var f := SendPacket(c, rs, i);
    if f.AllSent? {
      var d := PopFront(f.c);
      DoneIsEmpty(c, rs, i);
      OnlyFrontAdvances(c, rs, i);
      PopSends(f.c);
      SentTrans(c, f.c, d, x, o, [], []);
      var y, p := QueueIsSent(d, budget - 1, rs, f.next);
      SentTrans(c, d, SendQueue(d, budget - 1, rs, f.next).c, x + [], o + [], y, p);
      assert d.queue == c.queue[1..];
      return x + [] + y, o + [] + p;
    }
  }

  lemma {:induction false} DoneIsEmpty(c: TlsConn, rs: seq<WriteResult>, i: nat)
    requires c.queue != [] && i <= |rs| && SendPacket(c, rs, i).AllSent?
    ensures SendPacket(c, rs, i).c.queue[0].Left() == []
    decreases |rs| - i
  {
    if c.queue[0].Left() != [] { DoneIsEmpty(Write(c, rs[i].limit, rs[i].finished), rs, i + 1); }
  }

  function Push(c: TlsConn, payload: seq<Byte>): TlsConn
  {
    c.(queue := c.queue + [TxPacket(payload, 0)], queued := c.queued + payload)
  }

  function Fresh(payloads: seq<seq<Byte>>): (r: seq<TxPacket>)
    ensures |r| == |payloads| && forall i | 0 <= i < |r| :: r[i] == TxPacket(payloads[i], 0)
  {
    seq(|payloads|, i requires 0 <= i < |payloads| => TxPacket(payloads[i], 0))
  }

  function PushAll(c: TlsConn, payloads: seq<seq<Byte>>): TlsConn
  {
    c.(queue := c.queue + Fresh(payloads), queued := c.queued + Concat(payloads))
  }

  lemma PushAllStep(c: TlsConn, payloads: seq<seq<Byte>>, payload: seq<Byte>)
    ensures Push(PushAll(c, payloads), payload) == PushAll(c, payloads + [payload])
  {
    ConcatAppend(payloads, [payload]);
    ConcatOne(payload);
    AppendAssoc(c.queued, Concat(payloads), payload);
    AppendAssoc(c.queue, Fresh(payloads), [TxPacket(payload, 0)]);
    assert Fresh(payloads + [payload]) == Fresh(payloads) + [TxPacket(payload, 0)];
  }

  lemma {:induction false} UnsentFresh(payloads: seq<seq<Byte>>)
    ensures Unsent(Fresh(payloads)) == Concat(payloads)
  {
    if payloads != [] {
      UnsentFresh(payloads[1..]);
      assert Fresh(payloads)[1..] == Fresh(payloads[1..]);
    }
  }

  lemma PushAllIntact(c: TlsConn, payloads: seq<seq<Byte>>)
    requires Intact(c)
    ensures Intact(PushAll(c, payloads))
  {
    UnsentFresh(payloads);
    UnsentAppend(c.queue, Fresh(payloads));
    AppendAssoc(c.wire, Unsent(c.queue), Concat(payloads));
  }

  function ResultsFor(fd: int, results: map<int, seq<WriteResult>>): seq<WriteResult>
  {
    if fd in results then results[fd] else []
  }

  /** `now` is `start` with those connections of `all` served that are no longer in
      `dirty`. */
  ghost predicate Draining(start: map<int, TlsConn>, now: map<int, TlsConn>, all: set<int>, dirty: set<int>,
                           results: map<int, seq<WriteResult>>)
  {
    && (forall fd | fd in now :: fd in start)
    && (forall fd | fd in now && (fd !in all || fd in dirty) :: now[fd] == start[fd])
    && (forall fd | fd in now && fd in all && fd !in dirty ::
          Served(now[fd]) &&
          Flushed(start[fd].(epollOut := true), now[fd], BUDGET, ResultsFor(fd, results)))
    && (forall fd | fd in start && (fd !in all || fd in dirty) :: fd in now)
    && (forall fd | fd in start && fd in all && fd !in dirty ::
          fd !in now <==> Fails(start[fd], BUDGET, ResultsFor(fd, results)))
  }

  lemma DrainingStep(start: map<int, TlsConn>, now: map<int, TlsConn>, next: map<int, TlsConn>,
                     all: set<int>, dirty: set<int>, fd: int, results: map<int, seq<WriteResult>>)
    requires Draining(start, now, all, dirty, results) && fd in dirty && fd in all
    requires TlsReactor.OnlyAt(fd, now, next)
    requires fd in next ==> Served(next[fd])
    requires fd in next ==> Flushed(now[fd].(epollOut := true), next[fd], BUDGET, ResultsFor(fd, results))
    requires fd in now ==> (fd !in next <==> Fails(now[fd], BUDGET, ResultsFor(fd, results)))
    ensures Draining(start, next, all, dirty - {fd}, results)
  {
  }
}
