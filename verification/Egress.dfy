/** The way out, end to end: answers that threads put in the reactor's lock-free queue reach
    the wire of one TCP connection in the order in which each thread sent them. */
module Egress {
  import opened Words
  import opened Bytes
  import opened Sequences
  import opened MpscQueue
  import opened MpscTheorems
  import opened Framing
  import opened RingTransmit

  /** The transmit queue, how many delivered packets have been distributed, and one
      connection of the reactor. */
  datatype Line = Line(queue: State<Packet>, done: nat, conn: TxConn, open: bool)

  datatype Turn =
    | Queue(move: Move<Packet>)           // a shard thread or the consumer moves
    | Batch(sends: seq<SendResult>)       // what has been delivered is distributed and flushed
    | Writable(sends: seq<SendResult>)    // the EPOLLOUT event

  function Packets(ds: seq<Option<Packet>>): seq<Packet>
  {
    if ds == [] then []
    else Packets(ds[..|ds| - 1]) + if ds[|ds| - 1].Some? then [ds[|ds| - 1].value] else []
  }

  ghost predicate Formed(c: Config, e: Line)
  {
    Shaped(c, e.queue) && e.conn.ring.Valid() && e.done <= |e.queue.delivered|
  }

  function Next(c: Config, fd: int, e: Line, t: Turn): (r: Line)
    requires Formed(c, e)
    ensures Formed(c, r)
  {
    match t
    case Queue(m) => e.(queue := Step(c, e.queue, m))
    case Batch(sends) =>
      var all := e.queue.delivered;
      if !e.open then e.(done := |all|)
      else
        var f := BatchFate(e.conn, PayloadsFor(fd, Packets(all[e.done..])), false, sends);
        e.(done := |all|, conn := f.c, open := f.Open?)
    case Writable(sends) =>
      if !e.open then e
      else
        var f := FlushFate(e.conn, false, sends);
        e.(conn := f.c, open := f.Open?)
  }

  function Play(c: Config, n: nat, fd: int, turns: seq<Turn>): (e: Line)
    requires c.Valid()
    ensures Formed(c, e) && |e.queue.producers| == n
  {
    if turns == [] then Line(Init(c, n), 0, FRESH, true)
    else
      var e := Play(c, n, fd, turns[..|turns| - 1]);
      Next(c, fd, e, turns[|turns| - 1])
  }

  function QueueMoves(turns: seq<Turn>): seq<Move<Packet>>
  {
    if turns == [] then []
    else QueueMoves(turns[..|turns| - 1]) + if turns[|turns| - 1].Queue? then [turns[|turns| - 1].move] else []
  }

  /** The queue of such a run is a run of the queue. */
  lemma {:induction false} QueueRuns(c: Config, n: nat, fd: int, turns: seq<Turn>)
    requires c.Valid()
    ensures Play(c, n, fd, turns).queue == Run(c, n, QueueMoves(turns))
    decreases |turns|
  {
    if turns != [] {
      var front, last := turns[..|turns| - 1], turns[|turns| - 1];
      QueueRuns(c, n, fd, front);
      if last.Queue? {
        assert (QueueMoves(front) + [last.move])[..|QueueMoves(front)|] == QueueMoves(front);
      } else {
        assert QueueMoves(front) + [] == QueueMoves(front);
      }
    }
  }

  lemma TimelyFront(c: Config, n: nat, turns: seq<Turn>)
    requires c.Valid() && turns != [] && TimelyRun(c, n, QueueMoves(turns))
    ensures TimelyRun(c, n, QueueMoves(turns[..|turns| - 1]))
  {
    var front, last := QueueMoves(turns[..|turns| - 1]), turns[|turns| - 1];
    if last.Queue? {
      assert (front + [last.move])[..|front|] == front;
    } else {
      assert front + [] == front;
    }
  }

  // ---- Subsequences ----

  /** `a` is `b` with some elements left out. */
  ghost predicate Subseq<T>(a: seq<T>, b: seq<T>)
    decreases |b|
  {
    a == [] ||
    (b != [] &&
     (Subseq(a, b[..|b| - 1]) || (a[|a| - 1] == b[|b| - 1] && Subseq(a[..|a| - 1], b[..|b| - 1]))))
  }

  lemma SubseqSkip<T>(a: seq<T>, b: seq<T>, x: T)
    requires Subseq(a, b)
    ensures Subseq(a, b + [x])
  {
    assert (b + [x])[..|b|] == b;
  }

  lemma SubseqKeep<T>(a: seq<T>, b: seq<T>, x: T)
    requires Subseq(a, b)
    ensures Subseq(a + [x], b + [x])
  {
    assert (b + [x])[..|b|] == b && (a + [x])[..|a|] == a;
  }

  lemma {:induction false} SubseqConcat<T>(a: seq<T>, b: seq<T>, x: seq<T>, y: seq<T>)
    requires Subseq(a, b) && Subseq(x, y)
    ensures Subseq(a + x, b + y)
    decreases |y|
  {
    if y == [] {
      assert a + x == a && b + y == b;
    } else {
      var y', l := y[..|y| - 1], y[|y| - 1];
      assert b + y == b + y' + [l];
      if Subseq(x, y') {
        SubseqConcat(a, b, x, y');
        SubseqSkip(a + x, b + y', l);
      } else {
        SubseqConcat(a, b, x[..|x| - 1], y');
        assert a + x == a + x[..|x| - 1] + [l];
        SubseqKeep(a + x[..|x| - 1], b + y', l);
      }
    }
  }

  lemma SubseqOfPrefix<T>(a: seq<T>, b: seq<T>, b': seq<T>)
    requires Subseq(a, b) && b <= b'
    ensures Subseq(a, b')
  {
    assert b' == b + b'[|b|..] && a == a + [];
    SubseqConcat(a, b, [], b'[|b|..]);
  }

  /** One thread's part of a subsequence is a subsequence of its part. */
  lemma {:induction false} SubseqOfProducer<T>(a: seq<Ticket<T>>, b: seq<Ticket<T>>, p: nat)
    requires Subseq(a, b)
    ensures Subseq(ByProducer(a, p), ByProducer(b, p))
    decreases |b|
  {
    if a != [] {
      var b', l := b[..|b| - 1], b[|b| - 1];
      if Subseq(a, b') {
        SubseqOfProducer(a, b', p);
        if l.pid == p { SubseqSkip(ByProducer(a, p), ByProducer(b', p), l.item); }
      } else {
        SubseqOfProducer(a[..|a| - 1], b', p);
        if l.pid == p { SubseqKeep(ByProducer(a[..|a| - 1], p), ByProducer(b', p), l.item); }
      }
    }
  }

  /** Positions in increasing order, all below `n`. */
  predicate Positions(ks: seq<nat>, n: nat)
  {
    (forall i | 0 <= i < |ks| :: ks[i] < n) && (forall i, j | 0 <= i < j < |ks| :: ks[i] < ks[j])
  }

  function Pick<T>(ts: seq<T>, ks: seq<nat>): (r: seq<T>)
    requires Positions(ks, |ts|)
    ensures |r| == |ks| && forall i | 0 <= i < |r| :: r[i] == ts[ks[i]]
  {
    seq(|ks|, i requires 0 <= i < |ks| => ts[ks[i]])
  }

  lemma PositionsFront(ks: seq<nat>, n: nat)
    requires ks != [] && Positions(ks, n)
    ensures Positions(ks[..|ks| - 1], ks[|ks| - 1]) && Positions(ks, ks[|ks| - 1] + 1)
  {
  }

  lemma PositionsBelow(ks: seq<nat>, m: nat, n: nat)
    requires Positions(ks, m) && m <= n
    ensures Positions(ks, n)
  {
  }

  lemma PickShorter<T>(ts: seq<T>, ks: seq<nat>, n: nat)
    requires n <= |ts| && Positions(ks, n) && Positions(ks, |ts|)
    ensures Pick(ts[..n], ks) == Pick(ts, ks)
  {
  }

  lemma PickSnoc<T>(ts: seq<T>, ks: seq<nat>, k: nat)
    requires k < |ts| && Positions(ks, k) && Positions(ks, |ts|) && Positions(ks + [k], |ts|)
    ensures Pick(ts, ks + [k]) == Pick(ts, ks) + [ts[k]]
  {
  }

  lemma {:induction false} PickIsSubseq<T>(ts: seq<T>, ks: seq<nat>)
    requires Positions(ks, |ts|)
    ensures Subseq(Pick(ts, ks), ts)
    decreases |ts|
  {
    if ks != [] {
      var n, ks', k := |ts| - 1, ks[..|ks| - 1], ks[|ks| - 1];
      PositionsFront(ks, |ts|);
      assert ts == ts[..n] + [ts[n]];
      if k == n {
        PickIsSubseq(ts[..n], ks');
        PositionsBelow(ks', n, |ts|);
        PickShorter(ts, ks', n);
        assert ks == ks' + [k];
        PickSnoc(ts, ks', k);
        SubseqKeep(Pick(ts, ks'), ts[..n], ts[n]);
      } else {
        PositionsBelow(ks, k + 1, n);
        PickIsSubseq(ts[..n], ks);
        PickShorter(ts, ks, n);
        SubseqSkip(Pick(ts, ks), ts[..n], ts[n]);
      }
    }
  }

  // ---- Which tickets end up in the connection's ring ----

  function ItemsOf(ts: seq<Ticket<Packet>>): (r: seq<Packet>)
    ensures |r| == |ts| && forall i | 0 <= i < |r| :: r[i] == ts[i].item
  {
    seq(|ts|, i requires 0 <= i < |ts| => ts[i].item)
  }

  function Payloads(ts: seq<Ticket<Packet>>): (r: seq<seq<Byte>>)
    ensures |r| == |ts| && forall i | 0 <= i < |r| :: r[i] == ts[i].item.payload
  {
    seq(|ts|, i requires 0 <= i < |ts| => ts[i].item.payload)
  }

  /** What the packets of a batch before position `j` have taken of the room for them. */
  function TakenBefore(fd: int, room: nat, ts: seq<Ticket<Packet>>, j: nat): nat
    requires j <= |ts|
  {
    |Concat(Admitted(room, PayloadsFor(fd, ItemsOf(ts[..j]))))|
  }

  /** The packet at position `j` of a batch is for this connection and still fits. */
  predicate Fits(fd: int, room: nat, ts: seq<Ticket<Packet>>, j: nat)
    requires j < |ts|
  {
    ts[j].item.fd == fd && |ts[j].item.payload| <= room - TakenBefore(fd, room, ts, j)
  }

  /** Which packets of a batch fit. */
  function Fitting(fd: int, room: nat, ts: seq<Ticket<Packet>>): (bs: seq<bool>)
    ensures |bs| == |ts| && forall j | 0 <= j < |ts| :: bs[j] == Fits(fd, room, ts, j)
  {
    seq(|ts|, j requires 0 <= j < |ts| => Fits(fd, room, ts, j))
  }

  /** The positions, offset by `base`, of the marks among the first `n`. */
  function Marked(bs: seq<bool>, n: nat, base: nat): seq<nat>
    requires n <= |bs|
  {
    if n == 0 then [] else Marked(bs, n - 1, base) + if bs[n - 1] then [base + n - 1] else []
  }

  lemma {:induction false} MarkedPositions(bs: seq<bool>, n: nat, base: nat)
    requires n <= |bs|
    ensures var ks := Marked(bs, n, base);
      Positions(ks, base + n) && (forall i | 0 <= i < |ks| :: base <= ks[i] && bs[ks[i] - base])
    ensures forall j | base <= j < base + n && bs[j - base] :: j in Marked(bs, n, base)
    decreases n
  {
    if n > 0 { MarkedPositions(bs, n - 1, base); }
  }

  /** The marked ones among the first `n`. */
  function Filtered<T>(xs: seq<T>, bs: seq<bool>, n: nat): seq<T>
    requires n <= |bs| == |xs|
  {
    if n == 0 then [] else Filtered(xs, bs, n - 1) + if bs[n - 1] then [xs[n - 1]] else []
  }

  lemma {:induction false} MarkedAreFiltered(bs: seq<bool>, n: nat, base: nat)
    requires n <= |bs|
    ensures |Marked(bs, n, base)| == |Filtered(seq(|bs|, i => base + i), bs, n)|
    ensures Marked(bs, n, base) == Filtered(seq(|bs|, i => base + i), bs, n)
    decreases n
  {
    if n > 0 { MarkedAreFiltered(bs, n - 1, base); }
  }

  /** Picking and then looking is looking and then picking. */
  lemma {:induction false} FilteredMaps<S, T>(xs: seq<S>, ys: seq<T>, bs: seq<bool>, n: nat, f: S -> T)
    requires n <= |bs| == |xs| == |ys| && forall j | 0 <= j < |xs| :: ys[j] == f(xs[j])
    ensures |Filtered(ys, bs, n)| == |Filtered(xs, bs, n)|
    ensures forall i | 0 <= i < |Filtered(xs, bs, n)| :: Filtered(ys, bs, n)[i] == f(Filtered(xs, bs, n)[i])
    decreases n
  {
    if n > 0 { FilteredMaps(xs, ys, bs, n - 1, f); }
  }

  lemma MarkedPayloads(all: seq<Ticket<Packet>>, ps: seq<seq<Byte>>, bs: seq<bool>, base: nat)
    requires |bs| == |ps| && base + |ps| <= |all|
    requires forall j | 0 <= j < |ps| :: ps[j] == all[base + j].item.payload
    requires Positions(Marked(bs, |bs|, base), |all|)
    ensures Payloads(Pick(all, Marked(bs, |bs|, base))) == Filtered(ps, bs, |bs|)
  {
    var f := (k: int) => if 0 <= k < |all| then all[k].item.payload else [];
    MarkedAreFiltered(bs, |bs|, base);
    FilteredMaps(seq(|bs|, i => base + i), ps, bs, |bs|, f);
  }

  /** What fits is what the ring admits. */
  lemma {:induction false} FittingAreAdmitted(fd: int, room: nat, ts: seq<Ticket<Packet>>, n: nat)
    requires n <= |ts|
    ensures Filtered(Payloads(ts), Fitting(fd, room, ts), n) == Admitted(room, PayloadsFor(fd, ItemsOf(ts[..n])))
    decreases n
  {
    if n > 0 {
      FittingAreAdmitted(fd, room, ts, n - 1);
      AdmittedMore(fd, room, ts, n);
    } else {
      assert ItemsOf(ts[..0]) == [];
    }
  }

  lemma AdmittedMore(fd: int, room: nat, ts: seq<Ticket<Packet>>, n: nat)
    requires 0 < n <= |ts|
    ensures var before := Admitted(room, PayloadsFor(fd, ItemsOf(ts[..n - 1])));
      Admitted(room, PayloadsFor(fd, ItemsOf(ts[..n]))) ==
      before + if Fits(fd, room, ts, n - 1) then [ts[n - 1].item.payload] else []
  {
    var before, last := ItemsOf(ts[..n - 1]), ts[n - 1].item;
    assert ItemsOf(ts[..n]) == before + [last];
    PayloadsForNext(fd, before, last);
    AdmittedNext(room, PayloadsFor(fd, before), last.payload);
  }

  lemma AdmittedNext(room: nat, ps: seq<seq<Byte>>, p: seq<Byte>)
    ensures Admitted(room, ps + [p]) ==
            if |p| <= room - |Concat(Admitted(room, ps))| then Admitted(room, ps) + [p] else Admitted(room, ps)
  {
    assert (ps + [p])[..|ps|] == ps;
  }

  lemma {:induction false} PacketsOfItems(ts: seq<Ticket<Packet>>)
    ensures Packets(Items(ts)) == ItemsOf(ts)
    decreases |ts|
  {
    if ts != [] {
      PacketsOfItems(ts[..|ts| - 1]);
      assert Items(ts)[..|ts| - 1] == Items(ts[..|ts| - 1]);
    }
  }

  // ---- Every run ----

  /** The packets the connection has accepted are those at the positions `kept` of the tickets:
      packets for it, in ticket order, out of what has been distributed. */
  ghost predicate Kept(fd: int, e: Line, kept: seq<nat>)
  {
    && Conserves(e.conn) && (e.open ==> Settled(e.conn))
    && e.done <= |e.queue.tickets| && Positions(kept, e.done)
    && (forall i | 0 <= i < |kept| :: e.queue.tickets[kept[i]].item.fd == fd)
    && e.conn.accepted == Payloads(Pick(e.queue.tickets[..e.done], kept))
  }

  /** The packet at ticket `j` was distributed by turn `k` of the run, and either the connection
      was closed by then or its ring had no room left for it. */
  ghost predicate NoRoom(c: Config, n: nat, fd: int, turns: seq<Turn>, k: nat, j: nat)
    requires c.Valid()
  {
    k < |turns| && turns[k].Batch? &&
    (var e := Play(c, n, fd, turns[..k]);
     && e.done <= j < |e.queue.delivered| <= |e.queue.tickets|
     && (e.open ==>
           var ts := e.queue.tickets[e.done..|e.queue.delivered|];
           |ts[j - e.done].item.payload| >
           e.conn.ring.Writable() - TakenBefore(fd, e.conn.ring.Writable(), ts, j - e.done)))
  }

  ghost predicate Missed(c: Config, n: nat, fd: int, turns: seq<Turn>, j: nat)
    requires c.Valid()
  {
    exists k: nat :: NoRoom(c, n, fd, turns, k, j)
  }

  lemma MissedStays(c: Config, n: nat, fd: int, turns: seq<Turn>, j: nat)
    requires c.Valid() && turns != [] && Missed(c, n, fd, turns[..|turns| - 1], j)
    ensures Missed(c, n, fd, turns, j)
  {
    var k: nat :| NoRoom(c, n, fd, turns[..|turns| - 1], k, j);
    assert turns[..|turns| - 1][..k] == turns[..k];
    assert NoRoom(c, n, fd, turns, k, j);
  }

  /** Every packet distributed to the connection is kept or was missed. */
  ghost predicate Complete(c: Config, n: nat, fd: int, turns: seq<Turn>, kept: seq<nat>)
    requires c.Valid()
  {
    var e := Play(c, n, fd, turns);
    e.done <= |e.queue.tickets| &&
    forall j: nat | j < e.done && e.queue.tickets[j].item.fd == fd :: j in kept || Missed(c, n, fd, turns, j)
  }

  lemma PickAppend(ts: seq<Ticket<Packet>>, a: nat, b: nat, ks: seq<nat>, ls: seq<nat>)
    requires a <= b <= |ts| && Positions(ks, a) && Positions(ls, b) && forall i | 0 <= i < |ls| :: a <= ls[i]
    ensures Positions(ks + ls, b)
    ensures Payloads(Pick(ts[..b], ks + ls)) == Payloads(Pick(ts[..a], ks)) + Payloads(Pick(ts[..b], ls))
  {
  }

  lemma BatchKeeps(c: Config, fd: int, e: Line, sends: seq<SendResult>, kept: seq<nat>) returns (got: seq<nat>)
    requires Formed(c, e) && Kept(fd, e, kept) && e.open
    requires |e.queue.delivered| <= |e.queue.tickets|
    requires e.queue.delivered == Items(e.queue.tickets[..|e.queue.delivered|])
    ensures Kept(fd, Next(c, fd, e, Batch(sends)), kept + got)
    ensures Caught(fd, e, got)
  {
    got := BatchCatches(fd, e, kept);
    BatchPackets(e.queue, e.done);
    BatchSettles(e.conn, PayloadsFor(fd, Packets(e.queue.delivered[e.done..])), false, sends);
    KeptMore(fd, e, Next(c, fd, e, Batch(sends)), kept, got);
  }

  lemma BatchCatches(fd: int, e: Line, kept: seq<nat>) returns (got: seq<nat>)
    requires Kept(fd, e, kept) && e.done <= |e.queue.delivered| <= |e.queue.tickets|
    ensures Caught(fd, e, got)
    ensures Positions(got, |e.queue.delivered|) && forall i | 0 <= i < |got| :: e.done <= got[i]
    ensures forall i | 0 <= i < |kept + got| ::
              (kept + got)[i] < |e.queue.tickets| && e.queue.tickets[(kept + got)[i]].item.fd == fd
    ensures Payloads(Pick(e.queue.tickets[..|e.queue.delivered|], got)) ==
            Admitted(e.conn.ring.Writable(), PayloadsFor(fd, ItemsOf(e.queue.tickets[e.done..|e.queue.delivered|])))
  {
    got := Caughts(fd, e.conn.ring.Writable(), e.queue.tickets, e.done, |e.queue.delivered|);
    AllAddressed(fd, e.queue.tickets, kept, got);
  }

  lemma Caughts(fd: int, room: nat, all: seq<Ticket<Packet>>, a: nat, b: nat) returns (got: seq<nat>)
    requires a <= b <= |all|
    ensures CaughtIn(fd, room, all, a, b, got)
    ensures Positions(got, b)
    ensures forall i | 0 <= i < |got| :: a <= got[i] && got[i] < |all| && all[got[i]].item.fd == fd
    ensures Payloads(Pick(all[..b], got)) == Admitted(room, PayloadsFor(fd, ItemsOf(all[a..b])))
  {
    got := Marked(Fitting(fd, room, all[a..b]), b - a, a);
    BatchAdmits(fd, room, all, a, b);
    MarkedFit(fd, room, all, a, b);
  }

  lemma MarkedFit(fd: int, room: nat, all: seq<Ticket<Packet>>, a: nat, b: nat)
    requires a <= b <= |all|
    ensures var got := Marked(Fitting(fd, room, all[a..b]), b - a, a);
      && CaughtIn(fd, room, all, a, b, got)
      && forall i | 0 <= i < |got| :: a <= got[i] && got[i] < |all| && all[got[i]].item.fd == fd
  {
    var ts, bs := all[a..b], Fitting(fd, room, all[a..b]);
    var got := Marked(bs, b - a, a);
    MarkedPositions(bs, b - a, a);
    forall i | 0 <= i < |got| ensures a <= got[i] && got[i] < |all| && all[got[i]].item.fd == fd {
      assert ts[got[i] - a] == all[got[i]];
    }
  }

  lemma KeptMore(fd: int, e: Line, r: Line, kept: seq<nat>, got: seq<nat>)
    requires Kept(fd, e, kept) && r.queue == e.queue && e.done <= r.done <= |r.queue.tickets|
    requires Conserves(r.conn) && (r.open ==> Settled(r.conn))
    requires Positions(got, r.done) && forall i | 0 <= i < |got| :: e.done <= got[i]
    requires forall i | 0 <= i < |kept + got| ::
               (kept + got)[i] < |r.queue.tickets| && r.queue.tickets[(kept + got)[i]].item.fd == fd
    requires r.conn.accepted == e.conn.accepted + Payloads(Pick(r.queue.tickets[..r.done], got))
    ensures Kept(fd, r, kept + got)
  {
    PickAppend(r.queue.tickets, e.done, r.done, kept, got);
  }

  lemma BatchPackets(s: State<Packet>, done: nat)
    requires done <= |s.delivered| <= |s.tickets| && s.delivered == Items(s.tickets[..|s.delivered|])
    ensures Packets(s.delivered[done..]) == ItemsOf(s.tickets[done..|s.delivered|])
  {
    assert s.delivered[done..] == Items(s.tickets[done..|s.delivered|]);
    PacketsOfItems(s.tickets[done..|s.delivered|]);
  }

  lemma BatchAdmits(fd: int, room: nat, all: seq<Ticket<Packet>>, a: nat, b: nat)
    requires a <= b <= |all|
    ensures var got := Marked(Fitting(fd, room, all[a..b]), b - a, a);
      Positions(got, b) &&
      Payloads(Pick(all[..b], got)) == Admitted(room, PayloadsFor(fd, ItemsOf(all[a..b])))
  {
    BatchPicks(all, a, b, Fitting(fd, room, all[a..b]));
    FittingAreAdmitted(fd, room, all[a..b], b - a);
    assert all[a..b][..b - a] == all[a..b];
  }

  lemma BatchPicks(all: seq<Ticket<Packet>>, a: nat, b: nat, bs: seq<bool>)
    requires a <= b <= |all| && |bs| == b - a
    ensures Positions(Marked(bs, b - a, a), b)
    ensures Payloads(Pick(all[..b], Marked(bs, b - a, a))) == Filtered(Payloads(all[a..b]), bs, b - a)
  {
    MarkedPositions(bs, b - a, a);
    MarkedPayloads(all[..b], Payloads(all[a..b]), bs, a);
  }

  lemma AllAddressed(fd: int, all: seq<Ticket<Packet>>, kept: seq<nat>, got: seq<nat>)
    requires forall i | 0 <= i < |kept| :: kept[i] < |all| && all[kept[i]].item.fd == fd
    requires forall i | 0 <= i < |got| :: got[i] < |all| && all[got[i]].item.fd == fd
    ensures forall i | 0 <= i < |kept + got| :: (kept + got)[i] < |all| && all[(kept + got)[i]].item.fd == fd
  {
  }

  lemma QueueKeeps(c: Config, fd: int, e: Line, m: Move<Packet>, kept: seq<nat>)
    requires Formed(c, e) && Kept(fd, e, kept)
    ensures Kept(fd, Next(c, fd, e, Queue(m)), kept)
  {
    var r := Step(c, e.queue, m);
    assert e.queue.tickets <= r.tickets;
    assert r.tickets[..e.done] == e.queue.tickets[..e.done];
  }

  lemma ClosedKeeps(c: Config, fd: int, e: Line, sends: seq<SendResult>, kept: seq<nat>)
    requires Formed(c, e) && Kept(fd, e, kept) && !e.open && |e.queue.delivered| <= |e.queue.tickets|
    ensures Kept(fd, Next(c, fd, e, Batch(sends)), kept)
  {
    var all := e.queue.tickets;
    assert Pick(all[..|e.queue.delivered|], kept) == Pick(all[..e.done], kept);
  }

  /** A batch misses exactly what it says. */
  lemma BatchCompletes(c: Config, n: nat, fd: int, turns: seq<Turn>, kept: seq<nat>, got: seq<nat>)
    requires c.Valid() && turns != [] && turns[|turns| - 1].Batch?
    requires Complete(c, n, fd, turns[..|turns| - 1], kept)
    requires Caught(fd, Play(c, n, fd, turns[..|turns| - 1]), got)
    ensures Complete(c, n, fd, turns, kept + got)
  {
    var e, r := Play(c, n, fd, turns[..|turns| - 1]), Play(c, n, fd, turns);
    assert r.done == |e.queue.delivered| && r.queue == e.queue;
    forall j: nat | j < r.done && r.queue.tickets[j].item.fd == fd
      ensures j in kept + got || Missed(c, n, fd, turns, j)
    {
      if j < e.done {
        if j !in kept { MissedStays(c, n, fd, turns, j); }
      } else if j !in got {
        MissedNow(c, n, fd, turns, got, j);
      }
    }
  }

  /** `got` has everything of the batch of tickets from `a` to `b` that fits. */
  ghost predicate CaughtIn(fd: int, room: nat, all: seq<Ticket<Packet>>, a: nat, b: nat, got: seq<nat>)
    requires a <= b <= |all|
  {
    forall j: nat | a <= j < b && Fits(fd, room, all[a..b], j - a) :: j in got
  }

  ghost predicate Caught(fd: int, e: Line, got: seq<nat>)
  {
    && e.done <= |e.queue.delivered| <= |e.queue.tickets|
    && (e.open && e.conn.ring.Valid() ==>
          CaughtIn(fd, e.conn.ring.Writable(), e.queue.tickets, e.done, |e.queue.delivered|, got))
  }

  lemma MissedNow(c: Config, n: nat, fd: int, turns: seq<Turn>, got: seq<nat>, j: nat)
    requires c.Valid() && turns != [] && turns[|turns| - 1].Batch?
    requires var e := Play(c, n, fd, turns[..|turns| - 1]);
      Caught(fd, e, got) && e.done <= j < |e.queue.delivered| && e.queue.tickets[j].item.fd == fd && j !in got
    ensures Missed(c, n, fd, turns, j)
  {
    var e := Play(c, n, fd, turns[..|turns| - 1]);
    var ts := e.queue.tickets[e.done..|e.queue.delivered|];
    assert ts[j - e.done] == e.queue.tickets[j];
    assert NoRoom(c, n, fd, turns, |turns| - 1, j);
  }

  lemma OthersComplete(c: Config, n: nat, fd: int, turns: seq<Turn>, kept: seq<nat>)
    requires c.Valid() && turns != [] && !turns[|turns| - 1].Batch?
    requires Complete(c, n, fd, turns[..|turns| - 1], kept)
    ensures Complete(c, n, fd, turns, kept)
  {
    var e, r := Play(c, n, fd, turns[..|turns| - 1]), Play(c, n, fd, turns);
    assert r.done == e.done && e.queue.tickets <= r.queue.tickets;
    forall j: nat | j < r.done && r.queue.tickets[j].item.fd == fd ensures j in kept || Missed(c, n, fd, turns, j) {
      if j !in kept { MissedStays(c, n, fd, turns, j); }
    }
  }

  lemma {:induction false} PlayKeeps(c: Config, n: nat, fd: int, turns: seq<Turn>) returns (kept: seq<nat>)
    requires c.Valid() && TimelyRun(c, n, QueueMoves(turns))
    ensures Kept(fd, Play(c, n, fd, turns), kept) && Complete(c, n, fd, turns, kept)
    decreases |turns|
  {
    if turns == [] { return []; }
    var front, last := turns[..|turns| - 1], turns[|turns| - 1];
    TimelyFront(c, n, turns);
    kept := PlayKeeps(c, n, fd, front);
    var e := Play(c, n, fd, front);
    match last
    case Queue(m) =>
      QueueKeeps(c, fd, e, m, kept);
      OthersComplete(c, n, fd, turns, kept);
    case Writable(sends) =>
      if e.open { FlushSettles(e.conn, false, sends); }
      OthersComplete(c, n, fd, turns, kept);
    case Batch(sends) =>
      Delivered(c, n, fd, front);
      var got: seq<nat> := [];
      if e.open {
        got := BatchKeeps(c, fd, e, sends, kept);
      } else {
        ClosedKeeps(c, fd, e, sends, kept);
        assert kept + [] == kept;
      }
      BatchCompletes(c, n, fd, turns, kept, got);
      kept := kept + got;
  }

  lemma Delivered(c: Config, n: nat, fd: int, turns: seq<Turn>)
    requires c.Valid() && TimelyRun(c, n, QueueMoves(turns))
    ensures var s := Play(c, n, fd, turns).queue;
      |s.delivered| <= |s.tickets| && s.delivered == Items(s.tickets[..|s.delivered|])
  {
    QueueRuns(c, n, fd, turns);
    RunKeepsInv(c, n, QueueMoves(turns));
  }

  /** Whatever the threads, the reactor and the socket do: the bytes on the connection's wire,
      followed by those still in its ring, are packets addressed to it, each whole and once,
      in the order in which they got their tickets; and those of one thread are in the order
      of its calls.  Every packet to the connection that has been distributed is among them,
      unless the connection was closed before or its ring had no room for it. */
  lemma AnswersLeaveInOrder(c: Config, n: nat, fd: int, turns: seq<Turn>, p: nat) returns (kept: seq<nat>)
    requires c.Valid() && TimelyRun(c, n, QueueMoves(turns)) && p < n
    ensures var e := Play(c, n, fd, turns);
      && e.done <= |e.queue.tickets| && Positions(kept, e.done)
      && (forall i | 0 <= i < |kept| :: e.queue.tickets[kept[i]].item.fd == fd)
      && Concat(Payloads(Pick(e.queue.tickets[..e.done], kept))) == e.conn.wire + e.conn.ring.data
      && InCallOrder(e.queue, p)
      && Subseq(ByProducer(Pick(e.queue.tickets[..e.done], kept), p), Accepted(e.queue.logs[p], Decided(e.queue, p)))
      && Complete(c, n, fd, turns, kept)
  {
    kept := PlayKeeps(c, n, fd, turns);
    var e := Play(c, n, fd, turns);
    var ts := e.queue.tickets[..e.done];
    QueueRuns(c, n, fd, turns);
    TicketsKeepProgramOrder(c, n, QueueMoves(turns), p);
    PickIsSubseq(ts, kept);
    SubseqOfProducer(Pick(ts, kept), ts, p);
    ByProducerPrefix(e.queue.tickets, e.done, p);
    SubseqOfPrefix(ByProducer(Pick(ts, kept), p), ByProducer(ts, p), ByProducer(e.queue.tickets, p));
  }

  /** After a batch, everything delivered has been distributed; and where the socket takes all
      it is offered, a batch that adds something, or a writability event, leaves nothing in
      the ring, so that all that was accepted is on the wire. */
  lemma UnhinderedTurnEmptiesRing(c: Config, n: nat, fd: int, turns: seq<Turn>, sends: seq<SendResult>)
    requires c.Valid() && TimelyRun(c, n, QueueMoves(turns))
    requires |sends| >= 2 && TakesAll(sends) && Play(c, n, fd, turns).open
    ensures Emptied(Play(c, n, fd, turns + [Writable(sends)]))
    ensures var e, r := Play(c, n, fd, turns), Play(c, n, fd, turns + [Batch(sends)]);
      && r.done == |e.queue.delivered| && r.open
      && (r.conn.accepted != e.conn.accepted ==> Emptied(r))
  {
    var kept := PlayKeeps(c, n, fd, turns);
    assert (turns + [Writable(sends)])[..|turns|] == turns && (turns + [Batch(sends)])[..|turns|] == turns;
    UnhinderedNext(c, fd, Play(c, n, fd, turns), sends);
  }

  /** The connection is open with nothing left to send. */
  predicate Emptied(e: Line)
  {
    e.open && e.conn.ring.data == [] && e.conn.wire == Concat(e.conn.accepted)
  }

  lemma UnhinderedNext(c: Config, fd: int, e: Line, sends: seq<SendResult>)
    requires Formed(c, e) && Conserves(e.conn) && e.open && |sends| >= 2 && TakesAll(sends)
    ensures Emptied(Next(c, fd, e, Writable(sends)))
    ensures var r := Next(c, fd, e, Batch(sends));
      r.done == |e.queue.delivered| && r.open && (r.conn.accepted != e.conn.accepted ==> Emptied(r))
  {
    FlushEmpties(e.conn, sends);
    var payloads := PayloadsFor(fd, Packets(e.queue.delivered[e.done..]));
    if Gained(e.conn, payloads) != [] {
      LoadAllConserves(e.conn, payloads);
      FlushEmpties(LoadAll(e.conn, payloads), sends);
    }
  }

  lemma FlushEmpties(conn: TxConn, sends: seq<SendResult>)
    requires Conserves(conn) && |sends| >= 2 && TakesAll(sends)
    ensures var f := FlushFate(conn, false, sends);
      f.Open? && f.c.ring.data == [] && f.c.wire == Concat(conn.accepted) && f.c.accepted == conn.accepted
  {
    UnhinderedEmpties(conn.ring, sends);
    ShiftConserves(conn, |conn.ring.data|);
    assert conn.wire + [] == conn.wire;
    assert Shift(conn, |conn.ring.data|).wire + [] == Shift(conn, |conn.ring.data|).wire;
  }
}
