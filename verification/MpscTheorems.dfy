/** What the queue and its wakeup handshake guarantee over every run. */
module MpscTheorems {
  import opened Words
  import opened MpscQueue

  // ---- Safety ----

  /** Counters stay ordered and at most a capacity apart, and a compare-exchange
      that is about to succeed finds an empty slot, however old its view of head. */
  lemma ReservationIsSafe<T>(c: Config, n: nat, sched: seq<Move<T>>, p: nat, item: T)
    requires c.Valid() && TimelyRun(c, n, sched)
    ensures var s := Run(c, n, sched);
      && s.head <= Scan(s) <= s.tail <= s.head + c.Cap()
      && (p < n && s.producers[p].SawRoom? && TailMatches(c, s, s.producers[p].tail)
          && Timely(c, s, Produce(p, item, false))
          ==> s.tail < s.head + c.Cap() && s.slots[Index(c, s.tail)] == Slot(false, None))
  {
    var s := Run(c, n, sched);
    RunKeepsInv(c, n, sched);
    if p < n && s.producers[p].SawRoom? && TailMatches(c, s, s.producers[p].tail)
       && Timely(c, s, Produce(p, item, false)) {
      assert ProducerOk(c, s, p);
      if s.producers[p].tail != s.tail {
        RemaindersDiffer(s.producers[p].tail, s.tail, c.Word());
      }
      assert Vacant(c, s, s.tail);
    }
  }

  // ---- Exactly once, in ticket order ----

  /** The items of producer `p` among the tickets, in ticket order. */
  function ByProducer<T>(ts: seq<Ticket<T>>, p: nat): seq<T>
  {
    if ts == [] then []
    else
      var front, last := ts[..|ts| - 1], ts[|ts| - 1];
      if last.pid == p then ByProducer(front, p) + [last.item] else ByProducer(front, p)
  }

  lemma {:induction false} ByProducerPrefix<T>(ts: seq<Ticket<T>>, k: nat, p: nat)
    requires k <= |ts|
    ensures ByProducer(ts[..k], p) <= ByProducer(ts, p)
    decreases |ts|
  {
    if k < |ts| {
      var front := ts[..|ts| - 1];
      ByProducerPrefix(front, k, p);
      assert front[..k] == ts[..k];
    } else {
      assert ts[..k] == ts;
    }
  }

  /** The first `n` calls without the refused ones, in call order. */
  function Accepted<T>(log: Log<T>, n: nat): seq<T>
    requires n <= |log.calls|
  {
    if n == 0 then []
    else if n - 1 in log.refused then Accepted(log, n - 1)
    else Accepted(log, n - 1) + [log.calls[n - 1]]
  }

  /** A call that has neither been refused nor got its ticket yet. */
  predicate Undecided<T>(p: Producer<T>) { p.Calling? || p.SawTail? || p.SawRoom? }

  /** How many of a producer's calls have been decided. */
  function Decided<T>(s: State<T>, p: nat): int
    requires p < |s.producers| && p < |s.logs|
  {
    |s.logs[p].calls| - if Undecided(s.producers[p]) then 1 else 0
  }

  /** The producer's tickets, in ticket order, are its decided calls, in call order,
      less the refused ones. */
  ghost predicate InCallOrder<T>(s: State<T>, p: nat)
  {
    && p < |s.producers| && p < |s.logs|
    && Decided(s, p) >= 0
    && (Undecided(s.producers[p]) ==>
          s.producers[p].item == s.logs[p].calls[Decided(s, p)] && Decided(s, p) !in s.logs[p].refused)
    && (forall i | i in s.logs[p].refused :: 0 <= i < |s.logs[p].calls|)
    && ByProducer(s.tickets, p) == Accepted(s.logs[p], Decided(s, p))
  }

  /** Only calls and refusals below `n` matter. */
  lemma {:induction false} AcceptedDependsOnPrefix<T>(a: Log<T>, b: Log<T>, n: nat)
    requires n <= |a.calls| && n <= |b.calls| && a.calls[..n] == b.calls[..n]
    requires forall i | 0 <= i < n :: i in a.refused <==> i in b.refused
    ensures Accepted(a, n) == Accepted(b, n)
    decreases n
  {
    if n > 0 {
      assert a.calls[..n - 1] == a.calls[..n][..n - 1] && b.calls[..n - 1] == b.calls[..n][..n - 1];
      assert a.calls[n - 1] == a.calls[..n][n - 1] && b.calls[n - 1] == b.calls[..n][n - 1];
      AcceptedDependsOnPrefix(a, b, n - 1);
    }
  }

  lemma ProducerKeepsCallOrder<T>(c: Config, s: State<T>, p: nat, item: T, weakFail: bool)
    requires Shaped(c, s) && InCallOrder(s, p)
    ensures InCallOrder(ProducerStep(c, s, p, item, weakFail), p)
  {
    var r := ProducerStep(c, s, p, item, weakFail);
    AcceptedDependsOnPrefix(s.logs[p], r.logs[p], Decided(s, p));
    if |r.tickets| > |s.tickets| {
      assert r.tickets[..|r.tickets| - 1] == s.tickets;
    }
  }

  lemma OthersKeepCallOrder<T>(c: Config, s: State<T>, m: Move<T>, p: nat)
    requires Shaped(c, s) && InCallOrder(s, p) && !(m.Produce? && m.p == p)
    ensures InCallOrder(Step(c, s, m), p)
  {
    var r := Step(c, s, m);
    if |r.tickets| > |s.tickets| {
      assert r.tickets[..|r.tickets| - 1] == s.tickets;
    }
  }

  /** In every run, timely or not, a producer's tickets follow the order of its calls:
      they are all calls but the refused ones and the one not decided yet. */
  lemma {:induction false} TicketsKeepProgramOrder<T>(c: Config, n: nat, sched: seq<Move<T>>, p: nat)
    requires c.Valid() && p < n
    ensures InCallOrder(Run(c, n, sched), p)
    decreases |sched|
  {
    if sched != [] {
      var s, m := Run(c, n, sched[..|sched| - 1]), sched[|sched| - 1];
      TicketsKeepProgramOrder(c, n, sched[..|sched| - 1], p);
      if m.Produce? && m.p == p {
        ProducerKeepsCallOrder(c, s, p, m.item, m.weakFail);
      } else {
        OthersKeepCallOrder(c, s, m, p);
      }
    }
  }

  /** All batches handed out so far, followed by the batch in the making, are the
      first tickets in order: no item is lost, repeated, reordered or null, and what
      comes out of one producer's calls is a prefix of those accepted, in call order. */
  lemma ExactlyOnceInOrder<T>(c: Config, n: nat, sched: seq<Move<T>>, p: nat)
    requires c.Valid() && TimelyRun(c, n, sched) && p < n
    ensures var s := Run(c, n, sched);
      && Scan(s) <= |s.tickets| == s.tail
      && s.delivered + Batch(s) == Items(s.tickets[..Scan(s)])
      && InCallOrder(s, p)
      && ByProducer(s.tickets[..Scan(s)], p) <= Accepted(s.logs[p], Decided(s, p))
  {
    RunKeepsInv(c, n, sched);
    var s := Run(c, n, sched);
    InvDelivers(c, s);
    TicketsKeepProgramOrder(c, n, sched, p);
    ByProducerPrefix(s.tickets, Scan(s), p);
  }

  /** The scan goes on exactly while the next ticket has been published: it stops
      at the tail or at a ticket that is reserved but not yet marked ready. */
  lemma ScanStopsAtGap<T>(c: Config, n: nat, sched: seq<Move<T>>)
    requires c.Valid() && TimelyRun(c, n, sched)
    requires Run(c, n, sched).consumer.Testing?
    ensures var s := Run(c, n, sched);
      && Scan(s) <= s.tail == |s.tickets|
      && (ConsumerStep(c, s).consumer.Taking? <==>
          Scan(s) < s.tail && s.tickets[Scan(s)].pid < n &&
          s.producers[s.tickets[Scan(s)].pid] != Reserved(s.tickets[Scan(s)].item, Scan(s)) &&
          s.producers[s.tickets[Scan(s)].pid] != Written(s.tickets[Scan(s)].item, Scan(s)))
  {
    RunKeepsInv(c, n, sched);
    var s := Run(c, n, sched);
    if Scan(s) < s.tail {
      assert Holds(c, s, Scan(s));
    } else {
      assert Vacant(c, s, Scan(s));
    }
  }

  // ---- No lost wakeup ----

  /** If the reactor is blocked with a zero eventfd counter and no producer is
      between its compare-exchange and its wakeup, then everything that was ever
      enqueued has been delivered and every slot is free. */
  lemma NoLostWakeup<T>(c: Config, n: nat, sched: seq<Move<T>>)
    requires c.Valid() && TimelyRun(c, n, sched)
    requires var s := Run(c, n, sched);
      s.consumer.Waiting? && s.wakeups == 0 &&
      forall p: nat | p < n ::
        s.producers[p].Idle? || s.producers[p].Calling? || s.producers[p].SawTail? || s.producers[p].SawRoom?
    ensures var s := Run(c, n, sched);
      && s.head == s.tail
      && s.delivered == Items(s.tickets)
      && forall i | 0 <= i < c.Cap() :: s.slots[i] == Slot(false, None)
  {
    RunKeepsInv(c, n, sched);
    var s := Run(c, n, sched);
    assert s.tickets[..s.tail] == s.tickets;
    forall i: nat | i < c.Cap() ensures s.slots[i] == Slot(false, None) {
      var t := TicketOfSlot(c, s.tail, i);
      assert Vacant(c, s, t);
    }
  }

  /** Every slot is selected by some ticket in any window of one capacity. */
  lemma TicketOfSlot(c: Config, lo: nat, i: nat) returns (t: nat)
    requires c.Valid() && i < c.Cap()
    ensures lo <= t < lo + c.Cap() && Index(c, t) == i
  {
    t := NextCongruent(lo, c.Cap(), i);
    IndexIsRemainder(c, t);
  }

  lemma NextCongruent(lo: nat, m: nat, i: nat) returns (t: nat)
    requires i < m
    ensures lo <= t < lo + m && t % m == i
  {
    var q, r := lo / m, lo % m;
    assert lo == q * m + r;
    t := if i >= r then q * m + i else (q + 1) * m + i;
    assert (q + 1) * m == q * m + m;
    RemainderUnique(t, m, if i >= r then q else q + 1, i);
  }

  // ---- The scan ends ----

  predicate InScan<T>(s: State<T>)
  {
    s.consumer.Loading? || s.consumer.Testing? || s.consumer.Taking? || s.consumer.Clearing?
    || s.consumer.Publishing?
  }

  /** How many more steps `dequeueAll` can take, whatever the producers do. */
  function StepsLeft<T>(c: Config, s: State<T>): int
  {
    match s.consumer
    case Loading => 3 * c.Cap() + 3
    case Testing(start, h, _) => 3 * (start + c.Cap() - h) + 2
    case Taking(start, h, _) => 3 * (start + c.Cap() - h) + 1
    case Clearing(start, h, _, _) => 3 * (start + c.Cap() - h)
    case Publishing(_, _, _) => 1
    case _ => 0
  }

  function CountConsumes<T>(ms: seq<Move<T>>): nat
  {
    if ms == [] then 0
    else CountConsumes(ms[..|ms| - 1]) + if ms[|ms| - 1].Consume? then 1 else 0
  }

  lemma RunExtends<T>(c: Config, n: nat, sched: seq<Move<T>>, m: Move<T>)
    requires c.Valid()
    ensures Run(c, n, sched + [m]) == Step(c, Run(c, n, sched), m)
    ensures TimelyRun(c, n, sched + [m]) <==>
            TimelyRun(c, n, sched) && Timely(c, Run(c, n, sched), m)
  {
    assert (sched + [m])[..|sched + [m]| - 1] == sched;
  }

  lemma MoveSpendsBudget<T>(c: Config, s: State<T>, m: Move<T>)
    requires Inv(c, s) && InScan(s)
    ensures StepsLeft(c, Step(c, s, m)) + (if m.Consume? then 1 else 0) <= StepsLeft(c, s)
  {
    if s.consumer.Taking? || s.consumer.Clearing? {
      assert Scan(s) < s.tail;
    }
  }

  lemma {:induction false} ScanBudget<T>(c: Config, n: nat, sched: seq<Move<T>>, more: seq<Move<T>>)
    requires c.Valid() && TimelyRun(c, n, sched + more)
    requires forall k | 0 <= k <= |more| :: InScan(Run(c, n, sched + more[..k]))
    ensures TimelyRun(c, n, sched)
    ensures StepsLeft(c, Run(c, n, sched + more)) + CountConsumes(more) <= StepsLeft(c, Run(c, n, sched))
    decreases |more|
  {
    if more == [] {
      assert sched + more == sched;
    } else {
      var front, m := more[..|more| - 1], more[|more| - 1];
      assert sched + more == sched + front + [m];
      RunExtends(c, n, sched + front, m);
      assert InScan(Run(c, n, sched + front));
      forall k | 0 <= k <= |front| ensures InScan(Run(c, n, sched + front[..k])) {
        assert front[..k] == more[..k];
      }
      ScanBudget(c, n, sched, front);
      RunKeepsInv(c, n, sched + front);
      MoveSpendsBudget(c, Run(c, n, sched + front), m);
    }
  }

  /** One call of `dequeueAll` takes at most `3 * capacity + 3` steps and returns at
      most `capacity` items, even while producers keep enqueuing all along. */
  lemma ScanTerminates<T>(c: Config, n: nat, sched: seq<Move<T>>, more: seq<Move<T>>)
    requires c.Valid() && TimelyRun(c, n, sched + more)
    requires forall k | 0 <= k <= |more| :: InScan(Run(c, n, sched + more[..k]))
    ensures CountConsumes(more) <= 3 * c.Cap() + 3
    ensures |Batch(Run(c, n, sched + more))| <= c.Cap()
  {
    ScanBudget(c, n, sched, more);
    RunKeepsInv(c, n, sched);
    RunKeepsInv(c, n, sched + more);
    assert sched + more[..0] == sched;
    assert sched + more[..|more|] == sched + more;
    assert InScan(Run(c, n, sched + more[..|more|]));
  }

  // ---- Timeliness ----

  lemma {:induction false} TailCountsMoves<T>(c: Config, n: nat, sched: seq<Move<T>>)
    requires c.Valid()
    ensures Run(c, n, sched).tail <= |sched|
    decreases |sched|
  {
    if sched != [] { TailCountsMoves(c, n, sched[..|sched| - 1]); }
  }

  /** Any run of fewer atomic steps than the word has values is timely, so
      everything above holds of it without further condition. */
  lemma {:induction false} ShortRunsAreTimely<T>(c: Config, n: nat, sched: seq<Move<T>>)
    requires c.Valid() && |sched| <= c.Word()
    ensures TimelyRun(c, n, sched)
    decreases |sched|
  {
    if sched != [] {
      ShortRunsAreTimely(c, n, sched[..|sched| - 1]);
      TailCountsMoves(c, n, sched[..|sched| - 1]);
    }
  }

  /** A compare-exchange that matches although the counter has turned over since
      its tail was loaded keeps the queue intact exactly when the queue happens
      not to be full. */
  lemma StaleMatchBreaksFullQueue<T>(c: Config, s: State<T>, p: nat, item: T)
    requires Inv(c, s) && p < |s.producers| && s.producers[p].SawRoom?
    requires TailMatches(c, s, s.producers[p].tail) && s.producers[p].tail != s.tail
    ensures Inv(c, ProducerStep(c, s, p, item, false)) <==> s.tail < s.head + c.Cap()
  {
    if s.tail < s.head + c.Cap() {
      ReservationKeepsInv(c, s, p, item);
    }
  }

  // ---- Refusal ----

  /** `enqueue` returns false exactly when, at the load of head, the queue is full at
      the tail it saw, or the consumer has passed that tail by a distance that, on the
      word, is at most a word less a capacity (as it is for any distance that short). */
  ghost predicate RefusedExactly<T>(c: Config, s: State<T>, p: nat, item: T)
    requires Shaped(c, s) && p < |s.producers| && s.producers[p].SawTail?
  {
    var saw := s.producers[p].tail;
    ProducerStep(c, s, p, item, false).producers[p].Idle? <==>
    (saw == s.tail == s.head + c.Cap() ||
     (saw < s.head && 1 <= (s.head - saw) % c.Word() <= c.Word() - c.Cap()))
  }

  lemma RefusedIffFullOrOvertaken<T>(c: Config, n: nat, sched: seq<Move<T>>, p: nat, item: T)
    requires c.Valid() && TimelyRun(c, n, sched) && p < n
    requires Run(c, n, sched).producers[p].SawTail?
    ensures RefusedExactly(c, Run(c, n, sched), p, item)
  {
    RunKeepsInv(c, n, sched);
    RefusedInState(c, Run(c, n, sched), p, item);
  }

  lemma RefusedInState<T>(c: Config, s: State<T>, p: nat, item: T)
    requires Inv(c, s) && p < |s.producers| && s.producers[p].SawTail?
    ensures RefusedExactly(c, s, p, item)
  {
    assert ProducerOk(c, s, p);
    RefusalOnWords(c, s.head, s.tail, s.producers[p].tail);
  }

  lemma RefusalOnWords(c: Config, head: nat, tail: nat, saw: nat)
    requires c.Valid() && saw <= tail <= head + c.Cap()
    ensures WrapSub(saw, head, c.Word()) >= c.Cap() <==>
            (saw == tail == head + c.Cap() ||
             (saw < head && 1 <= (head - saw) % c.Word() <= c.Word() - c.Cap()))
  {
    CapBelowWord(c);
    if saw < head {
      WrapSubBehind(saw, head, c.Word());
    } else {
      WrapSubExact(saw, head, c.Word());
    }
  }

  // ---- Runs worth writing out ----

  /** Extends a run by one move. */
  lemma Go<T>(c: Config, n: nat, sched: seq<Move<T>>, s: State<T>, m: Move<T>)
    returns (sched': seq<Move<T>>, s': State<T>)
    requires c.Valid() && Run(c, n, sched) == s && Shaped(c, s)
    ensures sched' == sched + [m] && Shaped(c, s')
    ensures Run(c, n, sched') == s' == Step(c, s, m)
    ensures TimelyRun(c, n, sched) && Timely(c, s, m) ==> TimelyRun(c, n, sched')
  {
    RunExtends(c, n, sched, m);
    sched', s' := sched + [m], Step(c, s, m);
  }

  /** An idle producer's call up to its compare-exchange, uninterrupted. */
  lemma GoReserve(c: Config, n: nat, sched: seq<Move<int>>, s: State<int>, p: nat, x: int)
    returns (sched': seq<Move<int>>, s': State<int>)
    requires c.Valid() && Run(c, n, sched) == s && Shaped(c, s) && TimelyRun(c, n, sched)
    requires p < |s.producers| && s.producers[p].Idle? && !Refuses(c, s, s.tail)
    ensures Shaped(c, s') && Run(c, n, sched') == s' && TimelyRun(c, n, sched')
    ensures s' == s.(tail := s.tail + 1,
                     producers := s.producers[p := Reserved(x, s.tail)],
                     tickets := s.tickets + [Ticket(p, x)],
                     logs := s.logs[p := s.logs[p].(calls := s.logs[p].calls + [x])])
  {
    var m := Produce(p, x, false);
    sched', s' := Go(c, n, sched, s, m);
    sched', s' := Go(c, n, sched', s', m);
    assert s'.producers[p] == SawTail(x, s.tail);
    sched', s' := Go(c, n, sched', s', m);
    assert s'.producers[p] == SawRoom(x, s.tail);
    sched', s' := Go(c, n, sched', s', m);
  }

  /** An uninterrupted `enqueue` with its wakeup by an idle producer. */
  lemma GoEnqueue(c: Config, n: nat, sched: seq<Move<int>>, s: State<int>, p: nat, x: int)
    returns (sched': seq<Move<int>>, s': State<int>)
    requires c.Valid() && Run(c, n, sched) == s && Shaped(c, s) && TimelyRun(c, n, sched)
    requires p < |s.producers| && s.producers[p].Idle? && !Refuses(c, s, s.tail)
    ensures Shaped(c, s') && Run(c, n, sched') == s' && TimelyRun(c, n, sched')
    ensures s' == s.(tail := s.tail + 1, wakeups := Bump(s.wakeups),
                     slots := s.slots[Index(c, s.tail) := Slot(true, Some(x))],
                     tickets := s.tickets + [Ticket(p, x)],
                     logs := s.logs[p := s.logs[p].(calls := s.logs[p].calls + [x])])
  {
    sched', s' := GoReserve(c, n, sched, s, p, x);
    sched', s' := GoPublish(c, n, sched', s', p, x);
    assert s'.producers == s.producers;
  }

  /** The rest of a call once its ticket is reserved. */
  lemma GoPublish(c: Config, n: nat, sched: seq<Move<int>>, s: State<int>, p: nat, x: int)
    returns (sched': seq<Move<int>>, s': State<int>)
    requires c.Valid() && Run(c, n, sched) == s && Shaped(c, s) && TimelyRun(c, n, sched)
    requires p < |s.producers| && s.producers[p].Reserved? && s.producers[p].item == x
    ensures Shaped(c, s') && Run(c, n, sched') == s' && TimelyRun(c, n, sched')
    ensures s' == s.(wakeups := Bump(s.wakeups), producers := s.producers[p := Idle],
                     slots := s.slots[Index(c, s.producers[p].ticket) := Slot(true, Some(x))])
  {
    var m := Produce(p, x, false);
    FillsSlot(c, s, p, x);
    sched', s' := Go(c, n, sched, s, m);
    sched', s' := Go(c, n, sched', s', m);
    sched', s' := Go(c, n, sched', s', m);
  }

  lemma FillsSlot<T>(c: Config, s: State<T>, p: nat, x: T)
    requires Shaped(c, s) && p < |s.producers| && s.producers[p].Reserved? && s.producers[p].item == x
    ensures var t := s.producers[p].ticket;
      ProducerStep(c, ProducerStep(c, s, p, x, false), p, x, false) ==
      s.(slots := s.slots[Index(c, t) := Slot(true, Some(x))], producers := s.producers[p := Published(x, t)])
  {
  }

  /** The reactor wakes up, drains the eventfd and starts to scan. */
  lemma GoScan(c: Config, n: nat, sched: seq<Move<int>>, s: State<int>)
    returns (sched': seq<Move<int>>, s': State<int>)
    requires c.Valid() && Run(c, n, sched) == s && Shaped(c, s) && TimelyRun(c, n, sched)
    requires s.consumer.Waiting? && s.wakeups > 0
    ensures Shaped(c, s') && Run(c, n, sched') == s' && TimelyRun(c, n, sched')
    ensures s' == s.(wakeups := 0, consumer := Testing(s.head, s.head, []))
  {
    sched', s' := Go(c, n, sched, s, Consume);
    sched', s' := Go(c, n, sched', s', Consume);
    sched', s' := Go(c, n, sched', s', Consume);
    sched', s' := Go(c, n, sched', s', Consume);
  }

  /** ... and takes the one item in front. */
  lemma GoDequeue(c: Config, n: nat, sched: seq<Move<int>>, s: State<int>, x: int)
    returns (sched': seq<Move<int>>, s': State<int>)
    requires c.Valid() && Run(c, n, sched) == s && Shaped(c, s) && TimelyRun(c, n, sched)
    requires s.consumer.Waiting? && s.wakeups > 0
    requires s.slots[Index(c, s.head)] == Slot(true, Some(x))
    requires c.Cap() == 1 || !s.slots[Index(c, s.head + 1)].ready
    ensures Shaped(c, s') && Run(c, n, sched') == s' && TimelyRun(c, n, sched')
    ensures s' == s.(head := s.head + 1, wakeups := 0,
                     slots := s.slots[Index(c, s.head) := Slot(false, None)],
                     delivered := s.delivered + [Some(x)])
  {
    sched', s' := GoScan(c, n, sched, s);
    sched', s' := GoTake(c, n, sched', s', x);
    if c.Cap() == 1 {
      assert Index(c, s.head + 1) == 0 == Index(c, s.head);
    }
    sched', s' := GoFinish(c, n, sched', s');
  }

  /** The scan meets a slot that is not ready and publishes its head. */
  lemma GoFinish(c: Config, n: nat, sched: seq<Move<int>>, s: State<int>)
    returns (sched': seq<Move<int>>, s': State<int>)
    requires c.Valid() && Run(c, n, sched) == s && Shaped(c, s) && TimelyRun(c, n, sched)
    requires s.consumer.Testing? && s.consumer.start == s.head
    requires !s.slots[Index(c, s.consumer.head)].ready
    ensures Shaped(c, s') && Run(c, n, sched') == s' && TimelyRun(c, n, sched')
    ensures s' == s.(head := s.consumer.head, delivered := s.delivered + s.consumer.out, consumer := Waiting)
  {
    sched', s' := Go(c, n, sched, s, Consume);
    sched', s' := Go(c, n, sched', s', Consume);
  }

  lemma GoTake(c: Config, n: nat, sched: seq<Move<int>>, s: State<int>, x: int)
    returns (sched': seq<Move<int>>, s': State<int>)
    requires c.Valid() && Run(c, n, sched) == s && Shaped(c, s) && TimelyRun(c, n, sched)
    requires s.consumer == Testing(s.head, s.head, []) && s.slots[Index(c, s.head)] == Slot(true, Some(x))
    ensures Shaped(c, s') && Run(c, n, sched') == s' && TimelyRun(c, n, sched')
    ensures s' == s.(slots := s.slots[Index(c, s.head) := Slot(false, None)],
                     consumer := Testing(s.head, s.head + 1, [Some(x)]))
  {
    sched', s' := Go(c, n, sched, s, Consume);
    assert s'.consumer == Taking(s.head, s.head, []);
    sched', s' := Go(c, n, sched', s', Consume);
    sched', s' := Go(c, n, sched', s', Consume);
    assert s'.slots == s.slots[Index(c, s.head) := Slot(false, None)];
    assert [] + [Some(x)] == [Some(x)];
    assert s'.consumer == Testing(s.head, s.head + 1, [Some(x)]);
  }

  /** "False" does not mean "full": in every configuration some run ends with a
      producer about to be refused by an empty queue, because another producer's
      item went through between its two loads. */
  lemma RefusedWhileEmpty(c: Config) returns (sched: seq<Move<int>>)
    requires c.Valid()
    ensures TimelyRun(c, 2, sched)
    ensures var s := Run(c, 2, sched);
      && s.head == s.tail && s.consumer.Waiting? && s.producers[1].Idle?
      && s.producers[0].SawTail?
      && ProducerStep(c, s, 0, 0, false).producers[0].Idle?
  {
    sched := [];
    var s := Init<int>(c, 2);
    CapBelowWord(c);
    WrapSubExact(0, 0, c.Word());
    WrapSubExact(0, 1, c.Word());
    sched, s := Go(c, 2, sched, s, Produce(0, 7, false));
    sched, s := Go(c, 2, sched, s, Produce(0, 7, false));
    assert s.producers == [SawTail(7, 0), Idle];
    sched, s := GoEnqueue(c, 2, sched, s, 1, 8);
    if c.Cap() > 1 { IndexDiffers(c, 0, 1); }
    sched, s := GoDequeue(c, 2, sched, s, 8);
    assert Refuses(c, s, 0);
  }

  /** A queue that nobody but a producer parked before its compare-exchange and an idle
      one use, empty after `k` items. */
  ghost predicate Parked(c: Config, s: State<int>, k: nat)
  {
    && Shaped(c, s) && s.head == s.tail == k && s.consumer.Waiting?
    && s.producers == [SawRoom(7, 0), Idle]
    && forall i | 0 <= i < c.Cap() :: s.slots[i] == Slot(false, None)
  }

  lemma GoParked(c: Config) returns (sched: seq<Move<int>>, s: State<int>)
    requires c.Valid()
    ensures Run(c, 2, sched) == s && TimelyRun(c, 2, sched) && Parked(c, s, 0)
  {
    sched, s := [], Init<int>(c, 2);
    CapBelowWord(c);
    WrapSubExact(0, 0, c.Word());
    sched, s := Go(c, 2, sched, s, Produce(0, 7, false));
    sched, s := Go(c, 2, sched, s, Produce(0, 7, false));
    sched, s := Go(c, 2, sched, s, Produce(0, 7, false));
  }

  /** One more item goes through. */
  lemma GoAround(c: Config, sched: seq<Move<int>>, s: State<int>, k: nat)
    returns (sched': seq<Move<int>>, s': State<int>)
    requires c.Valid() && Run(c, 2, sched) == s && TimelyRun(c, 2, sched) && Parked(c, s, k)
    ensures Run(c, 2, sched') == s' && TimelyRun(c, 2, sched') && Parked(c, s', k + 1)
  {
    CapBelowWord(c);
    WrapSubExact(k, k, c.Word());
    sched', s' := GoEnqueue(c, 2, sched, s, 1, 8);
    if c.Cap() > 1 { IndexDiffers(c, k, k + 1); }
    sched', s' := GoDequeue(c, 2, sched', s', 8);
  }

  lemma {:induction false} GoFarAround(c: Config, k: nat) returns (sched: seq<Move<int>>, s: State<int>)
    requires c.Valid()
    ensures Run(c, 2, sched) == s && TimelyRun(c, 2, sched) && Parked(c, s, k)
  {
    if k == 0 {
      sched, s := GoParked(c);
    } else {
      sched, s := GoFarAround(c, k - 1);
      sched, s := GoAround(c, sched, s, k - 1);
    }
  }

  /** The idle producer fills the queue. */
  lemma {:induction false} GoFill(c: Config, k: nat, j: nat) returns (sched: seq<Move<int>>, s: State<int>)
    requires c.Valid() && j <= c.Cap()
    ensures Run(c, 2, sched) == s && TimelyRun(c, 2, sched) && Shaped(c, s)
    ensures s.head == k && s.tail == k + j && s.producers == [SawRoom(7, 0), Idle]
    decreases j
  {
    if j == 0 {
      sched, s := GoFarAround(c, k);
    } else {
      sched, s := GoFill(c, k, j - 1);
      CapBelowWord(c);
      WrapSubExact(k + j - 1, k, c.Word());
      sched, s := GoEnqueue(c, 2, sched, s, 1, 9);
    }
  }

  /** Timeliness cannot be dropped, whatever the capacity and the word: a producer sleeps
      through a whole turn of the counter between its loads and its compare-exchange,
      which then succeeds on a full queue. */
  lemma TurnoverOverfills(c: Config) returns (sched: seq<Move<int>>)
    requires c.Valid()
    ensures !TimelyRun(c, 2, sched)
    ensures Run(c, 2, sched).tail > Run(c, 2, sched).head + c.Cap()
  {
    CapBelowWord(c);
    var s;
    sched, s := GoFill(c, c.Word() - c.Cap(), c.Cap());
    assert s.tail == c.Word() && TailMatches(c, s, 0);
    RunExtends(c, 2, sched, Produce(0, 7, false));
    sched, s := Go(c, 2, sched, s, Produce(0, 7, false));
  }
}
