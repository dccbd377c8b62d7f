/** The lock-free multi-producer single-consumer queue together with the eventfd
    handshake of the reactor that owns it, as interleaved atomic steps.

    Every thread moves one atomic access at a time, in any order chosen by a
    schedule.  Counters are kept as unbounded ticket numbers; each comparison and
    slot index is taken on the machine word, that is modulo `2^wordBits`. */
module MpscQueue {
  import opened Words

  datatype Config = Config(capBits: nat, wordBits: nat) {
    predicate Valid() { capBits < wordBits }
    function Cap(): (r: nat) ensures r > 0 { Pow2(capBits) }
    function Word(): (r: nat) ensures r > 0 { Pow2(wordBits) }
  }

  datatype Slot<T> = Slot(ready: bool, ptr: Option<T>)

  datatype Ticket<T> = Ticket(pid: nat, item: T)

  /** Where a producer stands in `enqueue` followed by `wakeup`. */
  datatype Producer<T> =
    | Idle
    | Calling(item: T)                  // in the retry loop, before the load of tail
    | SawTail(item: T, tail: nat)       // before the load of head
    | SawRoom(item: T, tail: nat)       // before the compare-exchange
    | Reserved(item: T, ticket: nat)    // before the write of the slot pointer
    | Written(item: T, ticket: nat)     // before the slot is marked ready
    | Published(item: T, ticket: nat)   // before the eventfd write

  /** Where the reactor stands in its wakeup branch and `dequeueAll`. */
  datatype Consumer<T> =
    | Waiting                                                   // blocked in epoll_wait
    | Draining                                                  // reading the eventfd
    | Loading                                                   // before the load of head
    | Testing(start: nat, head: nat, out: seq<Option<T>>)               // before the test of ready
    | Taking(start: nat, head: nat, out: seq<Option<T>>)                // before the move out of ptr
    | Clearing(start: nat, head: nat, out: seq<Option<T>>, item: Option<T>)     // before ready is cleared
    | Publishing(start: nat, head: nat, out: seq<Option<T>>)            // before the store of head

  /** What a producer has asked for: all its calls in order, and which were refused. */
  datatype Log<T> = Log(calls: seq<T>, refused: set<int>)

  datatype State<T> = State(
    head: nat,
    tail: nat,
    slots: seq<Slot<T>>,
    wakeups: nat,                  // the eventfd counter
    producers: seq<Producer<T>>,
    consumer: Consumer<T>,
    tickets: seq<Ticket<T>>,       // what each successful compare-exchange reserved, in order
    logs: seq<Log<T>>,             // per producer, written when a call starts or is refused
    delivered: seq<Option<T>>)     // all batches returned so far, concatenated

  /** One scheduling decision: producer `p` moves (`item` matters when it starts a
      call, `weakFail` when its weak compare-exchange may fail spuriously), the
      consumer moves, or some other party writes the eventfd. */
  datatype Move<T> =
    | Produce(p: nat, item: T, weakFail: bool)
    | Consume
    | Poke

  // The largest value an eventfd counter holds; a further write is refused.
  const EVENTFD_MAX := 0xFFFF_FFFF_FFFF_FFFE

  function Bump(count: nat): (r: nat)
    ensures r > 0
  {
    if count < EVENTFD_MAX then count + 1 else count
  }

  /** The slot a counter value selects. */
  function Index(c: Config, t: nat): (r: nat)
    requires c.Valid()
    ensures r < c.Cap()
  {
    MaskIsRemainder(t % c.Word(), c.capBits);
    BitAnd(t % c.Word(), c.Cap() - 1)
  }

  function Init<T>(c: Config, n: nat): State<T>
  {
    State(0, 0, seq(c.Cap(), _ => Slot(false, None)), 0, seq(n, _ => Idle), Waiting, [],
          seq(n, _ => Log([], {})), [])
  }

  predicate Shaped<T>(c: Config, s: State<T>)
  {
    c.Valid() && |s.slots| == c.Cap() && |s.logs| == |s.producers|
  }

  function Step<T>(c: Config, s: State<T>, m: Move<T>): (r: State<T>)
    requires Shaped(c, s)
    ensures Shaped(c, r) && |r.producers| == |s.producers|
  {
    match m
    case Produce(p, item, weakFail) =>
      if p < |s.producers| then ProducerStep(c, s, p, item, weakFail) else s
    case Consume => ConsumerStep(c, s)
    case Poke => s.(wakeups := Bump(s.wakeups))
  }

  predicate Refuses<T>(c: Config, s: State<T>, tail: nat)
  {
    WrapSub(tail, s.head, c.Word()) >= c.Cap()
  }

  /** The compare-exchange compares machine words. */
  predicate TailMatches<T>(c: Config, s: State<T>, tail: nat)
  {
    s.tail % c.Word() == tail % c.Word()
  }

  function ProducerStep<T>(c: Config, s: State<T>, p: nat, item: T, weakFail: bool): (r: State<T>)
    requires Shaped(c, s) && p < |s.producers|
    ensures Shaped(c, r) && |r.producers| == |s.producers|
  {
    match s.producers[p]
    case Idle =>
      s.(producers := s.producers[p := Calling(item)],
         logs := s.logs[p := s.logs[p].(calls := s.logs[p].calls + [item])])
    case Calling(x) => s.(producers := s.producers[p := SawTail(x, s.tail)])
    case SawTail(x, tail) =>
      if Refuses(c, s, tail) then
        s.(producers := s.producers[p := Idle],
           logs := s.logs[p := s.logs[p].(refused := s.logs[p].refused + {|s.logs[p].calls| - 1})])
      else s.(producers := s.producers[p := SawRoom(x, tail)])
    case SawRoom(x, tail) =>
      if !weakFail && TailMatches(c, s, tail) then
        s.(tail := s.tail + 1,
           producers := s.producers[p := Reserved(x, s.tail)],
           tickets := s.tickets + [Ticket(p, x)])
      else
        s.(producers := s.producers[p := Calling(x)])
    case Reserved(x, t) =>
      var i := Index(c, t);
      s.(slots := s.slots[i := s.slots[i].(ptr := Some(x))],
         producers := s.producers[p := Written(x, t)])
    case Written(x, t) =>
      var i := Index(c, t);
      s.(slots := s.slots[i := s.slots[i].(ready := true)],
         producers := s.producers[p := Published(x, t)])
    case Published(_, _) =>
      s.(wakeups := Bump(s.wakeups), producers := s.producers[p := Idle])
  }

  function ConsumerStep<T>(c: Config, s: State<T>): (r: State<T>)
    requires Shaped(c, s)
    ensures Shaped(c, r) && r.producers == s.producers
  {
    match s.consumer
    case Waiting => if s.wakeups > 0 then s.(consumer := Draining) else s
    case Draining => if s.wakeups > 0 then s.(wakeups := 0) else s.(consumer := Loading)
    case Loading => s.(consumer := Testing(s.head, s.head, []))
    case Testing(start, h, out) =>
      s.(consumer := if s.slots[Index(c, h)].ready then Taking(start, h, out)
                     else Publishing(start, h, out))
    case Taking(start, h, out) =>
      var i := Index(c, h);
      s.(slots := s.slots[i := s.slots[i].(ptr := None)],
         consumer := Clearing(start, h, out, s.slots[i].ptr))
    case Clearing(start, h, out, item) =>
      var i := Index(c, h);
      s.(slots := s.slots[i := s.slots[i].(ready := false)],
         consumer := Testing(start, h + 1, out + [item]))
    case Publishing(start, h, out) =>
      s.(head := if h != start then h else s.head,
         delivered := s.delivered + out,
         consumer := Waiting)
  }

  /** The state after a schedule. */
  function Run<T>(c: Config, n: nat, sched: seq<Move<T>>): (r: State<T>)
    requires c.Valid()
    ensures Shaped(c, r) && |r.producers| == n
  {
    if sched == [] then Init(c, n)
    else Step(c, Run(c, n, sched[..|sched| - 1]), sched[|sched| - 1])
  }

  /** No compare-exchange is attempted with a tail value that a whole turn of the
      machine word has gone by since it was loaded. */
  predicate Timely<T>(c: Config, s: State<T>, m: Move<T>)
  {
    m.Produce? && m.p < |s.producers| && s.producers[m.p].SawRoom?
    ==> s.tail < s.producers[m.p].tail + c.Word()
  }

  predicate TimelyRun<T>(c: Config, n: nat, sched: seq<Move<T>>)
    requires c.Valid()
  {
    sched == [] ||
    (var front := sched[..|sched| - 1];
     TimelyRun(c, n, front) && Timely(c, Run(c, n, front), sched[|sched| - 1]))
  }

  // ---- The invariant ----

  /** The consumer's local head: the next ticket it will look at. */
  function Scan<T>(s: State<T>): nat
  {
    match s.consumer
    case Waiting => s.head
    case Draining => s.head
    case Loading => s.head
    case Testing(_, h, _) => h
    case Taking(_, h, _) => h
    case Clearing(_, h, _, _) => h
    case Publishing(_, h, _) => h
  }

  /** The items taken so far by the `dequeueAll` in progress. */
  function Batch<T>(s: State<T>): seq<Option<T>>
  {
    match s.consumer
    case Waiting => []
    case Draining => []
    case Loading => []
    case Testing(_, _, out) => out
    case Taking(_, _, out) => out
    case Clearing(_, _, out, _) => out
    case Publishing(_, _, out) => out
  }

  /** The first ticket whose item is still in its slot or on its way there. */
  function Base<T>(s: State<T>): nat
  {
    if s.consumer.Clearing? then Scan(s) + 1 else Scan(s)
  }

  /** The pointers a run of tickets stands for; none of them is null. */
  function Items<T>(ts: seq<Ticket<T>>): (r: seq<Option<T>>)
    ensures |r| == |ts| && forall i | 0 <= i < |r| :: r[i] == Some(ts[i].item)
  {
    seq(|ts|, i requires 0 <= i < |ts| => Some(ts[i].item))
  }

  ghost predicate Bounds<T>(c: Config, s: State<T>)
  {
    && s.head <= Scan(s) <= Base(s) <= s.tail <= s.head + c.Cap()
    && |s.tickets| == s.tail
    && (s.consumer.Testing? || s.consumer.Taking? || s.consumer.Clearing? || s.consumer.Publishing?
        ==> s.consumer.start == s.head)
  }

  /** What the slot of a live ticket holds, by the progress of the ticket's owner. */
  ghost predicate Holds<T>(c: Config, s: State<T>, t: nat)
    requires Shaped(c, s) && t < |s.tickets|
  {
    && s.tickets[t].pid < |s.producers|
    && var p := s.producers[s.tickets[t].pid];
       var x := s.tickets[t].item;
       s.slots[Index(c, t)] ==
         if p == Reserved(x, t) then Slot(false, None)
         else if p == Written(x, t) then Slot(false, Some(x))
         else Slot(true, Some(x))
  }

  ghost predicate Vacant<T>(c: Config, s: State<T>, t: nat)
    requires Shaped(c, s)
  {
    s.slots[Index(c, t)] == Slot(false, None)
  }

  ghost predicate SlotsOk<T>(c: Config, s: State<T>)
    requires Shaped(c, s) && Bounds(c, s)
  {
    && (forall t: nat | Base(s) <= t < s.tail :: Holds(c, s, t))
    && (forall t: nat | s.tail <= t < Scan(s) + c.Cap() :: Vacant(c, s, t))
    && (s.consumer.Taking? ==> s.slots[Index(c, Scan(s))].ready && Scan(s) < s.tail)
    && (s.consumer.Clearing? ==>
          s.slots[Index(c, Scan(s))] == Slot(true, None) &&
          s.consumer.item == Some(s.tickets[Scan(s)].item))
  }

  ghost predicate ProducerOk<T>(c: Config, s: State<T>, p: nat)
    requires Shaped(c, s) && p < |s.producers| && |s.tickets| == s.tail
  {
    match s.producers[p]
    case Idle => true
    case Calling(_) => true
    case SawTail(_, tail) => tail <= s.tail
    case SawRoom(_, tail) => tail <= s.tail && (tail == s.tail ==> s.tail < s.head + c.Cap())
    case Reserved(x, t) => Base(s) <= t < s.tail && s.tickets[t] == Ticket(p, x)
    case Written(x, t) => Base(s) <= t < s.tail && s.tickets[t] == Ticket(p, x)
    case Published(x, t) => t < s.tail && s.tickets[t] == Ticket(p, x)
  }

  ghost predicate ProducersOk<T>(c: Config, s: State<T>)
    requires Shaped(c, s) && |s.tickets| == s.tail
  {
    forall p: nat | p < |s.producers| :: ProducerOk(c, s, p)
  }

  /** The owner of ticket `t` has not written the eventfd for it yet. */
  ghost predicate OwesWakeup<T>(s: State<T>, t: nat)
    requires t < |s.tickets|
  {
    && s.tickets[t].pid < |s.producers|
    && var p := s.producers[s.tickets[t].pid];
       (p.Reserved? || p.Written? || p.Published?) && p.ticket == t
  }

  /** Whoever is about to block with an item in front has a wakeup coming. */
  ghost predicate WakeOk<T>(s: State<T>)
    requires |s.tickets| == s.tail
  {
    (s.consumer.Waiting? || s.consumer.Publishing?) && Scan(s) < s.tail
    ==> s.wakeups > 0 || OwesWakeup(s, Scan(s))
  }

  ghost predicate DeliveryOk<T>(s: State<T>)
    requires s.head <= Scan(s) <= |s.tickets|
  {
    && s.delivered == Items(s.tickets[..s.head])
    && Batch(s) == Items(s.tickets[s.head..Scan(s)])
  }

  ghost predicate Inv<T>(c: Config, s: State<T>)
  {
    Shaped(c, s) && Bounds(c, s) && SlotsOk(c, s) && ProducersOk(c, s) && WakeOk(s) && DeliveryOk(s)
  }

  // ---- Slot arithmetic ----

  lemma IndexIsRemainder(c: Config, t: nat)
    requires c.Valid()
    ensures Index(c, t) == t % c.Cap()
  {
    MaskIsRemainder(t % c.Word(), c.capBits);
    Pow2Divides(c.capBits, c.wordBits);
    RemainderOfRemainder(t, c.Cap(), Pow2(c.wordBits - c.capBits), c.Word());
  }

  /** Tickets less than one capacity apart never share a slot. */
  lemma IndexDiffers(c: Config, a: nat, b: nat)
    requires c.Valid() && a < b < a + c.Cap()
    ensures Index(c, a) != Index(c, b)
  {
    IndexIsRemainder(c, a);
    IndexIsRemainder(c, b);
    RemaindersDiffer(a, b, c.Cap());
  }

  lemma IndexDiffersAround(c: Config, t: nat, lo: nat)
    requires c.Valid() && lo <= t < lo + c.Cap()
    ensures forall u: nat | lo <= u < lo + c.Cap() && u != t :: Index(c, u) != Index(c, t)
  {
    forall u: nat | lo <= u < lo + c.Cap() && u != t ensures Index(c, u) != Index(c, t) {
      if u < t { IndexDiffers(c, u, t); } else { IndexDiffers(c, t, u); }
    }
  }

  lemma CapBelowWord(c: Config)
    requires c.Valid()
    ensures 2 * c.Cap() <= c.Word()
  {
    Pow2Divides(c.capBits, c.wordBits);
    assert Pow2(c.wordBits - c.capBits) >= 2;
    assert c.Word() == Pow2(c.wordBits - c.capBits) * c.Cap();
    NonzeroMultiple(Pow2(c.wordBits - c.capBits) - 1, c.Cap());
  }

  // ---- Preservation, one kind of step at a time ----

  lemma InvDelivers<T>(c: Config, s: State<T>)
    requires Inv(c, s)
    ensures s.delivered + Batch(s) == Items(s.tickets[..Scan(s)])
  {
    ItemsAppend(s.tickets[..s.head], s.tickets[s.head..Scan(s)]);
    assert s.tickets[..s.head] + s.tickets[s.head..Scan(s)] == s.tickets[..Scan(s)];
  }

  lemma ItemsAppend<T>(a: seq<Ticket<T>>, b: seq<Ticket<T>>)
    ensures Items(a + b) == Items(a) + Items(b)
  {
  }

  lemma InitInv<T>(c: Config, n: nat)
    requires c.Valid()
    ensures Inv(c, Init<T>(c, n))
  {
  }

  /** Neither before its slot is written nor before it is marked ready. */
  predicate NotFilling<T>(p: Producer<T>) { !p.Reserved? && !p.Written? }

  /** Steps that touch no slot, no ticket and no producer in the middle of filling one
      leave every slot explained as before. */
  lemma FrameSlots<T>(c: Config, s: State<T>, r: State<T>)
    requires Inv(c, s) && Shaped(c, r) && r.slots == s.slots && r.tail == s.tail && r.tickets == s.tickets
    requires Scan(r) == Scan(s) && Base(r) == Base(s) && |r.producers| == |s.producers|
    requires forall q | 0 <= q < |s.producers| ::
               r.producers[q] == s.producers[q] || (NotFilling(r.producers[q]) && NotFilling(s.producers[q]))
    ensures forall t: nat | Base(r) <= t < r.tail :: Holds(c, r, t)
    ensures forall t: nat | r.tail <= t < Scan(r) + c.Cap() :: Vacant(c, r, t)
  {
    forall t: nat | Base(r) <= t < r.tail ensures Holds(c, r, t) { assert Holds(c, s, t); }
    forall t: nat | r.tail <= t < Scan(r) + c.Cap() ensures Vacant(c, r, t) { assert Vacant(c, s, t); }
  }

  /** Steps of a producer that touch neither the slots nor the tail. */
  lemma LoadKeepsInv<T>(c: Config, s: State<T>, p: nat, item: T, weakFail: bool)
    requires Inv(c, s) && p < |s.producers|
    requires s.producers[p].Idle? || s.producers[p].Calling? || s.producers[p].SawTail?
             || s.producers[p].Published?
    ensures Inv(c, ProducerStep(c, s, p, item, weakFail))
  {
    var r := ProducerStep(c, s, p, item, weakFail);
    if s.producers[p].SawTail? && !Refuses(c, s, s.producers[p].tail) && s.producers[p].tail == s.tail {
      CapBelowWord(c);
      WrapSubExact(s.tail, s.head, c.Word());
    }
    FrameSlots(c, s, r);
    forall q: nat | q < |r.producers| ensures ProducerOk(c, r, q) { assert ProducerOk(c, s, q); }
  }

  /** A reservation in a queue that is not full. */
  lemma ReservationKeepsInv<T>(c: Config, s: State<T>, p: nat, item: T)
    requires Inv(c, s) && p < |s.producers| && s.producers[p].SawRoom?
    requires TailMatches(c, s, s.producers[p].tail) && s.tail < s.head + c.Cap()
    ensures Inv(c, ProducerStep(c, s, p, item, false))
  {
    var r := ProducerStep(c, s, p, item, false);
    forall t: nat | Base(r) <= t < r.tail ensures Holds(c, r, t) {
      if t < s.tail {
        assert Holds(c, s, t);
      } else {
        assert Vacant(c, s, t);
      }
    }
    forall t: nat | r.tail <= t < Scan(r) + c.Cap() ensures Vacant(c, r, t) {
      assert Vacant(c, s, t);
    }
    forall q: nat | q < |r.producers| ensures ProducerOk(c, r, q) { assert ProducerOk(c, s, q); }
    assert r.tickets[..r.head] == s.tickets[..s.head];
    assert r.tickets[r.head..Scan(r)] == s.tickets[s.head..Scan(s)];
  }

  /** A compare-exchange, successful or not, on a timely tail value. */
  lemma CasKeepsInv<T>(c: Config, s: State<T>, p: nat, item: T, weakFail: bool)
    requires Inv(c, s) && p < |s.producers| && s.producers[p].SawRoom?
    requires Timely(c, s, Produce(p, item, weakFail))
    ensures Inv(c, ProducerStep(c, s, p, item, weakFail))
  {
    assert ProducerOk(c, s, p);
    var tail := s.producers[p].tail;
    if TailMatches(c, s, tail) && !weakFail {
      if tail != s.tail { RemaindersDiffer(tail, s.tail, c.Word()); }
      ReservationKeepsInv(c, s, p, item);
    } else {
      var r := ProducerStep(c, s, p, item, weakFail);
      FrameSlots(c, s, r);
      forall q: nat | q < |r.producers| ensures ProducerOk(c, r, q) { assert ProducerOk(c, s, q); }
    }
  }

  /** The write of a slot pointer and the store that marks the slot ready. */
  lemma FillKeepsInv<T>(c: Config, s: State<T>, p: nat, item: T, weakFail: bool)
    requires Inv(c, s) && p < |s.producers|
    requires s.producers[p].Reserved? || s.producers[p].Written?
    ensures Inv(c, ProducerStep(c, s, p, item, weakFail))
  {
    FillKeepsSlots(c, s, p, item, weakFail);
    var r := ProducerStep(c, s, p, item, weakFail);
    forall q: nat | q < |r.producers| ensures ProducerOk(c, r, q) { assert ProducerOk(c, s, q); }
  }

  lemma FillKeepsSlots<T>(c: Config, s: State<T>, p: nat, item: T, weakFail: bool)
    requires Inv(c, s) && p < |s.producers|
    requires s.producers[p].Reserved? || s.producers[p].Written?
    ensures Bounds(c, ProducerStep(c, s, p, item, weakFail)) && SlotsOk(c, ProducerStep(c, s, p, item, weakFail))
  {
    var r := ProducerStep(c, s, p, item, weakFail);
    var t0 := s.producers[p].ticket;
    assert ProducerOk(c, s, p);
    assert Holds(c, s, t0);
    IndexDiffersAround(c, t0, Scan(s));
    forall t: nat | Base(r) <= t < r.tail ensures Holds(c, r, t) {
      assert Holds(c, s, t);
    }
    forall t: nat | r.tail <= t < Scan(r) + c.Cap() ensures Vacant(c, r, t) {
      assert Vacant(c, s, t);
    }
  }

  lemma ProducerKeepsInv<T>(c: Config, s: State<T>, p: nat, item: T, weakFail: bool)
    requires Inv(c, s) && p < |s.producers|
    requires Timely(c, s, Produce(p, item, weakFail))
    ensures Inv(c, ProducerStep(c, s, p, item, weakFail))
  {
    match s.producers[p] {
      case SawRoom(_, _) => CasKeepsInv(c, s, p, item, weakFail);
      case Reserved(_, _) => FillKeepsInv(c, s, p, item, weakFail);
      case Written(_, _) => FillKeepsInv(c, s, p, item, weakFail);
      case _ => LoadKeepsInv(c, s, p, item, weakFail);
    }
  }

  /** Consumer steps that leave every slot and the scan position alone. */
  lemma IdleKeepsInv<T>(c: Config, s: State<T>)
    requires Inv(c, s)
    requires s.consumer.Waiting? || s.consumer.Draining? || s.consumer.Loading?
    ensures Inv(c, ConsumerStep(c, s))
  {
    var r := ConsumerStep(c, s);
    FrameSlots(c, s, r);
    forall q: nat | q < |r.producers| ensures ProducerOk(c, r, q) { assert ProducerOk(c, s, q); }
  }

  /** The test of a slot's ready flag. */
  lemma TestKeepsInv<T>(c: Config, s: State<T>)
    requires Inv(c, s) && s.consumer.Testing?
    ensures Inv(c, ConsumerStep(c, s))
  {
    var r := ConsumerStep(c, s);
    if Scan(s) < s.tail {
      assert Holds(c, s, Scan(s));
    } else {
      assert Vacant(c, s, Scan(s));
    }
    FrameSlots(c, s, r);
    forall q: nat | q < |r.producers| ensures ProducerOk(c, r, q) { assert ProducerOk(c, s, q); }
  }

  /** The store of head, which ends a batch. */
  lemma PublishKeepsInv<T>(c: Config, s: State<T>)
    requires Inv(c, s) && s.consumer.Publishing?
    ensures Inv(c, ConsumerStep(c, s))
  {
    var r := ConsumerStep(c, s);
    InvDelivers(c, s);
    FrameSlots(c, s, r);
    forall q: nat | q < |r.producers| ensures ProducerOk(c, r, q) { assert ProducerOk(c, s, q); }
  }

  /** Moving the pointer out of a ready slot. */
  lemma TakeKeepsInv<T>(c: Config, s: State<T>)
    requires Inv(c, s) && s.consumer.Taking?
    ensures Inv(c, ConsumerStep(c, s))
  {
    var r := ConsumerStep(c, s);
    var h := Scan(s);
    assert Holds(c, s, h);
    IndexDiffersAround(c, h, h);
    forall t: nat | Base(r) <= t < r.tail ensures Holds(c, r, t) {
      assert Holds(c, s, t);
    }
    forall t: nat | r.tail <= t < Scan(r) + c.Cap() ensures Vacant(c, r, t) {
      assert Vacant(c, s, t);
    }
    forall q: nat | q < |r.producers| ensures ProducerOk(c, r, q) { assert ProducerOk(c, s, q); }
  }

  /** A ticket and the one a capacity later share a slot. */
  lemma IndexRepeats(c: Config, t: nat)
    requires c.Valid()
    ensures Index(c, t + c.Cap()) == Index(c, t)
  {
    IndexIsRemainder(c, t);
    IndexIsRemainder(c, t + c.Cap());
    RemainderRepeats(t, c.Cap());
  }

  lemma ClearKeepsSlots<T>(c: Config, s: State<T>)
    requires Inv(c, s) && s.consumer.Clearing?
    ensures Bounds(c, ConsumerStep(c, s)) && SlotsOk(c, ConsumerStep(c, s))
  {
    var r := ConsumerStep(c, s);
    var h := Scan(s);
    IndexDiffersAround(c, h, h);
    IndexRepeats(c, h);
    forall t: nat | Base(r) <= t < r.tail ensures Holds(c, r, t) {
      assert Holds(c, s, t);
    }
    forall t: nat | r.tail <= t < Scan(r) + c.Cap() ensures Vacant(c, r, t) {
      if t < h + c.Cap() { assert Vacant(c, s, t); }
    }
  }

  /** Clearing the ready flag, which hands the slot back. */
  lemma ClearKeepsInv<T>(c: Config, s: State<T>)
    requires Inv(c, s) && s.consumer.Clearing?
    ensures Inv(c, ConsumerStep(c, s))
  {
    var r := ConsumerStep(c, s);
    var h := Scan(s);
    ClearKeepsSlots(c, s);
    forall q: nat | q < |r.producers| ensures ProducerOk(c, r, q) { assert ProducerOk(c, s, q); }
    assert s.tickets[s.head..h + 1] == s.tickets[s.head..h] + [s.tickets[h]];
  }

  lemma ConsumerKeepsInv<T>(c: Config, s: State<T>)
    requires Inv(c, s)
    ensures Inv(c, ConsumerStep(c, s))
  {
    match s.consumer {
      case Testing(_, _, _) => TestKeepsInv(c, s);
      case Taking(_, _, _) => TakeKeepsInv(c, s);
      case Clearing(_, _, _, _) => ClearKeepsInv(c, s);
      case Publishing(_, _, _) => PublishKeepsInv(c, s);
      case _ => IdleKeepsInv(c, s);
    }
  }

  lemma StepKeepsInv<T>(c: Config, s: State<T>, m: Move<T>)
    requires Inv(c, s) && Timely(c, s, m)
    ensures Inv(c, Step(c, s, m))
  {
    match m
    case Produce(p, item, weakFail) =>
      if p < |s.producers| { ProducerKeepsInv(c, s, p, item, weakFail); }
    case Consume =>
      ConsumerKeepsInv(c, s);
    case Poke =>
      var r := Step(c, s, m);
      FrameSlots(c, s, r);
      forall q: nat | q < |r.producers| ensures ProducerOk(c, r, q) { assert ProducerOk(c, s, q); }
  }

  lemma {:induction false} RunKeepsInv<T>(c: Config, n: nat, sched: seq<Move<T>>)
    requires c.Valid() && TimelyRun(c, n, sched)
    ensures Inv(c, Run(c, n, sched))
    decreases |sched|
  {
    if sched == [] {
      InitInv<T>(c, n);
    } else {
      var front := sched[..|sched| - 1];
      RunKeepsInv(c, n, front);
      StepKeepsInv(c, Run(c, n, front), sched[|sched| - 1]);
    }
  }
}
