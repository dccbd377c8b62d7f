/** The lock-free single-producer single-consumer queue between a reactor and one
    of its workers, with the worker's eventfd loop, as interleaved atomic steps.
    Counters are ticket numbers; comparisons and indices use the machine word. */
module SpscQueue {
  import opened Words
  import opened MpscQueue

  /** Where the reactor stands in `enqueueRx`. */
  datatype Sender<T> =
    | Free
    | Entered(item: T)                // before the load of tail
    | GotTail(item: T, tail: nat)     // before the load of head
    | GotRoom(item: T, tail: nat)     // before the write of the slot pointer
    | Stored(item: T, tail: nat)      // before the store of tail
    | Linked(item: T)                 // before the eventfd write

  /** Where the worker stands in its loop around `dequeue`. */
  datatype Worker<T> =
    | Sleeping                                  // blocked in epoll_wait
    | Reading                                   // reading the eventfd
    | Dequeuing                                 // before the load of head
    | GotHead(head: nat)                        // before the load of tail
    | Nonempty(head: nat)                       // before the move out of ptr
    | Emptied(head: nat, item: Option<T>)       // before the store of head

  datatype Pipe<T> = Pipe(
    head: nat,
    tail: nat,
    slots: seq<Option<T>>,
    wakeups: nat,
    sender: Sender<T>,
    worker: Worker<T>,
    log: seq<T>,                    // every item whose tail store happened
    handled: seq<Option<T>>)        // every value `dequeue` returned to the handler

  datatype Turn<T> = Send(item: T) | Work | Nudge

  /** The word must hold `capacity + 1`, the largest difference `enqueue` computes. */
  predicate Fits(c: Config) { c.Valid() && c.wordBits >= 2 }

  predicate Formed<T>(c: Config, s: Pipe<T>)
  {
    Fits(c) && |s.slots| == c.Cap()
  }

  function Start<T>(c: Config): Pipe<T>
  {
    Pipe(0, 0, seq(c.Cap(), _ => None), 0, Free, Sleeping, [], [])
  }

  predicate Full<T>(c: Config, s: Pipe<T>, tail: nat)
  {
    WrapSub(tail + 1, s.head, c.Word()) > c.Cap()
  }

  function Advance<T>(c: Config, s: Pipe<T>, t: Turn<T>): (r: Pipe<T>)
    requires Formed(c, s)
    ensures Formed(c, r)
  {
    match t
    case Send(item) => SenderStep(c, s, item)
    case Work => WorkerStep(c, s)
    case Nudge => s.(wakeups := Bump(s.wakeups))
  }

  function SenderStep<T>(c: Config, s: Pipe<T>, item: T): (r: Pipe<T>)
    requires Formed(c, s)
    ensures Formed(c, r)
  {
    match s.sender
    case Free => s.(sender := Entered(item))
    case Entered(x) => s.(sender := GotTail(x, s.tail))
    case GotTail(x, tail) => s.(sender := if Full(c, s, tail) then Free else GotRoom(x, tail))
    case GotRoom(x, tail) =>
      s.(slots := s.slots[Index(c, tail) := Some(x)], sender := Stored(x, tail))
    case Stored(x, tail) =>
      s.(tail := tail + 1, log := s.log + [x], sender := Linked(x))
    case Linked(_) => s.(wakeups := Bump(s.wakeups), sender := Free)
  }

  function WorkerStep<T>(c: Config, s: Pipe<T>): (r: Pipe<T>)
    requires Formed(c, s)
    ensures Formed(c, r)
  {
    match s.worker
    case Sleeping => if s.wakeups > 0 then s.(worker := Reading) else s
    case Reading => if s.wakeups > 0 then s.(wakeups := 0) else s.(worker := Dequeuing)
    case Dequeuing => s.(worker := GotHead(s.head))
    case GotHead(head) =>
      s.(worker := if head % c.Word() == s.tail % c.Word() then Sleeping else Nonempty(head))
    case Nonempty(head) =>
      var i := Index(c, head);
      s.(slots := s.slots[i := None], worker := Emptied(head, s.slots[i]))
    case Emptied(head, item) =>
      s.(head := head + 1, handled := s.handled + [item], worker := Dequeuing)
  }

  function Play<T>(c: Config, sched: seq<Turn<T>>): (r: Pipe<T>)
    requires Fits(c)
    ensures Formed(c, r)
  {
    if sched == [] then Start(c)
    else Advance(c, Play(c, sched[..|sched| - 1]), sched[|sched| - 1])
  }

  /** The queue a client sees: linked but not yet dequeued. */
  function Queue<T>(s: Pipe<T>): seq<T>
  {
    if s.head <= |s.log| then s.log[s.head..] else []
  }

  function Somes<T>(xs: seq<T>): (r: seq<Option<T>>)
    ensures |r| == |xs| && forall i | 0 <= i < |r| :: r[i] == Some(xs[i])
  {
    seq(|xs|, i requires 0 <= i < |xs| => Some(xs[i]))
  }

  // ---- The invariant ----

  ghost predicate SlotOk<T>(c: Config, s: Pipe<T>, t: nat)
    requires Formed(c, s) && t < |s.log|
  {
    s.slots[Index(c, t)] ==
      if t == s.head && s.worker.Emptied? then None else Some(s.log[t])
  }

  ghost predicate SenderOk<T>(c: Config, s: Pipe<T>)
    requires Formed(c, s)
  {
    match s.sender
    case GotTail(_, tail) => tail == s.tail
    case GotRoom(_, tail) => tail == s.tail < s.head + c.Cap()
    case Stored(x, tail) => tail == s.tail < s.head + c.Cap() && s.slots[Index(c, tail)] == Some(x)
    case _ => true
  }

  ghost predicate WorkerOk<T>(s: Pipe<T>)
  {
    match s.worker
    case GotHead(head) => head == s.head
    case Nonempty(head) => head == s.head < s.tail
    case Emptied(head, item) =>
      head == s.head < s.tail && head < |s.log| && item == Some(s.log[head])
    case _ => true
  }

  ghost predicate PipeInv<T>(c: Config, s: Pipe<T>)
  {
    && Formed(c, s)
    && s.head <= s.tail <= s.head + c.Cap()
    && |s.log| == s.tail
    && s.handled == Somes(s.log[..s.head])
    && (forall t: nat | s.head <= t < s.tail :: SlotOk(c, s, t))
    && SenderOk(c, s)
    && WorkerOk(s)
    && (s.worker.Sleeping? && s.head < s.tail ==> s.wakeups > 0 || s.sender.Linked?)
  }

  lemma DifferencesFit(c: Config)
    requires Fits(c)
    ensures c.Cap() + 1 < c.Word()
  {
    CapBelowWord(c);
    assert Pow2(c.wordBits) == 2 * (2 * Pow2(c.wordBits - 2));
  }

  lemma SenderKeepsInv<T>(c: Config, s: Pipe<T>, item: T)
    requires PipeInv(c, s)
    ensures PipeInv(c, SenderStep(c, s, item))
  {
    var r := SenderStep(c, s, item);
    if s.sender.GotTail? {
      DifferencesFit(c);
      WrapSubExact(s.tail + 1, s.head, c.Word());
    }
    if s.sender.GotRoom? {
      IndexDiffersAround(c, s.tail, s.head);
    }
    assert r.log[..r.head] == s.log[..s.head];
    forall t: nat | r.head <= t < r.tail ensures SlotOk(c, r, t) {
      if t < s.tail { assert SlotOk(c, s, t); }
    }
  }

  lemma WorkerKeepsInv<T>(c: Config, s: Pipe<T>)
    requires PipeInv(c, s)
    ensures PipeInv(c, WorkerStep(c, s))
  {
    var r := WorkerStep(c, s);
    if s.worker.GotHead? && s.head != s.tail {
      CapBelowWord(c);
      RemaindersDiffer(s.head, s.tail, c.Word());
    }
    if s.worker.Nonempty? {
      assert SlotOk(c, s, s.head);
      IndexDiffersAround(c, s.head, s.head);
    }
    if s.worker.Emptied? {
      assert s.log[..s.head + 1] == s.log[..s.head] + [s.log[s.head]];
    }
    forall t: nat | r.head <= t < r.tail ensures SlotOk(c, r, t) {
      assert SlotOk(c, s, t);
    }
  }

  lemma {:induction false} PlayKeepsInv<T>(c: Config, sched: seq<Turn<T>>)
    requires Fits(c)
    ensures PipeInv(c, Play(c, sched))
    decreases |sched|
  {
    if sched != [] {
      var s := Play(c, sched[..|sched| - 1]);
      PlayKeepsInv(c, sched[..|sched| - 1]);
      match sched[|sched| - 1]
      case Send(item) => SenderKeepsInv(c, s, item);
      case Work => WorkerKeepsInv(c, s);
      case Nudge =>
        var r := Play(c, sched);
        forall t: nat | r.head <= t < r.tail ensures SlotOk(c, r, t) {
          assert SlotOk(c, s, t);
        }
    }
  }

  // ---- What a client sees ----

  /** What one atomic step does to the bounded FIFO that the pipe implements. */
  ghost predicate FifoStep<T>(c: Config, s: Pipe<T>, t: Turn<T>, r: Pipe<T>)
  {
    if t.Send? && s.sender.Stored? then
      |Queue(s)| < c.Cap() && Queue(r) == Queue(s) + [s.sender.item] && r.handled == s.handled
    else if t.Work? && s.worker.Emptied? then
      |Queue(s)| > 0 && Queue(r) == Queue(s)[1..] && r.handled == s.handled + [Some(Queue(s)[0])]
    else
      Queue(r) == Queue(s) && r.handled == s.handled
  }

  /** After any schedule, each further step acts on a FIFO of at most `capacity`
      items: the tail store appends, the head store removes the front, nothing else
      changes it; `enqueue` gives up exactly when the FIFO is full at its load of
      head, and `dequeue` returns null exactly when it is empty at its load of tail. */
  lemma PipeIsBoundedFifo<T>(c: Config, sched: seq<Turn<T>>, t: Turn<T>)
    requires Fits(c)
    ensures var s, r := Play(c, sched), Advance(c, Play(c, sched), t);
      && |Queue(s)| <= c.Cap()
      && s.handled + Somes(Queue(s)) == Somes(s.log)
      && FifoStep(c, s, t, r)
      && (t.Send? && s.sender.GotTail? ==> (r.sender.Free? <==> |Queue(s)| == c.Cap()))
      && (t.Work? && s.worker.GotHead? ==> (r.worker.Sleeping? <==> Queue(s) == []))
  {
    PlayKeepsInv(c, sched);
    StepIsFifoStep(c, Play(c, sched), t);
  }

  lemma SendIsFifoStep<T>(c: Config, s: Pipe<T>, item: T)
    requires PipeInv(c, s)
    ensures FifoStep(c, s, Send(item), SenderStep(c, s, item))
    ensures s.sender.GotTail? ==> (SenderStep(c, s, item).sender.Free? <==> |Queue(s)| == c.Cap())
  {
    if s.sender.GotTail? {
      DifferencesFit(c);
      WrapSubExact(s.tail + 1, s.head, c.Word());
    } else if s.sender.Stored? {
      assert (s.log + [s.sender.item])[s.head..] == s.log[s.head..] + [s.sender.item];
    }
  }

  lemma WorkIsFifoStep<T>(c: Config, s: Pipe<T>)
    requires PipeInv(c, s)
    ensures FifoStep(c, s, Work, WorkerStep(c, s))
    ensures s.worker.GotHead? ==> (WorkerStep(c, s).worker.Sleeping? <==> Queue(s) == [])
  {
    if s.worker.GotHead? && s.head != s.tail {
      DifferencesFit(c);
      RemaindersDiffer(s.head, s.tail, c.Word());
    } else if s.worker.Emptied? {
      assert s.log[s.head..][1..] == s.log[s.head + 1..];
    }
  }

  lemma StepIsFifoStep<T>(c: Config, s: Pipe<T>, t: Turn<T>)
    requires PipeInv(c, s)
    ensures |Queue(s)| <= c.Cap()
    ensures s.handled + Somes(Queue(s)) == Somes(s.log)
    ensures FifoStep(c, s, t, Advance(c, s, t))
    ensures t.Send? && s.sender.GotTail? ==>
              (Advance(c, s, t).sender.Free? <==> |Queue(s)| == c.Cap())
    ensures t.Work? && s.worker.GotHead? ==>
              (Advance(c, s, t).worker.Sleeping? <==> Queue(s) == [])
  {
    assert s.log[..s.head] + s.log[s.head..] == s.log;
    match t
    case Send(item) => SendIsFifoStep(c, s, item);
    case Work => WorkIsFifoStep(c, s);
    case Nudge =>
  }

  /** A worker asleep on a zero eventfd, with the reactor past its wakeup, has
      handled everything ever enqueued. */
  lemma SleepingWorkerIsIdle<T>(c: Config, sched: seq<Turn<T>>)
    requires Fits(c)
    requires var s := Play(c, sched);
      s.worker.Sleeping? && s.wakeups == 0 && !s.sender.Linked?
    ensures var s := Play(c, sched); Queue(s) == [] && s.handled == Somes(s.log)
  {
    PlayKeepsInv(c, sched);
    var s := Play(c, sched);
    assert s.log[..s.tail] == s.log;
  }
}
