/** The shard worker: one thread that handles events in order, each with all the
    actions it causes, and runs a periodic tick. */
module Shard {
  import opened Words
  import opened Bytes
  import opened Sequences

  datatype Event =
    | LoginReq(sid: nat, id: seq<Byte>, pw: seq<Byte>)
    | LobbyEntryReq(sid: nat)
    | PingReq(sid: nat, nonce: nat, clientTs: nat)
    | MarketDumpReq

  datatype Action =
    | LoginSuccessRes(sid: nat)
    | LoginFailRes(sid: nat)
    | LobbyEntryRes(sid: nat)
    | PingRes(sid: nat, nonce: nat, clientTs: nat)

  /** The password lookup for one login: no database at all, or its answer. */
  datatype Lookup = NoDatabase | Account(stored: Option<seq<Byte>>)

  const TEST: seq<Byte> := [116, 101, 115, 116]   // "test"

  function LoginAccepted(id: seq<Byte>, pw: seq<Byte>, lookup: Lookup): bool
  {
    match lookup
    case NoDatabase => id == TEST && pw == TEST
    case Account(stored) => stored == Some(pw)
  }

  /** The actions that handling an event commits. */
  function Answers(e: Event, lookup: Lookup): seq<Action>
  {
    match e
    case LoginReq(sid, id, pw) =>
      [if LoginAccepted(id, pw, lookup) then LoginSuccessRes(sid) else LoginFailRes(sid)]
    case LobbyEntryReq(sid) => [LobbyEntryRes(sid)]
    case PingReq(sid, nonce, clientTs) => [PingRes(sid, nonce, clientTs)]
    case MarketDumpReq => []
  }

  datatype Handled = Handled(event: Event, lookup: Lookup)

  /** The answers of a sequential execution, one event after the other. */
  function Sequential(hs: seq<Handled>): seq<Action>
  {
    if hs == [] then []
    else Sequential(hs[..|hs| - 1]) + Answers(hs[|hs| - 1].event, hs[|hs| - 1].lookup)
  }

  function Events(hs: seq<Handled>): (r: seq<Event>)
    ensures |r| == |hs| && forall i | 0 <= i < |r| :: r[i] == hs[i].event
  {
    seq(|hs|, i requires 0 <= i < |hs| => hs[i].event)
  }

  lemma HandledNext(hs: seq<Handled>, h: Handled)
    ensures Sequential(hs + [h]) == Sequential(hs) + Answers(h.event, h.lookup)
    ensures Events(hs + [h]) == Events(hs) + [h.event]
  {
    assert (hs + [h])[..|hs|] == hs;
  }

  function ClientEvents(es: seq<Event>): seq<Event>
  {
    if es == [] then []
    else ClientEvents(es[..|es| - 1]) + if es[|es| - 1].MarketDumpReq? then [] else [es[|es| - 1]]
  }

  /** The handled requests of clients. */
  function ClientHandled(hs: seq<Handled>): seq<Handled>
  {
    if hs == [] then []
    else ClientHandled(hs[..|hs| - 1]) + if hs[|hs| - 1].event.MarketDumpReq? then [] else [hs[|hs| - 1]]
  }

  /** The one right answer to a request: of its own sort and for its own session; a ping's
      carries the very numbers it came with; and a login succeeds if and only if the stored
      password is the one given, or, without a database, both fields read "test". */
  predicate RightAnswer(h: Handled, a: Action)
  {
    match h.event
    case LoginReq(sid, id, pw) =>
      && (a == LoginSuccessRes(sid) || a == LoginFailRes(sid))
      && (a.LoginSuccessRes? <==>
            || (h.lookup.Account? && h.lookup.stored.Some? && h.lookup.stored.value == pw)
            || (h.lookup.NoDatabase? && id == [116, 101, 115, 116] && pw == [116, 101, 115, 116]))
    case LobbyEntryReq(sid) => a == LobbyEntryRes(sid)
    case PingReq(sid, nonce, clientTs) => a == PingRes(sid, nonce, clientTs)
    case MarketDumpReq => false
  }

  /** Each login, lobby or ping request gets exactly its right answer, in request order;
      market dumps get none. */
  lemma {:induction false} OneAnswerPerRequest(hs: seq<Handled>)
    ensures |Sequential(hs)| == |ClientHandled(hs)|
    ensures forall i | 0 <= i < |Sequential(hs)| :: RightAnswer(ClientHandled(hs)[i], Sequential(hs)[i])
    decreases |hs|
  {
    if hs != [] { OneAnswerPerRequest(hs[..|hs| - 1]); }
  }

  lemma {:induction false} ClientHandledEvents(hs: seq<Handled>)
    ensures Events(ClientHandled(hs)) == ClientEvents(Events(hs))
    decreases |hs|
  {
    if hs != [] {
      ClientHandledEvents(hs[..|hs| - 1]);
      assert Events(hs)[..|hs| - 1] == Events(hs[..|hs| - 1]);
    }
  }

  // ---- Ticks ----

  /** The tick arithmetic of one iteration that read the clock as `now`. */
  function NextTick(nextTick: int, now: int, interval: nat): int
  {
    if now < nextTick then nextTick
    else if now > nextTick + interval + interval then now + interval
    else nextTick + interval
  }

  // ---- The worker ----

  /** Where the worker thread stands in its loop. */
  datatype Place =
    | Top                                    // before the lock is taken
    | Waiting(woken: bool)                   // in wait_until; whether a notify has come since
    | Popped(event: Option<Event>)           // before the event is handled
    | Acting                                 // in the action loop
    | Ticking                                // before the tick test

  /** The event taken but not yet handled, if any. */
  function InHand(p: Place): seq<Event>
  {
    if p.Popped? && p.event.Some? then [p.event.value] else []
  }

  /** One step: another thread enqueues an event and notifies, or the worker moves.  A wait
      lasts until a notify, the tick time (`elapsed` passes on the clock), or for no reason
      (`spurious`); `lookup` is the database's answer if it is needed. */
  datatype Step = Enqueue(event: Event) | Work(elapsed: nat, lookup: Lookup, spurious: bool)

  function EnqueuedBy(sched: seq<Step>): seq<Event>
  {
    if sched == [] then []
    else
      var front, last := EnqueuedBy(sched[..|sched| - 1]), sched[|sched| - 1];
      if last.Enqueue? then front + [last.event] else front
  }

  lemma {:induction false} EnqueuedByAppend(ms: seq<Step>, more: seq<Step>)
    ensures EnqueuedBy(ms + more) == EnqueuedBy(ms) + EnqueuedBy(more)
    decreases |more|
  {
    if more == [] {
      assert ms + more == ms;
    } else {
      EnqueuedByAppend(ms, more[..|more| - 1]);
      assert (ms + more)[..|ms + more| - 1] == ms + more[..|more| - 1];
    }
  }

  datatype Worker = Worker(
    place: Place,
    eventQueue: seq<Event>,
    actionQueue: seq<Action>,
    now: int,
    nextTick: int,
    ticks: nat,
    handled: seq<Handled>,       // events handled so far, oldest first
    sent: seq<Action>)           // actions carried out so far, oldest first

  function Start(interval: nat, started: int): Worker
  {
    Worker(Top, [], [], started, started + interval, 0, [], [])
  }

  /** Takes at most one event under the lock and reads the clock. */
  function Pop(w: Worker, elapsed: nat): Worker
  {
    if w.eventQueue == [] then w.(place := Popped(None), now := w.now + elapsed)
    else w.(place := Popped(Some(w.eventQueue[0])), eventQueue := w.eventQueue[1..], now := w.now + elapsed)
  }

  function HandlePopped(w: Worker, lookup: Lookup): Worker
    requires w.place.Popped?
  {
    match w.place.event
    case None => w.(place := Acting)
    case Some(e) =>
      w.(place := Acting, handled := w.handled + [Handled(e, lookup)],
         actionQueue := w.actionQueue + Answers(e, lookup))
  }

  /** One turn of the action loop, or its exit. */
  function Act(w: Worker): Worker
  {
    if w.actionQueue == [] then w.(place := Ticking)
    else w.(sent := w.sent + [w.actionQueue[0]], actionQueue := w.actionQueue[1..])
  }

  function Tick(interval: nat, w: Worker): Worker
  {
    w.(place := Top, nextTick := NextTick(w.nextTick, w.now, interval),
       ticks := if w.now >= w.nextTick then w.ticks + 1 else w.ticks)
  }

  /** Whether the wait ends with this step. */
  predicate Wakes(w: Worker, step: Step)
    requires w.place.Waiting? && step.Work?
  {
    w.place.woken || step.spurious || w.now + step.elapsed >= w.nextTick
  }

  /** A notify reaches only a worker that is waiting; to any other it is lost. */
  function Notified(p: Place): Place
  {
    if p.Waiting? then Waiting(true) else p
  }

  function Moved(interval: nat, w: Worker, step: Step): Worker
  {
    match step
    case Enqueue(e) => w.(eventQueue := w.eventQueue + [e], place := Notified(w.place))
    case Work(elapsed, lookup, _) =>
      match w.place
      case Top => w.(place := Waiting(false))
      case Waiting(_) => if Wakes(w, step) then Pop(w, elapsed) else w.(now := w.now + elapsed)
      case Popped(_) => HandlePopped(w, lookup)
      case Acting => Act(w)
      case Ticking => Tick(interval, w)
  }

  /** The worker after some steps, its own and those of enqueuing threads, in any order. */
  function After(interval: nat, w: Worker, ms: seq<Step>): Worker
  {
    if ms == [] then w else Moved(interval, After(interval, w, ms[..|ms| - 1]), ms[|ms| - 1])
  }

  lemma {:induction false} AfterAppend(interval: nat, w: Worker, ms: seq<Step>, more: seq<Step>)
    ensures After(interval, w, ms + more) == After(interval, After(interval, w, ms), more)
    decreases |more|
  {
    if more == [] {
      assert ms + more == ms;
    } else {
      AfterAppend(interval, w, ms, more[..|more| - 1]);
      assert (ms + more)[..|ms + more| - 1] == ms + more[..|more| - 1];
    }
  }

  // ---- What every run keeps ----

  /** Handling follows enqueue order, and answers follow the sequential execution; no
      action outlives its iteration. */
  predicate InOrder(w: Worker, enqueued: seq<Event>)
  {
    && Events(w.handled) + InHand(w.place) + w.eventQueue == enqueued
    && w.sent + w.actionQueue == Sequential(w.handled)
    && |w.actionQueue| <= (if w.place.Acting? then 1 else 0)
  }

  /** Ticks are never early, and never more than the elapsed time allows. */
  predicate OnTime(interval: nat, started: int, w: Worker)
  {
    && w.nextTick <= w.now + interval
    && (w.place.Top? || w.place.Waiting? ==> w.now - interval <= w.nextTick)
    && started + (w.ticks + 1) * interval <= w.nextTick
    && w.ticks * interval <= w.now - started
  }

  lemma PopKeepsOrder(w: Worker, elapsed: nat, enqueued: seq<Event>)
    requires InOrder(w, enqueued) && w.place.Waiting?
    ensures InOrder(Pop(w, elapsed), enqueued)
  {
    assert Events(w.handled) + [] == Events(w.handled);
    if w.eventQueue != [] {
      assert [w.eventQueue[0]] + w.eventQueue[1..] == w.eventQueue;
      assert Events(w.handled) + ([w.eventQueue[0]] + w.eventQueue[1..])
          == Events(w.handled) + [w.eventQueue[0]] + w.eventQueue[1..];
    }
  }

  lemma HandlingKeepsOrder(w: Worker, lookup: Lookup, enqueued: seq<Event>)
    requires InOrder(w, enqueued) && w.place.Popped?
    ensures InOrder(HandlePopped(w, lookup), enqueued)
  {
    if w.place.event.Some? {
      var h := Handled(w.place.event.value, lookup);
      HandledNext(w.handled, h);
      assert w.sent + (w.actionQueue + Answers(h.event, lookup)) == w.sent + w.actionQueue + Answers(h.event, lookup);
      assert Events(w.handled + [h]) + [] == Events(w.handled) + [h.event];
    }
  }

  lemma ActKeepsOrder(w: Worker, enqueued: seq<Event>)
    requires InOrder(w, enqueued) && w.place.Acting?
    ensures InOrder(Act(w), enqueued)
  {
    if w.actionQueue != [] {
      assert w.sent + [w.actionQueue[0]] + w.actionQueue[1..] == w.sent + w.actionQueue;
    }
  }

  lemma MovedKeepsOrder(interval: nat, w: Worker, step: Step, enqueued: seq<Event>)
    requires InOrder(w, enqueued)
    ensures InOrder(Moved(interval, w, step), enqueued + EnqueuedBy([step]))
  {
    match step
    case Enqueue(e) =>
      var front := Events(w.handled) + InHand(w.place);
      assert EnqueuedBy([step]) == [e];
      assert front + w.eventQueue + [e] == front + (w.eventQueue + [e]);
    case Work(elapsed, lookup, _) =>
      assert EnqueuedBy([step]) == [];
      assert enqueued + [] == enqueued;
      match w.place
      case Top =>
      case Waiting(_) => if Wakes(w, step) { PopKeepsOrder(w, elapsed, enqueued); }
      case Popped(_) => HandlingKeepsOrder(w, lookup, enqueued);
      case Acting => ActKeepsOrder(w, enqueued);
      case Ticking =>
  }

  lemma MovedKeepsTime(interval: nat, started: int, w: Worker, step: Step)
    requires OnTime(interval, started, w)
    ensures OnTime(interval, started, Moved(interval, w, step))
  {
    assert (w.ticks + 2) * interval == (w.ticks + 1) * interval + interval;
    assert (w.ticks + 1) * interval == w.ticks * interval + interval;
  }

  lemma EnqueuedLast(enqueued: seq<Event>, ms: seq<Step>)
    requires ms != []
    ensures enqueued + EnqueuedBy(ms[..|ms| - 1]) + EnqueuedBy([ms[|ms| - 1]]) == enqueued + EnqueuedBy(ms)
  {
    EnqueuedOne(ms[|ms| - 1]);
    AppendAssoc(enqueued, EnqueuedBy(ms[..|ms| - 1]), EnqueuedBy([ms[|ms| - 1]]));
  }

  lemma EnqueuedOne(m: Step)
    ensures EnqueuedBy([m]) == if m.Enqueue? then [m.event] else []
  {
    assert [m][..0] == [];
  }

  lemma {:induction false} RunKeepsOrder(interval: nat, w: Worker, ms: seq<Step>, enqueued: seq<Event>)
    requires InOrder(w, enqueued)
    ensures InOrder(After(interval, w, ms), enqueued + EnqueuedBy(ms))
    decreases |ms|
  {
    if ms == [] {
      assert enqueued + [] == enqueued;
    } else {
      var front, last := ms[..|ms| - 1], ms[|ms| - 1];
      RunKeepsOrder(interval, w, front, enqueued);
      MovedKeepsOrder(interval, After(interval, w, front), last, enqueued + EnqueuedBy(front));
      EnqueuedLast(enqueued, ms);
    }
  }

  lemma {:induction false} RunKeepsTime(interval: nat, started: int, w: Worker, ms: seq<Step>)
    requires OnTime(interval, started, w)
    ensures OnTime(interval, started, After(interval, w, ms))
    decreases |ms|
  {
    if ms != [] {
      RunKeepsTime(interval, started, w, ms[..|ms| - 1]);
      MovedKeepsTime(interval, started, After(interval, w, ms[..|ms| - 1]), ms[|ms| - 1]);
    }
  }

  /** Every interleaving of enqueuing threads with the worker behaves as the sequential
      execution, and the tick bounds hold throughout. */
  lemma RunIsSequential(interval: nat, started: int, sched: seq<Step>)
    ensures var w := After(interval, Start(interval, started), sched);
      InOrder(w, EnqueuedBy(sched)) && OnTime(interval, started, w)
  {
    RunKeepsOrder(interval, Start(interval, started), sched, []);
    assert [] + EnqueuedBy(sched) == EnqueuedBy(sched);
    RunKeepsTime(interval, started, Start(interval, started), sched);
  }

  // ---- The tick grid ----

  /** No tick of the run comes more than two intervals late. */
  ghost predicate Punctual(interval: nat, w: Worker, ms: seq<Step>)
  {
    forall k | 0 <= k < |ms| && ms[k].Work? && After(interval, w, ms[..k]).place.Ticking? ::
      After(interval, w, ms[..k]).now <= After(interval, w, ms[..k]).nextTick + 2 * interval
  }

  lemma PunctualFront(interval: nat, w: Worker, ms: seq<Step>)
    requires ms != [] && Punctual(interval, w, ms)
    ensures Punctual(interval, w, ms[..|ms| - 1])
    ensures var x := After(interval, w, ms[..|ms| - 1]);
      ms[|ms| - 1].Work? && x.place.Ticking? ==> x.now <= x.nextTick + 2 * interval
  {
    var front := ms[..|ms| - 1];
    forall k | 0 <= k < |front| ensures front[..k] == ms[..k] && front[k] == ms[k] {}
  }

  /** From any state on: as long as no tick is more than two intervals late, tick times stay
      on their grid, however late each single tick is ... */
  lemma {:induction false} GridIsKept(interval: nat, w: Worker, ms: seq<Step>)
    requires Punctual(interval, w, ms)
    ensures var r := After(interval, w, ms);
      r.ticks >= w.ticks && r.nextTick == w.nextTick + (r.ticks - w.ticks) * interval
    decreases |ms|
  {
    if ms != [] {
      PunctualFront(interval, w, ms);
      GridIsKept(interval, w, ms[..|ms| - 1]);
      var d := After(interval, w, ms[..|ms| - 1]).ticks - w.ticks;
      assert (d + 1) * interval == d * interval + interval;
    }
  }

  /** ... so in a run with no such tick nothing drifts: the next tick is due at a whole number
      of intervals after the start. */
  lemma NoDrift(interval: nat, started: int, sched: seq<Step>)
    requires Punctual(interval, Start(interval, started), sched)
    ensures var w := After(interval, Start(interval, started), sched);
      w.nextTick == started + (w.ticks + 1) * interval
  {
    GridIsKept(interval, Start(interval, started), sched);
    var n := After(interval, Start(interval, started), sched).ticks;
    assert (n + 1) * interval == n * interval + interval;
  }

  /** A tick that is later than that restarts the grid at the time it was noticed. */
  lemma LateTickRestartsGrid(interval: nat, w: Worker, step: Step)
    requires w.place.Ticking? && step.Work? && w.now > w.nextTick + 2 * interval
    ensures var r := After(interval, w, [step]);
      r.ticks == w.ticks + 1 && r.nextTick == w.now + interval
  {
    assert [step][..0] == [];
  }

  // ---- One iteration ----

  /** `h` is what one iteration makes of the queue it finds: nothing, or its oldest event. */
  predicate TakesOldest(queue: seq<Event>, h: seq<Handled>)
  {
    if queue == [] then h == [] else |h| == 1 && h[0].event == queue[0]
  }

  function Rest(queue: seq<Event>): seq<Event>
  {
    if queue == [] then [] else queue[1..]
  }

  /** `x` is a state inside the iteration that began in `w`, or at its end; `h` is what has
      been handled in it, `added` what has been enqueued since. */
  ghost predicate Within(interval: nat, w: Worker, x: Worker, elapsed: nat, h: seq<Handled>, added: seq<Event>)
  {
    && x.now == w.now + elapsed
    && x.eventQueue == Rest(w.eventQueue) + added
    && x.handled == w.handled + h
    && x.sent + x.actionQueue == w.sent + Sequential(h)
    && (if x.place.Popped?
        then h == [] && x.place.event == (if w.eventQueue == [] then None else Some(w.eventQueue[0]))
        else TakesOldest(w.eventQueue, h))
    && (!x.place.Acting? ==> x.actionQueue == [])
    && !x.place.Waiting?
    && (if x.place.Top? then x == Tick(interval, x.(nextTick := w.nextTick, ticks := w.ticks))
        else x.nextTick == w.nextTick && x.ticks == w.ticks)
  }

  lemma IterationStarts(interval: nat, w: Worker, step: Step)
    requires w.place.Waiting? && w.actionQueue == [] && step.Work? && Wakes(w, step)
    ensures Within(interval, w, Moved(interval, w, step), step.elapsed, [], [])
  {
    assert w.sent + [] == w.sent;
  }

  lemma IterationHandles(interval: nat, w: Worker, x: Worker, lookup: Lookup, elapsed: nat, h: seq<Handled>,
                         added: seq<Event>)
    returns (h': seq<Handled>)
    requires Within(interval, w, x, elapsed, h, added) && x.place.Popped?
    ensures Within(interval, w, HandlePopped(x, lookup), elapsed, h', added)
  {
    if x.place.event.None? { return h; }
    var e := x.place.event.value;
    h' := [Handled(e, lookup)];
    HandledNext([], h'[0]);
    assert [] + h' == h';
    assert w.handled + [] == w.handled && x.sent + [] == x.sent && w.sent + [] == w.sent;
    assert [] + Answers(e, lookup) == Answers(e, lookup);
  }

  lemma IterationActs(interval: nat, w: Worker, x: Worker, elapsed: nat, h: seq<Handled>, added: seq<Event>)
    requires Within(interval, w, x, elapsed, h, added) && x.place.Acting?
    ensures Within(interval, w, Act(x), elapsed, h, added)
  {
    if x.actionQueue != [] {
      assert x.sent + [x.actionQueue[0]] + x.actionQueue[1..] == x.sent + x.actionQueue;
    }
  }

  lemma IterationGoesOn(interval: nat, w: Worker, x: Worker, step: Step, elapsed: nat, h: seq<Handled>,
                        added: seq<Event>)
    returns (h': seq<Handled>)
    requires Within(interval, w, x, elapsed, h, added) && !x.place.Top?
    ensures Within(interval, w, Moved(interval, x, step), elapsed, h', added + EnqueuedBy([step]))
  {
    h' := h;
    EnqueuedOne(step);
    match step
    case Enqueue(e) => AppendAssoc(Rest(w.eventQueue), added, [e]);
    case Work(_, lookup, _) =>
      assert added + [] == added;
      match x.place
      case Popped(_) => h' := IterationHandles(interval, w, x, lookup, elapsed, h, added);
      case Acting => IterationActs(interval, w, x, elapsed, h, added);
      case Ticking =>
  }

  /** The worker is not back at the top before the end. */
  ghost predicate Unbroken(interval: nat, w: Worker, ms: seq<Step>)
  {
    forall k | 0 < k < |ms| :: !After(interval, w, ms[..k]).place.Top?
  }

  lemma {:induction false} WithinIteration(interval: nat, w: Worker, ms: seq<Step>) returns (h: seq<Handled>)
    requires w.place.Waiting? && w.actionQueue == [] && ms != [] && ms[0].Work? && Wakes(w, ms[0])
    requires Unbroken(interval, w, ms)
    ensures Within(interval, w, After(interval, w, ms), ms[0].elapsed, h, EnqueuedBy(ms))
    decreases |ms|
  {
    var front, last := ms[..|ms| - 1], ms[|ms| - 1];
    if front == [] {
      assert ms == [last];
      IterationStarts(interval, w, last);
      h := [];
    } else {
      forall k | 0 < k < |front| ensures !After(interval, w, front[..k]).place.Top? {
        assert front[..k] == ms[..k];
      }
      var g := WithinIteration(interval, w, front);
      h := IterationGoesOn(interval, w, After(interval, w, front), last, ms[0].elapsed, g, EnqueuedBy(front));
      EnqueuedByAppend(front, [last]);
      assert front + [last] == ms;
    }
  }

  /** An iteration from the end of its wait on, whatever is enqueued during it: the oldest
      waiting event is handled and all its answers are carried out; later events stay in order; the tick runs
      exactly when the clock, read after the wait, has reached the tick time. */
  lemma IterationEffect(interval: nat, w: Worker, ms: seq<Step>)
    requires w.place.Waiting? && w.actionQueue == [] && ms != [] && ms[0].Work? && Wakes(w, ms[0])
    requires Unbroken(interval, w, ms) && After(interval, w, ms).place.Top?
    ensures var r := After(interval, w, ms);
      && r.now == w.now + ms[0].elapsed && r.actionQueue == []
      && r.eventQueue == Rest(w.eventQueue) + EnqueuedBy(ms)
      && w.handled <= r.handled && TakesOldest(w.eventQueue, r.handled[|w.handled|..])
      && r.sent == w.sent + Sequential(r.handled[|w.handled|..])
      && r.nextTick == NextTick(w.nextTick, r.now, interval)
      && r.ticks == (if r.now >= w.nextTick then w.ticks + 1 else w.ticks)
  {
    var h := WithinIteration(interval, w, ms);
    var r := After(interval, w, ms);
    assert r.handled[|w.handled|..] == h;
    assert r.sent + [] == r.sent;
  }

  // ---- Progress ----

  /** The worker waits on: nothing has ended the wait yet. */
  predicate Stalls(w: Worker, step: Step)
  {
    step.Work? && w.place.Waiting? && !Wakes(w, step)
  }

  /** How many steps of a run the worker makes other than waiting on. */
  function Busy(interval: nat, w: Worker, ms: seq<Step>): nat
  {
    if ms == [] then 0
    else
      var front, last := ms[..|ms| - 1], ms[|ms| - 1];
      Busy(interval, w, front) + if last.Work? && !Stalls(After(interval, w, front), last) then 1 else 0
  }

  /** The steps that are still needed before `target` events have been handled. */
  function Debt(w: Worker, target: nat): int
  {
    var n := target - |w.handled|;
    if n <= 0 then 0
    else
      6 * n + match w.place
              case Top => -3
              case Waiting(_) => -4
              case Popped(e) => if e.Some? then -5 else 0
              case Acting => |w.actionQueue| - 1
              case Ticking => -2
  }

  lemma MovedPaysDebt(interval: nat, w: Worker, step: Step, enqueued: seq<Event>, target: nat)
    requires InOrder(w, enqueued) && target <= |enqueued|
    ensures Debt(Moved(interval, w, step), target) <=
            if step.Work? && !Stalls(w, step) then Max0(Debt(w, target) - 1) else Debt(w, target)
  {
    assert |enqueued| == |w.handled| + |InHand(w.place)| + |w.eventQueue|;
  }

  lemma {:induction false} RunPaysDebt(interval: nat, w: Worker, ms: seq<Step>, enqueued: seq<Event>, target: nat)
    requires InOrder(w, enqueued) && target <= |enqueued|
    ensures Debt(After(interval, w, ms), target) <= Max0(Debt(w, target) - Busy(interval, w, ms))
    decreases |ms|
  {
    if ms != [] {
      var front := ms[..|ms| - 1];
      RunPaysDebt(interval, w, front, enqueued, target);
      RunKeepsOrder(interval, w, front, enqueued);
      MovedPaysDebt(interval, After(interval, w, front), ms[|ms| - 1], enqueued + EnqueuedBy(front), target);
    }
  }

  function Max0(x: int): nat
  {
    if x < 0 then 0 else x
  }

  lemma InOrderCounts(w: Worker, enqueued: seq<Event>)
    requires InOrder(w, enqueued)
    ensures Events(w.handled) + (InHand(w.place) + w.eventQueue) == enqueued
    ensures |w.handled| <= |enqueued| && |w.actionQueue| <= 1
  {
  }

  lemma HandledCovers(handled: seq<Event>, rest: seq<Event>, first: seq<Event>, later: seq<Event>)
    requires handled + rest == first + later && |handled| >= |first|
    ensures first <= handled
  {
    assert handled == (first + later)[..|handled|];
  }

  lemma DebtBound(w: Worker, target: nat)
    requires |w.actionQueue| <= 1 && |w.handled| <= target
    ensures 0 <= Debt(w, target) <= 6 * (target - |w.handled|)
    ensures Debt(w, target) == 0 ==> |w.handled| == target
  {
  }

  lemma WaitingEventsGetHandled(interval: nat, w: Worker, ms: seq<Step>, enqueued: seq<Event>)
    requires InOrder(w, enqueued) && Busy(interval, w, ms) >= 6 * (|enqueued| - |w.handled|)
    ensures enqueued <= Events(After(interval, w, ms).handled)
  {
    InOrderCounts(w, enqueued);
    DebtBound(w, |enqueued|);
    RunPaysDebt(interval, w, ms, enqueued, |enqueued|);
    RunKeepsOrder(interval, w, ms, enqueued);
    var r := After(interval, w, ms);
    InOrderCounts(r, enqueued + EnqueuedBy(ms));
    if |r.handled| < |enqueued| { DebtBound(r, |enqueued|); }
    HandledCovers(Events(r.handled), InHand(r.place) + r.eventQueue, enqueued, EnqueuedBy(ms));
  }

  /** No event waits for ever: six steps of the worker for each outstanding event, other than
      waiting on, are enough, however many more events arrive meanwhile. */
  lemma EventsGetHandled(interval: nat, started: int, before: seq<Step>, ms: seq<Step>)
    requires var w := After(interval, Start(interval, started), before);
      Busy(interval, w, ms) >= 6 * (|EnqueuedBy(before)| - |w.handled|)
    ensures EnqueuedBy(before) <= Events(After(interval, Start(interval, started), before + ms).handled)
  {
    RunIsSequential(interval, started, before);
    AfterAppend(interval, Start(interval, started), before, ms);
    WaitingEventsGetHandled(interval, After(interval, Start(interval, started), before), ms, EnqueuedBy(before));
  }

  // ---- Lost notifies ----

  /** The time that passes while the worker waits. */
  function Elapsed(ms: seq<Step>): nat
  {
    if ms == [] then 0
    else Elapsed(ms[..|ms| - 1]) + if ms[|ms| - 1].Work? then ms[|ms| - 1].elapsed else 0
  }

  /** The wait has no condition: with no notify since it began, and no spurious wakeup, it goes
      on until the tick time even if events are queued. */
  lemma {:induction false} WaitsUntilTick(interval: nat, w: Worker, ms: seq<Step>)
    requires w.place == Waiting(false) && (forall m | m in ms :: m.Work? && !m.spurious)
    requires w.now + Elapsed(ms) < w.nextTick
    ensures After(interval, w, ms) == w.(now := w.now + Elapsed(ms))
    decreases |ms|
  {
    if ms != [] {
      assert ms[|ms| - 1] in ms;
      WaitsUntilTick(interval, w, ms[..|ms| - 1]);
    }
  }

  /** ... and a wait ends exactly on a notify, a spurious wakeup or at the tick time. */
  lemma WaitEndsIff(interval: nat, w: Worker, step: Step)
    requires w.place.Waiting? && step.Work?
    ensures After(interval, w, [step]).place.Popped? <==>
            w.place == Waiting(true) || step.spurious || w.now + step.elapsed >= w.nextTick
    ensures After(interval, w, [step]).now == w.now + step.elapsed
  {
    assert [step][..0] == [];
  }

  /** A notify is seen by a worker that is waiting, and by no other. */
  lemma NotifySeenIff(interval: nat, w: Worker, e: Event)
    ensures var r := After(interval, w, [Enqueue(e)]);
      && (r.place == Waiting(true) <==> w.place.Waiting?)
      && (!w.place.Waiting? ==> r.place == w.place)
      && r == w.(eventQueue := w.eventQueue + [e], place := r.place)
  {
    assert [Enqueue(e)][..0] == [];
  }

  /** A run in which `e` is enqueued while the worker is busy with another event. */
  function NotifyWhileBusy(e: Event): seq<Step>
  {
    var go := Work(0, NoDatabase, false);
    [go, Enqueue(MarketDumpReq), go, Enqueue(e), go, go, go, go]
  }

  lemma AfterNext(interval: nat, w: Worker, ms: seq<Step>, m: Step)
    ensures After(interval, w, ms + [m]) == Moved(interval, After(interval, w, ms), m)
  {
    assert (ms + [m])[..|ms|] == ms;
  }

  /** So a notify can be lost: here the worker begins to wait with an event in its queue, and
      by `WaitsUntilTick` nothing but another event, or the tick time, ends that wait. */
  lemma NotifyLost(interval: nat, started: int, e: Event)
    requires interval > 0
    ensures var w := After(interval, Start(interval, started), NotifyWhileBusy(e));
      w.place == Waiting(false) && w.eventQueue == [e] && w.now < w.nextTick
  {
    var go, w0 := Work(0, NoDatabase, false), Start(interval, started);
    var ms := NotifyWhileBusy(e);
    assert ms == [] + [go] + [Enqueue(MarketDumpReq)] + [go] + [Enqueue(e)] + [go] + [go] + [go] + [go];
    AfterNext(interval, w0, [], go);
    AfterNext(interval, w0, [] + [go], Enqueue(MarketDumpReq));
    AfterNext(interval, w0, [] + [go] + [Enqueue(MarketDumpReq)], go);
    AfterNext(interval, w0, [] + [go] + [Enqueue(MarketDumpReq)] + [go], Enqueue(e));
    var head := [] + [go] + [Enqueue(MarketDumpReq)] + [go] + [Enqueue(e)];
    AfterNext(interval, w0, head, go);
    AfterNext(interval, w0, head + [go], go);
    AfterNext(interval, w0, head + [go] + [go], go);
    AfterNext(interval, w0, head + [go] + [go] + [go], go);
  }

  /** A tick is still to come in an iteration that has handled its event, or has none. */
  function Pending(p: Place): nat
  {
    if p.Acting? || p.Ticking? || (p.Popped? && p.event.None?) then 1 else 0
  }

  lemma TickTakesEvent(interval: nat, w: Worker, step: Step, enqueued: seq<Event>, target: nat)
    requires InOrder(w, enqueued) && target <= |enqueued|
    ensures var r := Moved(interval, w, step);
      |r.handled| >= target || |r.handled| - r.ticks - Pending(r.place) >= |w.handled| - w.ticks - Pending(w.place)
  {
    assert |enqueued| == |w.handled| + |InHand(w.place)| + |w.eventQueue|;
  }

  lemma {:induction false} TicksTakeEvents(interval: nat, w: Worker, ms: seq<Step>, enqueued: seq<Event>, target: nat)
    requires InOrder(w, enqueued) && target <= |enqueued|
    ensures var r := After(interval, w, ms);
      |r.handled| >= target || |r.handled| - r.ticks - Pending(r.place) >= |w.handled| - w.ticks - Pending(w.place)
    decreases |ms|
  {
    if ms != [] {
      var front := ms[..|ms| - 1];
      TicksTakeEvents(interval, w, front, enqueued, target);
      RunKeepsOrder(interval, w, front, enqueued);
      TickTakesEvent(interval, After(interval, w, front), ms[|ms| - 1], enqueued + EnqueuedBy(front), target);
    }
  }

  /** What a lost notify costs: a backlog is taken at one event per tick at worst, so as many
      ticks as there are events (one more in mid-iteration) drain it. */
  lemma TicksDrainBacklog(interval: nat, started: int, before: seq<Step>, ms: seq<Step>)
    requires var w := After(interval, Start(interval, started), before);
      After(interval, Start(interval, started), before + ms).ticks >=
      w.ticks + (|EnqueuedBy(before)| - |w.handled|) + Pending(w.place)
    ensures EnqueuedBy(before) <= Events(After(interval, Start(interval, started), before + ms).handled)
  {
    var w := After(interval, Start(interval, started), before);
    RunIsSequential(interval, started, before);
    AfterAppend(interval, Start(interval, started), before, ms);
    TicksTakeEvents(interval, w, ms, EnqueuedBy(before), |EnqueuedBy(before)|);
    RunKeepsOrder(interval, w, ms, EnqueuedBy(before));
    BacklogCovered(After(interval, w, ms), EnqueuedBy(before), EnqueuedBy(ms));
  }

  lemma BacklogCovered(r: Worker, enqueued: seq<Event>, added: seq<Event>)
    requires InOrder(r, enqueued + added) && |r.handled| >= |enqueued|
    ensures enqueued <= Events(r.handled)
  {
    InOrderCounts(r, enqueued + added);
    HandledCovers(Events(r.handled), InHand(r.place) + r.eventQueue, enqueued, added);
  }

  // ---- Requests and answers ----

  lemma {:induction false} ClientEventsAppend(es: seq<Event>, more: seq<Event>)
    ensures ClientEvents(es + more) == ClientEvents(es) + ClientEvents(more)
    decreases |more|
  {
    if more == [] {
      assert es + more == es;
    } else {
      ClientEventsAppend(es, more[..|more| - 1]);
      assert (es + more)[..|es + more| - 1] == es + more[..|more| - 1];
    }
  }

  lemma InOrderAnswers(w: Worker, enqueued: seq<Event>)
    requires InOrder(w, enqueued)
    ensures var hs := ClientHandled(w.handled);
      && |w.sent| + |w.actionQueue| == |hs| <= |ClientEvents(enqueued)|
      && (forall i | 0 <= i < |hs| :: hs[i].event == ClientEvents(enqueued)[i])
      && (forall i | 0 <= i < |w.sent| :: RightAnswer(hs[i], w.sent[i]))
  {
    OneAnswerPerRequest(w.handled);
    ClientHandledEvents(w.handled);
    InOrderCounts(w, enqueued);
    var hs, done := ClientHandled(w.handled), Events(w.handled);
    ClientEventsAppend(done, InHand(w.place) + w.eventQueue);
    assert |w.sent| <= |w.sent + w.actionQueue| == |hs|;
    forall i | 0 <= i < |hs| ensures hs[i].event == ClientEvents(enqueued)[i] {
      assert hs[i].event == Events(hs)[i] == ClientEvents(done)[i];
    }
    forall i | 0 <= i < |w.sent| ensures RightAnswer(hs[i], w.sent[i]) {
      assert w.sent[i] == (w.sent + w.actionQueue)[i];
    }
  }

  /** In every run the i-th answer sent is the right one for the i-th login, lobby or ping
      request that was enqueued; requests handled and answers sent or about to be sent are
      equal in number. */
  lemma AnswersMatchRequests(interval: nat, started: int, sched: seq<Step>)
    ensures var w := After(interval, Start(interval, started), sched);
      var hs, requests := ClientHandled(w.handled), ClientEvents(EnqueuedBy(sched));
      && |w.sent| + |w.actionQueue| == |hs| <= |requests|
      && (forall i | 0 <= i < |hs| :: hs[i].event == requests[i])
      && (forall i | 0 <= i < |w.sent| :: RightAnswer(hs[i], w.sent[i]))
  {
    RunIsSequential(interval, started, sched);
    InOrderAnswers(After(interval, Start(interval, started), sched), EnqueuedBy(sched));
  }

  /** The database is asked when the event is handled: what it says in that very step decides. */
  lemma {:induction false} LookupOfItsStep(interval: nat, started: int, sched: seq<Step>, i: nat) returns (k: nat)
    requires i < |After(interval, Start(interval, started), sched).handled|
    ensures var h := After(interval, Start(interval, started), sched).handled[i];
      && k < |sched| && sched[k].Work? && sched[k].lookup == h.lookup
      && After(interval, Start(interval, started), sched[..k]).place == Popped(Some(h.event))
      && |After(interval, Start(interval, started), sched[..k]).handled| == i
    decreases |sched|
  {
    var front := sched[..|sched| - 1];
    var w := After(interval, Start(interval, started), front);
    if i < |w.handled| {
      k := LookupOfItsStep(interval, started, front, i);
      assert front[..k] == sched[..k];
    } else {
      k := |front|;
    }
  }

  // ---- The worker object ----

  class ShardWorker {
    const interval: nat
    var place: Place
    var eventQueue: seq<Event>
    var actionQueue: seq<Action>
    var now: int
    var nextTick: int
    var ticks: nat
    var handled: seq<Handled>
    var sent: seq<Action>

    function View(): Worker
      reads this
    {
      Worker(place, eventQueue, actionQueue, now, nextTick, ticks, handled, sent)
    }

    constructor (interval: nat, started: int)
      ensures this.interval == interval && View() == Start(interval, started)
    {
      this.interval := interval;
      place, eventQueue, actionQueue := Top, [], [];
      now, nextTick, ticks := started, started + interval, 0;
      handled, sent := [], [];
    }

    method EnqueueEvent(e: Event)
      modifies this`eventQueue, this`place
      ensures View() == old(View()).(eventQueue := old(eventQueue) + [e], place := Notified(old(place)))
    {
      eventQueue := eventQueue + [e];
      if place.Waiting? { place := Waiting(true); }
    }

    method PopEvent(elapsed: nat)
      modifies this
      ensures View() == Pop(old(View()), elapsed)
    {
      if eventQueue != [] {
        place := Popped(Some(eventQueue[0]));
        eventQueue := eventQueue[1..];
      } else {
        place := Popped(None);
      }
      now := now + elapsed;
    }

    method HandleEvent(lookup: Lookup)
      requires place.Popped?
      modifies this
      ensures View() == HandlePopped(old(View()), lookup)
    {
      if place.event.Some? {
        handled := handled + [Handled(place.event.value, lookup)];
        actionQueue := actionQueue + Answers(place.event.value, lookup);
      }
      place := Acting;
    }

    method RunAction()
      modifies this
      ensures View() == Act(old(View()))
    {
      if actionQueue != [] {
        sent := sent + [actionQueue[0]];
        actionQueue := actionQueue[1..];
      } else {
        place := Ticking;
      }
    }

    method HandleTick()
      modifies this
      ensures View() == Tick(interval, old(View()))
    {
      if now >= nextTick {
        ticks := ticks + 1;
        nextTick := nextTick + interval;
        if now > nextTick + interval {
          nextTick := now + interval;
        }
      }
      place := Top;
    }

    method Move(step: Step)
      modifies this
      ensures View() == Moved(interval, old(View()), step)
    {
      match step
      case Enqueue(e) => EnqueueEvent(e);
      case Work(elapsed, lookup, spurious) =>
        match place
        case Top => place := Waiting(false);
        case Waiting(woken) =>
          if woken || spurious || now + elapsed >= nextTick {
            PopEvent(elapsed);
          } else {
            now := now + elapsed;
          }
        case Popped(_) => HandleEvent(lookup);
        case Acting => RunAction();
        case Ticking => HandleTick();
    }

    /** The worker's loop among enqueuing threads is the fold of its steps. */
    method Run(sched: seq<Step>)
      modifies this
      ensures View() == After(interval, old(View()), sched)
    {
      for i := 0 to |sched|
        invariant View() == After(interval, old(View()), sched[..i])
      {
        assert sched[..i + 1][..i] == sched[..i];
        Move(sched[i]);
      }
      assert sched[..|sched|] == sched;
    }
  }
}
