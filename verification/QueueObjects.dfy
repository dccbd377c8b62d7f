/** The two queues as objects: word-sized counters and a slot array changed in place.
    Each method runs in lockstep with the moves of one thread of the step machines.
    `Mpsc.Enqueue` lets other threads move between any two of its accesses; the other
    methods are shown for calls that nobody interrupts. */
module QueueObjects {
  import opened Words
  import opened MpscQueue
  import opened MpscTheorems
  import Spsc = SpscQueue

  /** Words subtract like the ticket numbers they stand for. */
  lemma WrapSubOfWords(a: nat, b: nat, word: nat)
    requires word > 0
    ensures WrapSub(a % word, b % word, word) == WrapSub(a, b, word)
  {
    var qa, qb := a / word, b / word;
    var d, r := a % word - b % word, WrapSub(a, b, word);
    var q := (a - b) / word;
    assert a == qa * word + a % word;
    assert b == qb * word + b % word;
    assert a - b == q * word + r;
    Distribute(q, qa, qb, word);
    RemainderUnique(d, word, q - qa + qb, r);
  }

  lemma Distribute(x: int, y: int, z: int, w: int)
    ensures (x - y + z) * w == x * w - y * w + z * w
  {
  }

  lemma SuccessorOfWord(a: nat, word: nat)
    requires word > 1
    ensures (a % word + 1) % word == (a + 1) % word
  {
    var q, r := a / word, a % word;
    assert a == q * word + r;
    if r + 1 < word {
      RemainderUnique(a + 1, word, q, r + 1);
      RemainderUnique(r + 1, word, 0, r + 1);
    } else {
      assert (q + 1) * word == q * word + word;
      RemainderUnique(a + 1, word, q + 1, 0);
      RemainderUnique(r + 1, word, 1, 0);
    }
  }

  lemma WordAboveOne(c: Config)
    requires c.Valid()
    ensures c.Word() > 1
  {
    CapBelowWord(c);
  }

  /** The state after some moves from `s`. */
  function StepAll<T>(c: Config, s: State<T>, ms: seq<Move<T>>): (r: State<T>)
    requires Shaped(c, s)
    ensures Shaped(c, r) && |r.producers| == |s.producers|
    decreases |ms|
  {
    if ms == [] then s else Step(c, StepAll(c, s, ms[..|ms| - 1]), ms[|ms| - 1])
  }

  predicate TimelyAll<T>(c: Config, s: State<T>, ms: seq<Move<T>>)
    requires Shaped(c, s)
    decreases |ms|
  {
    ms == [] ||
    (TimelyAll(c, s, ms[..|ms| - 1]) && Timely(c, StepAll(c, s, ms[..|ms| - 1]), ms[|ms| - 1]))
  }

  lemma StepAllNext<T>(c: Config, s: State<T>, ms: seq<Move<T>>, m: Move<T>)
    requires Shaped(c, s)
    ensures StepAll(c, s, ms + [m]) == Step(c, StepAll(c, s, ms), m)
  {
    assert (ms + [m])[..|ms|] == ms;
  }

  lemma {:induction false} StepAllAppend<T>(c: Config, s: State<T>, ms: seq<Move<T>>, more: seq<Move<T>>)
    requires Shaped(c, s)
    ensures StepAll(c, s, ms + more) == StepAll(c, StepAll(c, s, ms), more)
    decreases |more|
  {
    if more == [] {
      assert ms + more == ms;
    } else {
      StepAllAppend(c, s, ms, more[..|more| - 1]);
      StepAllNext(c, s, ms + more[..|more| - 1], more[|more| - 1]);
      assert ms + more[..|more| - 1] + [more[|more| - 1]] == ms + more;
    }
  }

  lemma {:induction false} StepAllKeepsInv<T>(c: Config, s: State<T>, ms: seq<Move<T>>)
    requires Inv(c, s) && TimelyAll(c, s, ms)
    ensures Inv(c, StepAll(c, s, ms))
    decreases |ms|
  {
    if ms != [] {
      StepAllKeepsInv(c, s, ms[..|ms| - 1]);
      StepKeepsInv(c, StepAll(c, s, ms[..|ms| - 1]), ms[|ms| - 1]);
    }
  }

  /** Moves of threads other than producer `p`. */
  ghost predicate ByOthers<T>(ms: seq<Move<T>>, p: nat)
  {
    forall m | m in ms :: !(m.Produce? && m.p == p)
  }

  lemma {:induction false} OthersLeaveProducer<T>(c: Config, s: State<T>, ms: seq<Move<T>>, p: nat)
    requires Shaped(c, s) && p < |s.producers| && ByOthers(ms, p)
    ensures StepAll(c, s, ms).producers[p] == s.producers[p] && StepAll(c, s, ms).logs[p] == s.logs[p]
    decreases |ms|
  {
    if ms != [] {
      assert ms[|ms| - 1] in ms;
      OthersLeaveProducer(c, s, ms[..|ms| - 1], p);
    }
  }

  /** The moves that are not producer `p`'s, in order. */
  function OthersOf<T>(ms: seq<Move<T>>, p: nat): seq<Move<T>>
  {
    if ms == [] then []
    else
      var last := ms[|ms| - 1];
      OthersOf(ms[..|ms| - 1], p) + if last.Produce? && last.p == p then [] else [last]
  }

  lemma {:induction false} OthersAppend<T>(ms: seq<Move<T>>, more: seq<Move<T>>, p: nat)
    requires ByOthers(more, p)
    ensures OthersOf(ms + more, p) == OthersOf(ms, p) + more
    decreases |more|
  {
    if more == [] {
      assert ms + more == ms;
    } else {
      var front, last := more[..|more| - 1], more[|more| - 1];
      assert last in more;
      OthersAppend(ms, front, p);
      assert (ms + more)[..|ms + more| - 1] == ms + front;
      assert OthersOf(ms, p) + front + [last] == OthersOf(ms, p) + more;
    }
  }

  function Flat<T>(gaps: seq<seq<T>>): seq<T>
  {
    if gaps == [] then [] else Flat(gaps[..|gaps| - 1]) + gaps[|gaps| - 1]
  }

  /** The moves in `sched` that are not `p`'s own are the first `i` interruptions, in order. */
  ghost predicate Interleaved<T>(sched: seq<Move<T>>, p: nat, gaps: seq<seq<Move<T>>>, i: nat)
  {
    i <= |gaps| && OthersOf(sched, p) == Flat(gaps[..i])
  }

  lemma GapFits<T>(sched: seq<Move<T>>, p: nat, gaps: seq<seq<Move<T>>>, i: nat)
    requires Interleaved(sched, p, gaps, i) && i < |gaps| && ByOthers(gaps[i], p)
    ensures Interleaved(sched + gaps[i], p, gaps, i + 1)
  {
    OthersAppend(sched, gaps[i], p);
    assert gaps[..i + 1][..i] == gaps[..i];
  }

  /** A step of the producer's own. */
  lemma OwnStep<T>(c: Config, s0: State<T>, sched: seq<Move<T>>, m: Move<T>, gaps: seq<seq<Move<T>>>, i: nat)
    requires Shaped(c, s0) && m.Produce? && Interleaved(sched, m.p, gaps, i)
    ensures StepAll(c, s0, sched + [m]) == Step(c, StepAll(c, s0, sched), m)
    ensures Interleaved(sched + [m], m.p, gaps, i)
  {
    assert (sched + [m])[..|sched|] == sched;
    assert OthersOf(sched + [m], m.p) == OthersOf(sched, m.p) + [];
  }

  /** The log of a producer whose last call has been refused. */
  function Refuse<T>(log: Log<T>): Log<T>
  {
    log.(refused := log.refused + {|log.calls| - 1})
  }

  /** What the compare-exchange does to the word that holds tail. */
  lemma ExchangeOnWords<T>(c: Config, s: State<T>, p: nat, weakFail: bool)
    requires Shaped(c, s) && p < |s.producers| && s.producers[p].SawRoom?
    ensures var w, seen, x := c.Word(), s.producers[p].tail % c.Word(), s.producers[p].item;
      var won := !weakFail && s.tail % w == seen;
      var r := ProducerStep(c, s, p, x, weakFail);
      && r.head == s.head && r.slots == s.slots
      && r.tail % w == (if won then (seen + 1) % w else s.tail % w)
      && r.producers[p] == (if won then Reserved(x, s.tail) else Calling(x))
  {
    WordAboveOne(c);
    SuccessorOfWord(s.tail, c.Word());
  }

  lemma RefusedAloneIffFull<T>(c: Config, s: State<T>)
    requires Inv(c, s)
    ensures Refuses(c, s, s.tail) <==> s.tail == s.head + c.Cap()
  {
    CapBelowWord(c);
    WrapSubExact(s.tail, s.head, c.Word());
  }

  /** One turn of the retry loop that nobody interrupts. */
  function TryAlone<T>(c: Config, s: State<T>, p: nat, item: T, weakFail: bool): (r: State<T>)
    requires Shaped(c, s) && p < |s.producers|
    ensures Shaped(c, r) && |r.producers| == |s.producers|
  {
    var t := ProducerStep(c, ProducerStep(c, s, p, item, false), p, item, false);
    if t.producers[p].Idle? then t else ProducerStep(c, t, p, item, weakFail)
  }

  /** Uninterrupted, the compare-exchange fails only when told to, and then the loop is back
      where it was. */
  lemma TurnsAlone<T>(c: Config, s: State<T>, p: nat, item: T)
    requires Shaped(c, s) && p < |s.producers| && s.producers[p] == Calling(item)
    ensures var r, q := TryAlone(c, s, p, item, true), TryAlone(c, s, p, item, false);
      && (if r.producers[p].Calling? then r == s else r == q)
      && !q.producers[p].Calling?
  {
    var t := ProducerStep(c, ProducerStep(c, s, p, item, false), p, item, false);
    if t.producers[p].SawRoom? {
      assert ProducerStep(c, t, p, item, true).producers == s.producers;
    }
  }

  /** A whole call that nobody interrupts. */
  function CallAlone<T>(c: Config, s: State<T>, p: nat, item: T): State<T>
    requires Shaped(c, s) && p < |s.producers|
  {
    var r := TryAlone(c, ProducerStep(c, s, p, item, false), p, item, false);
    if r.producers[p].Idle? then r
    else ProducerStep(c, ProducerStep(c, r, p, item, false), p, item, false)
  }

  /** Uninterrupted, the compare-exchange is never late and the room test is exact. */
  lemma TryAloneKeepsInv<T>(c: Config, s: State<T>, p: nat, item: T)
    requires Inv(c, s) && p < |s.producers| && s.producers[p] == Calling(item)
    ensures var r := TryAlone(c, s, p, item, false);
      && Inv(c, r)
      && (if s.tail < s.head + c.Cap()
          then r.producers[p] == Reserved(item, s.tail) && r.tickets == s.tickets + [Ticket(p, item)]
          else r.producers[p].Idle?)
  {
    var s1 := ProducerStep(c, s, p, item, false);
    var t := ProducerStep(c, s1, p, item, false);
    LoadKeepsInv(c, s, p, item, false);
    LoadKeepsInv(c, s1, p, item, false);
    RefusedAloneIffFull(c, s);
    if t.producers[p].SawRoom? { CasKeepsInv(c, t, p, item, false); }
  }

  lemma FillAloneKeepsInv<T>(c: Config, s: State<T>, p: nat, item: T)
    requires Inv(c, s) && p < |s.producers| && s.producers[p].Reserved?
    ensures var r := ProducerStep(c, ProducerStep(c, s, p, item, false), p, item, false);
      Inv(c, r) && r.tickets == s.tickets
  {
    FillKeepsInv(c, s, p, item, false);
    FillKeepsInv(c, ProducerStep(c, s, p, item, false), p, item, false);
  }

  lemma CallAloneKeepsInv<T>(c: Config, s: State<T>, p: nat, item: T)
    requires Inv(c, s) && p < |s.producers| && s.producers[p].Idle?
    ensures var r := CallAlone(c, s, p, item);
      && Inv(c, r)
      && (if s.tail < s.head + c.Cap() then r.tickets == s.tickets + [Ticket(p, item)] else r.producers[p].Idle?)
  {
    LoadKeepsInv(c, s, p, item, false);
    var s1 := ProducerStep(c, s, p, item, false);
    TryAloneKeepsInv(c, s1, p, item);
    if s.tail < s.head + c.Cap() { FillAloneKeepsInv(c, TryAlone(c, s1, p, item, false), p, item); }
  }

  class Mpsc<T> {
    const c: Config
    const slots: array<Slot<T>>
    var head: nat
    var tail: nat

    ghost predicate Shows(s: State<T>)
      reads this, slots
    {
      Shaped(c, s) && head == s.head % c.Word() && tail == s.tail % c.Word() && slots[..] == s.slots
    }

    constructor (c: Config, ghost n: nat)
      requires c.Valid()
      ensures this.c == c && fresh(slots) && Shows(Init(c, n))
    {
      this.c := c;
      head, tail := 0, 0;
      var none: Option<T> := None;
      slots := new Slot<T>[Pow2(c.capBits)](_ => Slot(false, none));
    }

    /** The object shows the state that `sched` leads to from `s0`. */
    ghost predicate Follows(s0: State<T>, sched: seq<Move<T>>, s: State<T>)
      reads this, slots
    {
      Shaped(c, s0) && Shows(s) && s == StepAll(c, s0, sched)
    }

    /** What other threads do between two accesses: the next of `gaps`, if any is left. */
    method Others(ghost s0: State<T>, ghost before: seq<Move<T>>, s: State<T>, gaps: seq<seq<Move<T>>>, i: nat,
                  ghost p: nat)
      returns (r: State<T>, i': nat, ghost sched: seq<Move<T>>)
      requires Follows(s0, before, s) && Interleaved(before, p, gaps, i) && p < |s.producers|
      requires forall g | g in gaps :: ByOthers(g, p)
      modifies this, slots
      ensures Follows(s0, sched, r) && Interleaved(sched, p, gaps, i')
      ensures |r.producers| == |s.producers| && r.producers[p] == s.producers[p] && r.logs[p] == s.logs[p]
      ensures if i < |gaps| then i' == i + 1 else i' == i && r == s
    {
      if i == |gaps| { return s, i, before; }
      assert gaps[i] in gaps;
      OthersLeaveProducer(c, s, gaps[i], p);
      StepAllAppend(c, s0, before, gaps[i]);
      GapFits(before, p, gaps, i);
      r, i', sched := StepAll(c, s, gaps[i]), i + 1, before + gaps[i];
      head, tail := r.head % c.Word(), r.tail % c.Word();
      forall j | 0 <= j < slots.Length {
        slots[j] := r.slots[j];
      }
    }

    /** The load of tail. */
    method LoadTail(item: T, p: nat, ghost s0: State<T>, ghost before: seq<Move<T>>, s: State<T>,
                    gaps: seq<seq<Move<T>>>, i: nat)
      returns (seen: nat, r: State<T>, i': nat, ghost sched: seq<Move<T>>)
      requires Follows(s0, before, s) && Interleaved(before, p, gaps, i)
      requires p < |s.producers| && s.producers[p] == Calling(item)
      requires forall g | g in gaps :: ByOthers(g, p)
      modifies this, slots
      ensures Follows(s0, sched, r) && Interleaved(sched, p, gaps, i') && |r.producers| == |s.producers|
      ensures r.logs[p] == s.logs[p]
      ensures r.producers[p].SawTail? && r.producers[p].item == item && r.producers[p].tail % c.Word() == seen
      ensures if i < |gaps| then i < i' <= |gaps| else i' == i && r == ProducerStep(c, s, p, item, false)
    {
      r, i', sched := Others(s0, before, s, gaps, i, p);
      seen := tail;
      OwnStep(c, s0, sched, Produce(p, item, false), gaps, i');
      r, sched := ProducerStep(c, r, p, item, false), sched + [Produce(p, item, false)];
    }

    /** The load of head and the test for room. */
    method LoadHead(item: T, p: nat, seen: nat, ghost s0: State<T>, ghost before: seq<Move<T>>, s: State<T>,
                    gaps: seq<seq<Move<T>>>, i: nat)
      returns (full: bool, r: State<T>, i': nat, ghost sched: seq<Move<T>>)
      requires Follows(s0, before, s) && Interleaved(before, p, gaps, i) && p < |s.producers|
      requires s.producers[p].SawTail? && s.producers[p].item == item && s.producers[p].tail % c.Word() == seen
      requires forall g | g in gaps :: ByOthers(g, p)
      modifies this, slots
      ensures Follows(s0, sched, r) && Interleaved(sched, p, gaps, i') && |r.producers| == |s.producers|
      ensures r.producers[p] == if full then Idle else SawRoom(item, s.producers[p].tail)
      ensures r.logs[p] == if full then Refuse(s.logs[p]) else s.logs[p]
      ensures if i < |gaps| then i < i' <= |gaps| else i' == i && r == ProducerStep(c, s, p, item, false)
    {
      r, i', sched := Others(s0, before, s, gaps, i, p);
      WrapSubOfWords(s.producers[p].tail, r.head, c.Word());
      full := WrapSub(seen, head, c.Word()) >= c.Cap();
      OwnStep(c, s0, sched, Produce(p, item, false), gaps, i');
      r, sched := ProducerStep(c, r, p, item, false), sched + [Produce(p, item, false)];
    }

    /** The weak compare-exchange of tail. */
    method CompareExchange(item: T, p: nat, seen: nat, weakFail: bool, ghost s0: State<T>,
                           ghost before: seq<Move<T>>, s: State<T>, gaps: seq<seq<Move<T>>>, i: nat)
      returns (won: bool, r: State<T>, i': nat, ghost sched: seq<Move<T>>)
      requires Follows(s0, before, s) && Interleaved(before, p, gaps, i) && p < |s.producers|
      requires s.producers[p].SawRoom? && s.producers[p].item == item && s.producers[p].tail % c.Word() == seen
      requires forall g | g in gaps :: ByOthers(g, p)
      modifies this, slots
      ensures Follows(s0, sched, r) && Interleaved(sched, p, gaps, i') && |r.producers| == |s.producers|
      ensures r.logs[p] == s.logs[p]
      ensures !won ==> r.producers[p] == Calling(item)
      ensures won ==> r.producers[p].Reserved? && r.producers[p].item == item
      ensures won ==> r.producers[p].ticket % c.Word() == seen
      ensures if i < |gaps| then i < i' <= |gaps| else i' == i && r == ProducerStep(c, s, p, item, weakFail)
    {
      r, i', sched := Others(s0, before, s, gaps, i, p);
      ExchangeOnWords(c, r, p, weakFail);
      won := !weakFail && tail == seen;
      if won {
        tail := (seen + 1) % c.Word();
      }
      OwnStep(c, s0, sched, Produce(p, item, weakFail), gaps, i');
      r, sched := ProducerStep(c, r, p, item, weakFail), sched + [Produce(p, item, weakFail)];
    }

    /** One turn of the retry loop. */
    method Attempt(item: T, p: nat, weakFail: bool, ghost s0: State<T>, ghost before: seq<Move<T>>, s: State<T>,
                   gaps: seq<seq<Move<T>>>, i: nat)
      returns (full: bool, won: bool, seen: nat, r: State<T>, i': nat, ghost sched: seq<Move<T>>)
      requires Follows(s0, before, s) && Interleaved(before, p, gaps, i)
      requires p < |s.producers| && s.producers[p] == Calling(item)
      requires forall g | g in gaps :: ByOthers(g, p)
      modifies this, slots
      ensures Follows(s0, sched, r) && Interleaved(sched, p, gaps, i') && |r.producers| == |s.producers|
      ensures full ==> !won && r.producers[p].Idle?
      ensures r.logs[p] == if full then Refuse(s.logs[p]) else s.logs[p]
      ensures won ==> r.producers[p].Reserved? && r.producers[p].item == item
      ensures won ==> r.producers[p].ticket % c.Word() == seen
      ensures !full && !won ==> r.producers[p] == Calling(item)
      ensures if i < |gaps| then i < i' <= |gaps| else i' == i && r == TryAlone(c, s, p, item, weakFail)
    {
      seen, r, i', sched := LoadTail(item, p, s0, before, s, gaps, i);
      full, r, i', sched := LoadHead(item, p, seen, s0, sched, r, gaps, i');
      won := false;
      if !full {
        won, r, i', sched := CompareExchange(item, p, seen, weakFail, s0, sched, r, gaps, i');
      }
    }

    /** The retry loop. */
    method Reserve(item: T, p: nat, weakFails: nat, ghost s0: State<T>, ghost before: seq<Move<T>>, s: State<T>,
                   gaps: seq<seq<Move<T>>>)
      returns (ok: bool, seen: nat, r: State<T>, i: nat, ghost sched: seq<Move<T>>)
      requires Follows(s0, before, s) && Interleaved(before, p, gaps, 0)
      requires p < |s.producers| && s.producers[p] == Calling(item)
      requires forall g | g in gaps :: ByOthers(g, p)
      modifies this, slots
      ensures Follows(s0, sched, r) && Interleaved(sched, p, gaps, i) && |r.producers| == |s.producers|
      ensures !ok ==> r.producers[p].Idle?
      ensures r.logs[p] == if ok then s.logs[p] else Refuse(s.logs[p])
      ensures ok ==> r.producers[p].Reserved? && r.producers[p].item == item
      ensures ok ==> seen == r.producers[p].ticket % c.Word()
      ensures gaps == [] ==> r == TryAlone(c, s, p, item, false)
    {
      var fails, full := weakFails, false;
      r, i, sched, ok, seen := s, 0, before, false, 0;
      TurnsAlone(c, s, p, item);
      while !full && !ok
        invariant Follows(s0, sched, r) && Interleaved(sched, p, gaps, i)
        invariant |r.producers| == |s.producers| && r.logs[p] == if full then Refuse(s.logs[p]) else s.logs[p]
        invariant full ==> !ok && r.producers[p].Idle?
        invariant ok ==> r.producers[p].Reserved? && r.producers[p].item == item
        invariant ok ==> seen == r.producers[p].ticket % c.Word()
        invariant !full && !ok ==> r.producers[p] == Calling(item)
        invariant gaps == [] ==> r == if !full && !ok then s else TryAlone(c, s, p, item, false)
        decreases |gaps| - i, fails, !full && !ok
      {
        full, ok, seen, r, i, sched := Attempt(item, p, fails > 0, s0, sched, r, gaps, i);
        fails := if fails > 0 then fails - 1 else fails;
      }
    }

    /** The write of the slot's pointer. */
    method StorePointer(item: T, p: nat, seen: nat, ghost s0: State<T>, ghost before: seq<Move<T>>, s: State<T>,
                        gaps: seq<seq<Move<T>>>, i: nat)
      returns (r: State<T>, i': nat, ghost sched: seq<Move<T>>)
      requires Follows(s0, before, s) && Interleaved(before, p, gaps, i) && p < |s.producers|
      requires s.producers[p].Reserved? && s.producers[p].item == item && seen == s.producers[p].ticket % c.Word()
      requires forall g | g in gaps :: ByOthers(g, p)
      modifies this, slots
      ensures Follows(s0, sched, r) && Interleaved(sched, p, gaps, i') && |r.producers| == |s.producers|
      ensures r.producers[p] == Written(item, s.producers[p].ticket) && r.logs[p] == s.logs[p]
      ensures if i < |gaps| then i < i' <= |gaps| else i' == i && r == ProducerStep(c, s, p, item, false)
    {
      var idx := BitAnd(seen, c.Cap() - 1);
      assert idx == Index(c, s.producers[p].ticket);
      r, i', sched := Others(s0, before, s, gaps, i, p);
      slots[idx] := slots[idx].(ptr := Some(item));
      OwnStep(c, s0, sched, Produce(p, item, false), gaps, i');
      r, sched := ProducerStep(c, r, p, item, false), sched + [Produce(p, item, false)];
    }

    /** The store that marks the slot ready. */
    method StoreReady(item: T, p: nat, seen: nat, ghost s0: State<T>, ghost before: seq<Move<T>>, s: State<T>,
                      gaps: seq<seq<Move<T>>>, i: nat)
      returns (r: State<T>, i': nat, ghost sched: seq<Move<T>>)
      requires Follows(s0, before, s) && Interleaved(before, p, gaps, i) && p < |s.producers|
      requires s.producers[p].Written? && s.producers[p].item == item && seen == s.producers[p].ticket % c.Word()
      requires forall g | g in gaps :: ByOthers(g, p)
      modifies this, slots
      ensures Follows(s0, sched, r) && Interleaved(sched, p, gaps, i') && |r.producers| == |s.producers|
      ensures r.producers[p] == Published(item, s.producers[p].ticket) && r.logs[p] == s.logs[p]
      ensures if i < |gaps| then i < i' <= |gaps| else i' == i && r == ProducerStep(c, s, p, item, false)
    {
      var idx := BitAnd(seen, c.Cap() - 1);
      assert idx == Index(c, s.producers[p].ticket);
      r, i', sched := Others(s0, before, s, gaps, i, p);
      slots[idx] := slots[idx].(ready := true);
      OwnStep(c, s0, sched, Produce(p, item, false), gaps, i');
      r, sched := ProducerStep(c, r, p, item, false), sched + [Produce(p, item, false)];
    }

    /** The two writes of the reserved slot. */
    method Fill(item: T, p: nat, seen: nat, ghost s0: State<T>, ghost before: seq<Move<T>>, s: State<T>,
                gaps: seq<seq<Move<T>>>, i: nat)
      returns (r: State<T>, i': nat, ghost sched: seq<Move<T>>)
      requires Follows(s0, before, s) && Interleaved(before, p, gaps, i) && p < |s.producers|
      requires s.producers[p].Reserved? && s.producers[p].item == item && seen == s.producers[p].ticket % c.Word()
      requires forall g | g in gaps :: ByOthers(g, p)
      modifies this, slots
      ensures Follows(s0, sched, r) && Interleaved(sched, p, gaps, i') && |r.producers| == |s.producers|
      ensures r.producers[p] == Published(item, s.producers[p].ticket) && r.logs[p] == s.logs[p]
      ensures gaps == [] ==> r == ProducerStep(c, ProducerStep(c, s, p, item, false), p, item, false)
    {
      r, i', sched := StorePointer(item, p, seen, s0, before, s, gaps, i);
      r, i', sched := StoreReady(item, p, seen, s0, sched, r, gaps, i');
    }

    method Call(item: T, p: nat, weakFails: nat, s: State<T>, gaps: seq<seq<Move<T>>>)
      returns (ok: bool, r: State<T>, used: nat, ghost sched: seq<Move<T>>)
      requires Shows(s) && p < |s.producers| && s.producers[p].Idle?
      requires forall g | g in gaps :: ByOthers(g, p)
      modifies this, slots
      ensures Follows(s, sched, r) && Interleaved(sched, p, gaps, used) && |r.producers| == |s.producers|
      ensures r.logs[p].calls == s.logs[p].calls + [item]
      ensures r.logs[p].refused == s.logs[p].refused + if ok then {} else {|s.logs[p].calls|}
      ensures if ok then r.producers[p].Published? && r.producers[p].item == item else r.producers[p].Idle?
      ensures gaps == [] ==> r == CallAlone(c, s, p, item)
    {
      var seen := 0;
      r, sched := ProducerStep(c, s, p, item, false), [] + [Produce(p, item, false)];
      OwnStep(c, s, [], Produce(p, item, false), gaps, 0);
      ok, seen, r, used, sched := Reserve(item, p, weakFails, s, sched, r, gaps);
      if ok {
        r, used, sched := Fill(item, p, seen, s, sched, r, gaps, used);
      }
    }

    /** `enqueue` by producer `p`, whose weak compare-exchange fails `weakFails` times,
        while other threads do what `gaps` says between its accesses.  Whatever they do,
        the call is the producer's part of a run of the step machine whose other moves are
        the first `used` interruptions, so all that is proved of timely runs holds of it; it
        counts as one call, refused exactly if it returns false.  A call that nobody
        interrupts is always timely. */
    method Enqueue(item: T, p: nat, weakFails: nat, s: State<T>, gaps: seq<seq<Move<T>>>)
      returns (ok: bool, r: State<T>, used: nat, ghost sched: seq<Move<T>>)
      requires Shows(s) && Inv(c, s) && p < |s.producers| && s.producers[p].Idle?
      requires forall g | g in gaps :: ByOthers(g, p)
      modifies this, slots
      ensures Follows(s, sched, r) && Interleaved(sched, p, gaps, used)
      ensures gaps == [] || TimelyAll(c, s, sched) ==> Inv(c, r)
      ensures |r.producers| == |s.producers|
      ensures r.logs[p].calls == s.logs[p].calls + [item]
      ensures r.logs[p].refused == s.logs[p].refused + if ok then {} else {|s.logs[p].calls|}
      ensures if ok then r.producers[p].Published? && r.producers[p].item == item else r.producers[p].Idle?
      ensures gaps == [] ==> (ok <==> s.tail < s.head + c.Cap())
      ensures gaps == [] && ok ==> r.tickets == s.tickets + [Ticket(p, item)]
    {
      ok, r, used, sched := Call(item, p, weakFails, s, gaps);
      if gaps == [] {
        CallAloneKeepsInv(c, s, p, item);
      } else if TimelyAll(c, s, sched) {
        StepAllKeepsInv(c, s, sched);
      }
    }

    /** One turn of the scan: the slot at the local head is tested and, if ready, emptied. */
    method TakeNext(h: nat, ghost s: State<T>) returns (ready: bool, ptr: Option<T>, ghost r: State<T>)
      requires Shows(s) && Inv(c, s) && s.consumer.Testing? && h == Scan(s) % c.Word()
      modifies slots
      ensures Shows(r) && Inv(c, r) && Beside(s, r)
      ensures ready ==> r.consumer == Testing(s.consumer.start, Scan(s) + 1, Batch(s) + [ptr])
      ensures ready ==> StepsLeft(c, r) < StepsLeft(c, s)
      ensures !ready ==> r.consumer == Publishing(s.consumer.start, Scan(s), Batch(s))
      ensures !ready ==> !r.slots[Index(c, Scan(s))].ready
    {
      var idx := BitAnd(h, c.Cap() - 1);
      assert idx == Index(c, Scan(s));
      ptr := slots[idx].ptr;
      ready := slots[idx].ready;
      TestKeepsInv(c, s);
      r := ConsumerStep(c, s);
      if ready {
        TakeInThreeSteps(c, s);
        r := ConsumerStep(c, ConsumerStep(c, r));
        slots[idx] := slots[idx].(ptr := None);
        slots[idx] := slots[idx].(ready := false);
      }
    }

    /** The scan: takes ready slots until one is not. */
    method ScanReady(start: nat, ghost s: State<T>) returns (out: seq<Option<T>>, h: nat, ghost r: State<T>)
      requires Shows(s) && Inv(c, s) && s.consumer.Testing? && Batch(s) == [] && start == Scan(s) % c.Word()
      modifies slots
      ensures Shows(r) && Inv(c, r) && Beside(s, r) && r.consumer.Publishing? && !r.slots[Index(c, Scan(r))].ready
      ensures h == Scan(r) % c.Word() && out == Batch(r)
    {
      out, h, r := [], start, s;
      WordAboveOne(c);
      while true
        invariant Shows(r) && Inv(c, r) && r.consumer.Testing? && Beside(s, r)
        invariant h == Scan(r) % c.Word() && out == Batch(r)
        decreases StepsLeft(c, r)
      {
        SuccessorOfWord(Scan(r), c.Word());
        var ready, ptr, next := TakeNext(h, r);
        r := next;
        if !ready { return; }
        out := out + [ptr];
        h := (h + 1) % c.Word();
      }
    }

    /** The store of head, if the scan has taken anything. */
    method Publish(h: nat, start: nat, ghost s: State<T>) returns (ghost r: State<T>)
      requires Shows(s) && Inv(c, s) && s.consumer.Publishing?
      requires h == Scan(s) % c.Word() && start == s.head % c.Word()
      modifies this
      ensures Shows(r) && r == ConsumerStep(c, s)
    {
      PublishedHead(c, s, h, start);
      r := ConsumerStep(c, s);
      if h != start {
        head := h;
      }
    }

    /** `dequeueAll`, by the reactor after it has drained the eventfd: everything from
        the front up to the first ticket that is not ready. */
    method DequeueAll(ghost s: State<T>) returns (out: seq<Option<T>>, ghost r: State<T>)
      requires Shows(s) && Inv(c, s) && s.consumer.Loading?
      modifies this, slots
      ensures Shows(r) && Inv(c, r) && r.consumer.Waiting?
      ensures r.tail == s.tail && r.tickets == s.tickets && r.producers == s.producers
      ensures s.head <= r.head <= s.tail && out == Items(s.tickets[s.head..r.head])
      ensures !r.slots[Index(c, r.head)].ready
    {
      var start := head;
      IdleKeepsInv(c, s);
      var h;
      out, h, r := ScanReady(start, ConsumerStep(c, s));
      PublishKeepsInv(c, r);
      PublishesBatch(c, r);
      r := Publish(h, start, r);
    }
  }

  lemma PublishesBatch<T>(c: Config, s: State<T>)
    requires Inv(c, s) && s.consumer.Publishing?
    ensures var r := ConsumerStep(c, s);
      r.head == Scan(s) && s.head <= Scan(s) <= s.tail && Batch(s) == Items(s.tickets[s.head..Scan(s)])
  {
  }

  /** The three consumer steps on a ready slot, taken together. */
  lemma TakeInThreeSteps<T>(c: Config, s: State<T>)
    requires Inv(c, s) && s.consumer.Testing? && s.slots[Index(c, Scan(s))].ready
    ensures var i := Index(c, Scan(s));
      var r := ConsumerStep(c, ConsumerStep(c, ConsumerStep(c, s)));
      && Inv(c, r) && StepsLeft(c, r) < StepsLeft(c, s)
      && r == s.(slots := s.slots[i := Slot(false, None)],
                 consumer := Testing(s.consumer.start, Scan(s) + 1, Batch(s) + [s.slots[i].ptr]))
  {
    var r1 := ConsumerStep(c, s);
    TestKeepsInv(c, s);
    var r2 := ConsumerStep(c, r1);
    TakeKeepsInv(c, r1);
    var r3 := ConsumerStep(c, r2);
    ClearKeepsInv(c, r2);
    assert r3.slots == s.slots[Index(c, Scan(s)) := Slot(false, None)];
  }

  /** Nothing but slots and the consumer differs. */
  ghost predicate Beside<T>(s: State<T>, r: State<T>)
  {
    && r.head == s.head && r.tail == s.tail && r.tickets == s.tickets && r.producers == s.producers
    && r.delivered == s.delivered && r.logs == s.logs && r.wakeups == s.wakeups
  }

  /** Comparing words tells whether the scan moved at all. */
  lemma PublishedHead<T>(c: Config, s: State<T>, h: nat, start: nat)
    requires Inv(c, s) && s.consumer.Publishing?
    requires h == Scan(s) % c.Word() && start == s.head % c.Word()
    ensures h == start <==> Scan(s) == s.head
  {
    if Scan(s) != s.head {
      CapBelowWord(c);
      RemaindersDiffer(s.head, Scan(s), c.Word());
    }
  }

  /** The queue between a reactor and a worker. */
  class Pipe<T> {
    const c: Config
    const slots: array<Option<T>>
    var head: nat
    var tail: nat

    ghost predicate Shows(s: Spsc.Pipe<T>)
      reads this, slots
    {
      Spsc.Formed(c, s) && head == s.head % c.Word() && tail == s.tail % c.Word() && slots[..] == s.slots
    }

    constructor (c: Config)
      requires Spsc.Fits(c)
      ensures this.c == c && fresh(slots) && Shows(Spsc.Start(c))
    {
      this.c := c;
      head, tail := 0, 0;
      var none: Option<T> := None;
      slots := new Option<T>[Pow2(c.capBits)](_ => none);
    }

    /** `enqueue` by the reactor: appends, or refuses when full. */
    method Enqueue(item: T, ghost s: Spsc.Pipe<T>) returns (ok: bool, ghost r: Spsc.Pipe<T>)
      requires Shows(s) && Spsc.PipeInv(c, s) && s.sender.Free?
      modifies this, slots
      ensures Shows(r) && Spsc.PipeInv(c, r)
      ensures ok <==> |Spsc.Queue(s)| < c.Cap()
      ensures Spsc.Queue(r) == if ok then Spsc.Queue(s) + [item] else Spsc.Queue(s)
      ensures r.worker == s.worker && r.handled == s.handled
      ensures if ok then r.sender == Spsc.Linked(item) else r.sender.Free?
    {
      WordAboveOne(c);
      Spsc.DifferencesFit(c);
      SuccessorOfWord(s.tail, c.Word());
      WrapSubOfWords(s.tail + 1, s.head, c.Word());
      WrapSubExact(s.tail + 1, s.head, c.Word());
      Spsc.SenderKeepsInv(c, s, item);
      r := Spsc.SenderStep(c, s, item);
      var seen := tail;
      Spsc.SenderKeepsInv(c, r, item);
      r := Spsc.SenderStep(c, r, item);
      var next := (seen + 1) % c.Word();
      Spsc.SenderKeepsInv(c, r, item);
      r := Spsc.SenderStep(c, r, item);
      if WrapSub(next, head, c.Word()) > c.Cap() {
        return false, r;
      }
      r := Link(item, seen, next, r);
      ok := true;
    }

    /** The write of the reserved slot and the store of tail. */
    method Link(item: T, seen: nat, next: nat, ghost s: Spsc.Pipe<T>) returns (ghost r: Spsc.Pipe<T>)
      requires Shows(s) && Spsc.PipeInv(c, s) && s.sender == Spsc.GotRoom(item, s.tail)
      requires seen == s.tail % c.Word() && next == (s.tail + 1) % c.Word()
      modifies this, slots
      ensures Shows(r) && Spsc.PipeInv(c, r)
      ensures Spsc.Queue(r) == Spsc.Queue(s) + [item]
      ensures r.worker == s.worker && r.handled == s.handled && r.sender == Spsc.Linked(item)
    {
      var idx := BitAnd(seen, c.Cap() - 1);
      assert idx == Index(c, s.tail);
      slots[idx] := Some(item);
      Spsc.SenderKeepsInv(c, s, item);
      r := Spsc.SenderStep(c, s, item);
      tail := next;
      Spsc.SenderKeepsInv(c, r, item);
      r := Spsc.SenderStep(c, r, item);
    }

    /** `dequeue` by the worker: the front item, or null when empty. */
    method Dequeue(ghost s: Spsc.Pipe<T>) returns (item: Option<T>, ghost r: Spsc.Pipe<T>)
      requires Shows(s) && Spsc.PipeInv(c, s) && s.worker.Dequeuing?
      modifies this, slots
      ensures Shows(r) && Spsc.PipeInv(c, r)
      ensures r.sender == s.sender && r.log == s.log
      ensures Spsc.Queue(s) == [] ==> item == None && r.worker.Sleeping? && Spsc.Queue(r) == []
      ensures Spsc.Queue(s) != [] ==> item == Some(Spsc.Queue(s)[0]) && Spsc.Queue(r) == Spsc.Queue(s)[1..]
      ensures Spsc.Queue(s) != [] ==> r.worker.Dequeuing? && r.handled == s.handled + [item]
    {
      WordAboveOne(c);
      Spsc.DifferencesFit(c);
      SuccessorOfWord(s.head, c.Word());
      Spsc.WorkerKeepsInv(c, s);
      r := Spsc.WorkerStep(c, s);
      var seen := head;
      Spsc.WorkerKeepsInv(c, r);
      if s.head != s.tail { RemaindersDiffer(s.head, s.tail, c.Word()); }
      r := Spsc.WorkerStep(c, r);
      if seen == tail {
        return None, r;
      }
      var idx := BitAnd(seen, c.Cap() - 1);
      assert idx == Index(c, s.head);
      item := slots[idx];
      slots[idx] := None;
      Spsc.WorkerKeepsInv(c, r);
      r := Spsc.WorkerStep(c, r);
      head := (seen + 1) % c.Word();
      Spsc.WorkerKeepsInv(c, r);
      r := Spsc.WorkerStep(c, r);
    }
  }
}
