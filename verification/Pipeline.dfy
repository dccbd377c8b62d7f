/** From byte streams to shards: reactor, per-worker queue, router and shard queue of
    the TCP path, with every thread free to run at any time. */
module Pipeline {
  import opened Bytes
  import opened Framing
  import opened Sessions
  import opened Shard
  import opened Routing
  import opened Wire

  /** A frame on its way, with its position in its connection's stream. */
  datatype Item = Item(from: Origin, index: nat, frame: seq<Byte>)

  datatype Arrival = Arrival(item: Item, sid: nat, event: Event)

  datatype State = State(
    streams: map<nat, seq<Byte>>,      // all bytes received so far, by descriptor
    queues: seq<seq<Item>>,            // one per worker
    table: Table,
    shards: seq<seq<Arrival>>,         // everything ever enqueued to each shard
    overflowed: seq<Item>,             // found their worker's queue full
    rejected: seq<Item>)               // refused by the parser, the table or the event factory

  const QUEUE_SIZE := 65536

  datatype Step =
    | Receive(from: Origin, chunk: seq<Byte>)    // the reactor gets bytes on a connection
    | Deliver(worker: nat, newId: nat)           // a worker dequeues and routes one packet
    | Manage(op: Op)                             // the transmit side updates the session table

  function Stream(s: State, fd: nat): seq<Byte>
  {
    if fd in s.streams then s.streams[fd] else []
  }

  function FramesOf(s: State, fd: nat): seq<seq<Byte>>
  {
    Cut(PACKET, Stream(s, fd)).frames
  }

  /** The frames that `chunk` completes on a connection. */
  function Completed(s: State, fd: nat, chunk: seq<Byte>): seq<seq<Byte>>
  {
    Cut(PACKET, Cut(PACKET, Stream(s, fd)).rest + chunk).frames
  }

  /** The worker that serves a connection. */
  function WorkerOf(fd: nat, workers: nat): (w: nat)
    requires workers > 0
    ensures w < workers
  {
    fd % workers
  }

  predicate Formed(s: State) { |s.queues| > 0 && |s.shards| > 0 }

  /** `enqueueRx`: a full queue drops the packet. */
  function Push(s: State, item: Item): (r: State)
    requires Formed(s)
    ensures Formed(r) && |r.queues| == |s.queues| && |r.shards| == |s.shards|
  {
    var w := WorkerOf(item.from.fd, |s.queues|);
    if |s.queues[w]| < QUEUE_SIZE then s.(queues := s.queues[w := s.queues[w] + [item]])
    else s.(overflowed := s.overflowed + [item])
  }

  /** Enqueues the frames numbered `first` and up, in order. */
  function PushAll(s: State, from: Origin, frames: seq<seq<Byte>>, first: nat): (r: State)
    requires Formed(s)
    ensures Formed(r) && |r.queues| == |s.queues| && |r.shards| == |s.shards|
    decreases |frames|
  {
    if frames == [] then s
    else
      var r := PushAll(s, from, frames[..|frames| - 1], first);
      Push(r, Item(from, first + |frames| - 1, frames[|frames| - 1]))
  }

  function Pop(s: State, w: nat): State
    requires w < |s.queues| && s.queues[w] != []
  {
    s.(queues := s.queues[w := s.queues[w][1..]])
  }

  function Arrive(s: State, k: nat, a: Arrival): State
    requires k < |s.shards|
  {
    s.(shards := s.shards[k := s.shards[k] + [a]])
  }

  ghost function Next(s: State, a: Step): (r: State)
    requires Formed(s)
    ensures Formed(r) && |r.queues| == |s.queues| && |r.shards| == |s.shards|
  {
    match a
    case Receive(from, chunk) =>
      PushAll(Grow(s, from.fd, chunk), from, Completed(s, from.fd, chunk), |FramesOf(s, from.fd)|)
    case Deliver(w, newId) =>
      if w >= |s.queues| || s.queues[w] == [] || newId == 0 then s
      else
        var item := s.queues[w][0];
        var r := Route(s.table, item.from, item.frame, newId, |s.shards|);
        var s' := Pop(s, w).(table := r.table);
        if r.routed.None? then s'.(rejected := s'.rejected + [item])
        else Arrive(s', r.routed.value.shard, Arrival(item, r.routed.value.sid, r.routed.value.event))
    case Manage(op) => s.(table := Apply(s.table, op))
  }

  function Start(workers: nat, shards: nat): State
  {
    State(map[], seq(workers, _ => []), EMPTY, seq(shards, _ => []), [], [])
  }

  ghost function Run(workers: nat, shards: nat, steps: seq<Step>): (r: State)
    requires workers > 0 && shards > 0
    ensures Formed(r) && |r.queues| == workers && |r.shards| == shards
  {
    if steps == [] then Start(workers, shards)
    else Next(Run(workers, shards, steps[..|steps| - 1]), steps[|steps| - 1])
  }

  // ---- Order ----

  /** The item is the frame at its position in its connection's stream. */
  ghost predicate Genuine(s: State, x: Item)
  {
    x.index < |FramesOf(s, x.from.fd)| && x.frame == FramesOf(s, x.from.fd)[x.index]
  }

  /** The arrival is what its frame says: the event of that packet, for the session the packet
      names, unless it opens a new one. */
  ghost predicate Meant(a: Arrival)
  {
    Parse(a.item.frame).Some? &&
    (var p := Parse(a.item.frame).value;
     (OpensSession(p) || a.sid == p.sessionId) &&
     EventOf(p, a.sid).Some? && EventOf(p, a.sid).value == a.event)
  }

  /** `x` may come before `y`: if they are of one connection, it is earlier there. */
  predicate Before(x: Item, y: Item)
  {
    x.from.fd == y.from.fd ==> x.index < y.index
  }

  ghost predicate QueueOk(s: State, w: nat)
    requires w < |s.queues|
  {
    var q := s.queues[w];
    && (forall i | 0 <= i < |q| :: Genuine(s, q[i]) && WorkerOf(q[i].from.fd, |s.queues|) == w)
    && (forall i, j | 0 <= i < j < |q| :: Before(q[i], q[j]))
  }

  ghost predicate ShardOk(s: State, k: nat)
    requires Formed(s) && k < |s.shards|
  {
    var a := s.shards[k];
    && (forall i | 0 <= i < |a| ::
          Genuine(s, a[i].item) && Meant(a[i]) && SelectShard(a[i].sid, |s.shards|) == k)
    && (forall i, j | 0 <= i < j < |a| :: Before(a[i].item, a[j].item))
  }

  /** Everything already at a shard is earlier than what is still queued. */
  ghost predicate Crossing(s: State, k: nat, w: nat)
    requires k < |s.shards| && w < |s.queues|
  {
    forall i, j | 0 <= i < |s.shards[k]| && 0 <= j < |s.queues[w]| ::
      Before(s.shards[k][i].item, s.queues[w][j])
  }

  ghost predicate Inv(s: State)
  {
    && Formed(s)
    && (forall w: nat | w < |s.queues| :: QueueOk(s, w))
    && (forall k: nat | k < |s.shards| :: ShardOk(s, k))
    && (forall k: nat, w: nat | k < |s.shards| && w < |s.queues| :: Crossing(s, k, w))
  }

  /** Every known item of connection `fd` has a position below `bound`. */
  ghost predicate Below(s: State, fd: nat, bound: nat)
  {
    && (forall w: nat, i | w < |s.queues| && 0 <= i < |s.queues[w]| && s.queues[w][i].from.fd == fd ::
          s.queues[w][i].index < bound)
    && (forall k: nat, i | k < |s.shards| && 0 <= i < |s.shards[k]| && s.shards[k][i].item.from.fd == fd ::
          s.shards[k][i].item.index < bound)
  }

  lemma SameStreams(s: State, r: State)
    requires r.streams == s.streams
    ensures forall x :: Genuine(r, x) <==> Genuine(s, x)
  {
    forall x ensures Genuine(r, x) <==> Genuine(s, x) {
      assert Stream(r, x.from.fd) == Stream(s, x.from.fd);
    }
  }

  lemma PushKeepsBelow(s: State, item: Item)
    requires Formed(s) && Below(s, item.from.fd, item.index)
    ensures Below(Push(s, item), item.from.fd, item.index + 1)
    ensures Push(s, item).streams == s.streams && Push(s, item).shards == s.shards
  {
  }

  lemma PushKeepsQueues(s: State, item: Item)
    requires Inv(s) && Genuine(s, item) && Below(s, item.from.fd, item.index)
    ensures forall w: nat | w < |s.queues| :: QueueOk(Push(s, item), w)
  {
    var r := Push(s, item);
    SameStreams(s, r);
    forall w: nat | w < |r.queues| ensures QueueOk(r, w) {
      assert QueueOk(s, w);
      if r.queues[w] != s.queues[w] {
        assert r.queues[w] == s.queues[w] + [item];
        forall i | 0 <= i < |s.queues[w]| ensures Before(s.queues[w][i], item) {
        }
      }
    }
  }

  lemma PushKeepsInv(s: State, item: Item)
    requires Inv(s) && Genuine(s, item) && Below(s, item.from.fd, item.index)
    ensures Inv(Push(s, item))
  {
    var r := Push(s, item);
    PushKeepsQueues(s, item);
    SameStreams(s, r);
    forall k: nat | k < |r.shards| ensures ShardOk(r, k) {
      assert ShardOk(s, k);
    }
    forall k: nat, w: nat | k < |r.shards| && w < |r.queues| ensures Crossing(r, k, w) {
      assert Crossing(s, k, w);
    }
  }

  lemma {:induction false} PushAllKeepsInv(s: State, from: Origin, frames: seq<seq<Byte>>, first: nat)
    requires Inv(s) && Below(s, from.fd, first)
    requires first + |frames| <= |FramesOf(s, from.fd)|
    requires forall i | 0 <= i < |frames| :: FramesOf(s, from.fd)[first + i] == frames[i]
    ensures var r := PushAll(s, from, frames, first);
      Inv(r) && r.streams == s.streams && Below(r, from.fd, first + |frames|)
    decreases |frames|
  {
    if frames != [] {
      PushAllKeepsInv(s, from, frames[..|frames| - 1], first);
      var r := PushAll(s, from, frames[..|frames| - 1], first);
      PushKeepsInv(r, Item(from, first + |frames| - 1, frames[|frames| - 1]));
      PushKeepsBelow(r, Item(from, first + |frames| - 1, frames[|frames| - 1]));
    }
  }

  lemma PushNewKeepsInv(s: State, from: Origin, known: seq<seq<Byte>>, added: seq<seq<Byte>>)
    requires Inv(s) && Below(s, from.fd, |known|) && FramesOf(s, from.fd) == known + added
    ensures Inv(PushAll(s, from, added, |known|))
  {
    PushAllKeepsInv(s, from, added, |known|);
  }

  function Grow(s: State, fd: nat, chunk: seq<Byte>): State
  {
    s.(streams := s.streams[fd := Stream(s, fd) + chunk])
  }

  /** More bytes only add frames at the end. */
  lemma GrowAppendsFrames(s: State, fd: nat, chunk: seq<Byte>)
    ensures FramesOf(Grow(s, fd, chunk), fd) == FramesOf(s, fd) + Completed(s, fd, chunk)
    ensures forall x | Genuine(s, x) :: Genuine(Grow(s, fd, chunk), x)
  {
    CutAppend(PACKET, Stream(s, fd), chunk);
    var r := Grow(s, fd, chunk);
    assert FramesOf(s, fd) <= FramesOf(r, fd);
    forall x | Genuine(s, x) ensures Genuine(r, x) {
      if x.from.fd != fd { assert Stream(r, x.from.fd) == Stream(s, x.from.fd); }
    }
  }

  lemma GrowKeepsInv(s: State, fd: nat, chunk: seq<Byte>)
    requires Inv(s)
    ensures Inv(Grow(s, fd, chunk)) && Below(Grow(s, fd, chunk), fd, |FramesOf(s, fd)|)
  {
    var r := Grow(s, fd, chunk);
    GrowAppendsFrames(s, fd, chunk);
    KnownItemsBelow(s, fd);
    forall w: nat | w < |r.queues| ensures QueueOk(r, w) { assert QueueOk(s, w); }
    forall k: nat | k < |r.shards| ensures ShardOk(r, k) { assert ShardOk(s, k); }
    forall k: nat, w: nat | k < |r.shards| && w < |r.queues| ensures Crossing(r, k, w) {
      assert Crossing(s, k, w);
    }
  }

  lemma ReceiveKeepsInv(s: State, from: Origin, chunk: seq<Byte>)
    requires Inv(s)
    ensures Inv(Next(s, Receive(from, chunk)))
  {
    GrowKeepsInv(s, from.fd, chunk);
    GrowAppendsFrames(s, from.fd, chunk);
    PushNewKeepsInv(Grow(s, from.fd, chunk), from, FramesOf(s, from.fd), Completed(s, from.fd, chunk));
  }

  lemma KnownItemsBelow(s: State, fd: nat)
    requires Inv(s)
    ensures Below(s, fd, |FramesOf(s, fd)|)
  {
    forall w: nat, i | w < |s.queues| && 0 <= i < |s.queues[w]| && s.queues[w][i].from.fd == fd
      ensures s.queues[w][i].index < |FramesOf(s, fd)|
    {
      assert QueueOk(s, w);
      assert Genuine(s, s.queues[w][i]);
    }
    forall k: nat, i | k < |s.shards| && 0 <= i < |s.shards[k]| && s.shards[k][i].item.from.fd == fd
      ensures s.shards[k][i].item.index < |FramesOf(s, fd)|
    {
      assert ShardOk(s, k);
      assert Genuine(s, s.shards[k][i].item);
    }
  }

  /** Same streams, queues and shards. */
  predicate SameTraffic(s: State, r: State)
  {
    r.streams == s.streams && r.queues == s.queues && r.shards == s.shards
  }

  lemma InvOfTraffic(s: State, r: State)
    requires Inv(s) && SameTraffic(s, r)
    ensures Inv(r)
  {
    SameStreams(s, r);
    forall w: nat | w < |r.queues| ensures QueueOk(r, w) { assert QueueOk(s, w); }
    forall k: nat | k < |r.shards| ensures ShardOk(r, k) { assert ShardOk(s, k); }
    forall k: nat, w: nat | k < |r.shards| && w < |r.queues| ensures Crossing(r, k, w) {
      assert Crossing(s, k, w);
    }
  }

  /** `x` lies between what the shards have and what the queues still hold. */
  ghost predicate Fits(s: State, x: Item)
  {
    && Genuine(s, x)
    && (forall k: nat, i | k < |s.shards| && 0 <= i < |s.shards[k]| :: Before(s.shards[k][i].item, x))
    && (forall w: nat, j | w < |s.queues| && 0 <= j < |s.queues[w]| :: Before(x, s.queues[w][j]))
  }

  lemma PopKeepsInv(s: State, w0: nat)
    requires Inv(s) && w0 < |s.queues| && s.queues[w0] != []
    ensures Inv(Pop(s, w0)) && Fits(Pop(s, w0), s.queues[w0][0])
  {
    var r := Pop(s, w0);
    var item := s.queues[w0][0];
    assert QueueOk(s, w0);
    assert Genuine(s, item);
    SameStreams(s, r);
    forall w: nat | w < |r.queues| ensures QueueOk(r, w) { assert QueueOk(s, w); }
    forall k: nat | k < |r.shards| ensures ShardOk(r, k) { assert ShardOk(s, k); }
    forall k: nat, w: nat | k < |r.shards| && w < |r.queues| ensures Crossing(r, k, w) {
      assert Crossing(s, k, w);
    }
    forall k: nat, i | k < |r.shards| && 0 <= i < |r.shards[k]| ensures Before(r.shards[k][i].item, item) {
      assert Crossing(s, k, w0);
    }
    forall w: nat, j | w < |r.queues| && 0 <= j < |r.queues[w]| ensures Before(item, r.queues[w][j]) {
      assert QueueOk(s, w);
    }
  }

  lemma ArrivalFitsShard(s: State, k: nat, a: Arrival)
    requires Formed(s) && k < |s.shards| && ShardOk(s, k)
    requires Fits(s, a.item) && Meant(a) && SelectShard(a.sid, |s.shards|) == k
    ensures ShardOk(Arrive(s, k, a), k)
  {
    SameStreams(s, Arrive(s, k, a));
  }

  lemma ArriveKeepsInv(s: State, k0: nat, a: Arrival)
    requires Inv(s) && Fits(s, a.item) && Meant(a) && k0 < |s.shards| && SelectShard(a.sid, |s.shards|) == k0
    ensures Inv(Arrive(s, k0, a))
  {
    var r := Arrive(s, k0, a);
    SameStreams(s, r);
    forall w: nat | w < |r.queues| ensures QueueOk(r, w) { assert QueueOk(s, w); }
    forall k: nat | k < |r.shards| ensures ShardOk(r, k) {
      assert ShardOk(s, k);
      if k == k0 { ArrivalFitsShard(s, k0, a); }
    }
    forall k: nat, w: nat | k < |r.shards| && w < |r.queues| ensures Crossing(r, k, w) {
      assert Crossing(s, k, w);
    }
  }

  lemma DeliverKeepsInv(s: State, w0: nat, newId: nat)
    requires Inv(s) && w0 < |s.queues| && s.queues[w0] != [] && newId != 0
    ensures Inv(Next(s, Deliver(w0, newId)))
  {
    var item := s.queues[w0][0];
    var r := Route(s.table, item.from, item.frame, newId, |s.shards|);
    var s1 := Pop(s, w0);
    var s2 := s1.(table := r.table);
    PopKeepsInv(s, w0);
    InvOfTraffic(s1, s2);
    assert Fits(s2, item) by { assert Stream(s2, item.from.fd) == Stream(s1, item.from.fd); }
    if r.routed.None? {
      InvOfTraffic(s2, s2.(rejected := s2.rejected + [item]));
    } else {
      ArriveKeepsInv(s2, r.routed.value.shard, Arrival(item, r.routed.value.sid, r.routed.value.event));
    }
  }

  lemma {:induction false} RunKeepsInv(workers: nat, shards: nat, steps: seq<Step>)
    requires workers > 0 && shards > 0
    ensures Inv(Run(workers, shards, steps))
    decreases |steps|
  {
    if steps != [] {
      var s, a := Run(workers, shards, steps[..|steps| - 1]), steps[|steps| - 1];
      RunKeepsInv(workers, shards, steps[..|steps| - 1]);
      match a
      case Receive(from, chunk) => ReceiveKeepsInv(s, from, chunk);
      case Deliver(w, newId) =>
        if w < |s.queues| && s.queues[w] != [] && newId != 0 { DeliverKeepsInv(s, w, newId); }
      case Manage(op) => InvOfTraffic(s, Next(s, a));
    }
  }

  /** In every run: everything a shard has been given is a frame of its connection's stream,
      byte for byte, and the event that this packet stands for; it belongs to a session whose
      id selects this shard, so all packets of a session are at one shard; and what comes
      from one connection is in stream order. */
  lemma ShardsSeeStreamOrder(workers: nat, shards: nat, steps: seq<Step>, k: nat)
    requires workers > 0 && shards > 0 && k < shards
    ensures var s := Run(workers, shards, steps);
      forall i | 0 <= i < |s.shards[k]| ::
        var x := s.shards[k][i];
        Genuine(s, x.item) && Meant(x) && SelectShard(x.sid, shards) == k
    ensures var s := Run(workers, shards, steps);
      forall i, j | 0 <= i < j < |s.shards[k]| && s.shards[k][i].item.from.fd == s.shards[k][j].item.from.fd ::
        s.shards[k][i].item.index < s.shards[k][j].item.index
  {
    RunKeepsInv(workers, shards, steps);
    var s := Run(workers, shards, steps);
    assert ShardOk(s, k);
    forall i, j | 0 <= i < j < |s.shards[k]| && s.shards[k][i].item.from.fd == s.shards[k][j].item.from.fd
      ensures s.shards[k][i].item.index < s.shards[k][j].item.index
    {
      assert Before(s.shards[k][i].item, s.shards[k][j].item);
    }
  }

  // ---- Nothing disappears and nothing is there twice ----

  /** A frame is known by its connection and its position there. */
  datatype Key = Key(fd: nat, index: nat)

  function KeyOf(x: Item): Key { Key(x.from.fd, x.index) }

  function Is(x: Item, key: Key): nat { if KeyOf(x) == key then 1 else 0 }

  /** How often a frame is in a queue. */
  function Count(q: seq<Item>, key: Key): nat
  {
    if q == [] then 0 else Count(q[..|q| - 1], key) + Is(q[|q| - 1], key)
  }

  lemma CountLast(q: seq<Item>, x: Item, key: Key)
    ensures Count(q + [x], key) == Count(q, key) + Is(x, key)
  {
    assert (q + [x])[..|q|] == q;
  }

  lemma {:induction false} CountFirst(q: seq<Item>, key: Key)
    requires q != []
    ensures Count(q, key) == Is(q[0], key) + Count(q[1..], key)
    decreases |q|
  {
    if |q| > 1 {
      CountFirst(q[..|q| - 1], key);
      assert q[..|q| - 1][1..] == q[1..][..|q| - 2];
    }
  }

  function CountAll(qs: seq<seq<Item>>, key: Key): nat
  {
    if qs == [] then 0 else CountAll(qs[..|qs| - 1], key) + Count(qs[|qs| - 1], key)
  }

  lemma {:induction false} CountAllUpdate(qs: seq<seq<Item>>, w: nat, q: seq<Item>, key: Key)
    requires w < |qs|
    ensures CountAll(qs[w := q], key) == CountAll(qs, key) - Count(qs[w], key) + Count(q, key)
    decreases |qs|
  {
    var n := |qs| - 1;
    if w == n {
      assert qs[w := q][..n] == qs[..n];
    } else {
      CountAllUpdate(qs[..n], w, q, key);
      assert qs[w := q][..n] == qs[..n][w := q];
    }
  }

  lemma {:induction false} CountNone(qs: seq<seq<Item>>, key: Key)
    requires forall w | 0 <= w < |qs| :: qs[w] == []
    ensures CountAll(qs, key) == 0
    decreases |qs|
  {
    if qs != [] { CountNone(qs[..|qs| - 1], key); }
  }

  lemma {:induction false} CountFinds(q: seq<Item>, key: Key) returns (i: nat)
    requires Count(q, key) > 0
    ensures i < |q| && KeyOf(q[i]) == key
    decreases |q|
  {
    if KeyOf(q[|q| - 1]) == key { return |q| - 1; }
    i := CountFinds(q[..|q| - 1], key);
  }

  lemma {:induction false} CountAllFinds(qs: seq<seq<Item>>, key: Key) returns (w: nat, i: nat)
    requires CountAll(qs, key) > 0
    ensures w < |qs| && i < |qs[w]| && KeyOf(qs[w][i]) == key
    decreases |qs|
  {
    if Count(qs[|qs| - 1], key) > 0 {
      i := CountFinds(qs[|qs| - 1], key);
      w := |qs| - 1;
    } else {
      w, i := CountAllFinds(qs[..|qs| - 1], key);
    }
  }

  function Arrived(a: seq<Arrival>): (r: seq<Item>)
    ensures |r| == |a| && forall i | 0 <= i < |a| :: r[i] == a[i].item
  {
    seq(|a|, i requires 0 <= i < |a| => a[i].item)
  }

  function ArrivedAt(shards: seq<seq<Arrival>>): (r: seq<seq<Item>>)
    ensures |r| == |shards| && forall k | 0 <= k < |shards| :: r[k] == Arrived(shards[k])
  {
    seq(|shards|, k requires 0 <= k < |shards| => Arrived(shards[k]))
  }

  /** In how many places a frame is: queued, at a shard, or dropped because its queue was
      full or the router rejected it. */
  function Places(s: State, key: Key): nat
  {
    CountAll(s.queues, key) + CountAll(ArrivedAt(s.shards), key) + Count(s.overflowed, key) + Count(s.rejected, key)
  }

  /** Each frame of each stream is in exactly one place, and nothing else is anywhere. */
  ghost predicate Counted(s: State)
  {
    forall key: Key :: Places(s, key) == if key.index < |FramesOf(s, key.fd)| then 1 else 0
  }

  lemma PushEnters(s: State, item: Item, key: Key)
    requires Formed(s)
    ensures Places(Push(s, item), key) == Places(s, key) + Is(item, key)
  {
    var w := WorkerOf(item.from.fd, |s.queues|);
    CountAllUpdate(s.queues, w, s.queues[w] + [item], key);
    CountLast(s.queues[w], item, key);
    CountLast(s.overflowed, item, key);
  }

  lemma {:induction false} PushAllEnters(s: State, from: Origin, frames: seq<seq<Byte>>, first: nat, key: Key)
    requires Formed(s)
    ensures Places(PushAll(s, from, frames, first), key) ==
            Places(s, key) + if key.fd == from.fd && first <= key.index < first + |frames| then 1 else 0
    decreases |frames|
  {
    if frames != [] {
      PushAllEnters(s, from, frames[..|frames| - 1], first, key);
      PushEnters(PushAll(s, from, frames[..|frames| - 1], first),
                 Item(from, first + |frames| - 1, frames[|frames| - 1]), key);
    }
  }

  lemma PopLeaves(s: State, w: nat, key: Key)
    requires w < |s.queues| && s.queues[w] != []
    ensures Places(Pop(s, w), key) == Places(s, key) - Is(s.queues[w][0], key)
  {
    CountAllUpdate(s.queues, w, s.queues[w][1..], key);
    CountFirst(s.queues[w], key);
  }

  lemma ArriveEnters(s: State, k: nat, a: Arrival, key: Key)
    requires k < |s.shards|
    ensures Places(Arrive(s, k, a), key) == Places(s, key) + Is(a.item, key)
  {
    var before, after := ArrivedAt(s.shards), ArrivedAt(Arrive(s, k, a).shards);
    assert Arrived(s.shards[k] + [a]) == before[k] + [a.item];
    assert after == before[k := before[k] + [a.item]];
    CountAllUpdate(before, k, before[k] + [a.item], key);
    CountLast(before[k], a.item, key);
  }

  lemma DeliverKeepsPlaces(s: State, w: nat, newId: nat, key: Key)
    requires Formed(s) && w < |s.queues| && s.queues[w] != [] && newId != 0
    ensures Places(Next(s, Deliver(w, newId)), key) == Places(s, key)
  {
    var item := s.queues[w][0];
    var r := Route(s.table, item.from, item.frame, newId, |s.shards|);
    var s1 := Pop(s, w).(table := r.table);
    PopLeaves(s, w, key);
    assert Places(s1, key) == Places(Pop(s, w), key);
    if r.routed.None? {
      CountLast(s1.rejected, item, key);
    } else {
      ArriveEnters(s1, r.routed.value.shard, Arrival(item, r.routed.value.sid, r.routed.value.event), key);
    }
  }

  lemma ReceiveKeepsCount(s: State, from: Origin, chunk: seq<Byte>, key: Key)
    requires Formed(s) && Counted(s)
    ensures var r := Next(s, Receive(from, chunk));
      Places(r, key) == if key.index < |FramesOf(r, key.fd)| then 1 else 0
  {
    var g, known, added := Grow(s, from.fd, chunk), FramesOf(s, from.fd), Completed(s, from.fd, chunk);
    assert Places(g, key) == Places(s, key);
    PushAllEnters(g, from, added, |known|, key);
    FramesAfterReceive(s, from, chunk, key.fd);
  }

  lemma FramesAfterReceive(s: State, from: Origin, chunk: seq<Byte>, fd: nat)
    requires Formed(s)
    ensures |FramesOf(Next(s, Receive(from, chunk)), fd)| ==
            |FramesOf(s, fd)| + if fd == from.fd then |Completed(s, fd, chunk)| else 0
  {
    StreamAfter(s, Receive(from, chunk), fd);
    GrowAppendsFrames(s, from.fd, chunk);
  }

  lemma NextKeepsCount(s: State, a: Step)
    requires Formed(s) && Counted(s)
    ensures Counted(Next(s, a))
  {
    var r := Next(s, a);
    forall key: Key ensures Places(r, key) == if key.index < |FramesOf(r, key.fd)| then 1 else 0 {
      match a
      case Receive(from, chunk) => ReceiveKeepsCount(s, from, chunk, key);
      case Deliver(w, newId) =>
        StreamAfter(s, a, key.fd);
        if w < |s.queues| && s.queues[w] != [] && newId != 0 { DeliverKeepsPlaces(s, w, newId, key); }
      case Manage(_) => assert Places(r, key) == Places(s, key);
    }
  }

  lemma {:induction false} RunKeepsCount(workers: nat, shards: nat, steps: seq<Step>)
    requires workers > 0 && shards > 0
    ensures Counted(Run(workers, shards, steps))
    decreases |steps|
  {
    if steps == [] {
      var s := Start(workers, shards);
      forall key: Key ensures Places(s, key) == 0 && FramesOf(s, key.fd) == [] {
        CountNone(s.queues, key);
        CountNone(ArrivedAt(s.shards), key);
      }
    } else {
      RunKeepsCount(workers, shards, steps[..|steps| - 1]);
      NextKeepsCount(Run(workers, shards, steps[..|steps| - 1]), steps[|steps| - 1]);
    }
  }

  /** Everything that was dropped is a frame of its stream, too. */
  ghost predicate DroppedGenuine(s: State)
  {
    && (forall x | x in s.overflowed :: Genuine(s, x))
    && (forall x | x in s.rejected :: Genuine(s, x))
  }

  lemma {:induction false} PushAllKeepsDropped(s: State, from: Origin, frames: seq<seq<Byte>>, first: nat)
    requires Formed(s) && DroppedGenuine(s)
    requires first + |frames| <= |FramesOf(s, from.fd)|
    requires forall i | 0 <= i < |frames| :: FramesOf(s, from.fd)[first + i] == frames[i]
    ensures DroppedGenuine(PushAll(s, from, frames, first))
    decreases |frames|
  {
    if frames != [] {
      var r := PushAll(s, from, frames[..|frames| - 1], first);
      PushAllKeepsDropped(s, from, frames[..|frames| - 1], first);
      PushAllStreams(s, from, frames[..|frames| - 1], first);
      var item := Item(from, first + |frames| - 1, frames[|frames| - 1]);
      assert Genuine(s, item);
      SameStreams(s, r);
      SameStreams(r, Push(r, item));
    }
  }

  lemma SameDropped(s: State, r: State, more: seq<Item>)
    requires DroppedGenuine(s) && r.streams == s.streams && r.overflowed == s.overflowed
    requires r.rejected == s.rejected + more && forall x | x in more :: Genuine(s, x)
    ensures DroppedGenuine(r)
  {
    SameStreams(s, r);
  }

  lemma ReceiveKeepsDropped(s: State, from: Origin, chunk: seq<Byte>)
    requires Formed(s) && DroppedGenuine(s)
    ensures DroppedGenuine(Next(s, Receive(from, chunk)))
  {
    GrowAppendsFrames(s, from.fd, chunk);
    PushNewKeepsDropped(Grow(s, from.fd, chunk), from, FramesOf(s, from.fd), Completed(s, from.fd, chunk));
  }

  lemma PushNewKeepsDropped(s: State, from: Origin, known: seq<seq<Byte>>, added: seq<seq<Byte>>)
    requires Formed(s) && DroppedGenuine(s) && FramesOf(s, from.fd) == known + added
    ensures DroppedGenuine(PushAll(s, from, added, |known|))
  {
    PushAllKeepsDropped(s, from, added, |known|);
  }

  lemma DeliverKeepsDropped(s: State, w: nat, newId: nat)
    requires Inv(s) && DroppedGenuine(s) && w < |s.queues| && s.queues[w] != [] && newId != 0
    ensures DroppedGenuine(Next(s, Deliver(w, newId)))
  {
    var item := s.queues[w][0];
    assert QueueOk(s, w);
    assert Genuine(s, item);
    var r := Next(s, Deliver(w, newId));
    if r.rejected == s.rejected {
      SameDropped(s, r, []);
    } else {
      SameDropped(s, r, [item]);
    }
  }

  lemma NextKeepsDropped(s: State, a: Step)
    requires Inv(s) && DroppedGenuine(s)
    ensures DroppedGenuine(Next(s, a))
  {
    match a
    case Receive(from, chunk) => ReceiveKeepsDropped(s, from, chunk);
    case Deliver(w, newId) =>
      if w < |s.queues| && s.queues[w] != [] && newId != 0 { DeliverKeepsDropped(s, w, newId); }
    case Manage(op) => SameDropped(s, Next(s, a), []);
  }

  lemma {:induction false} RunKeepsDropped(workers: nat, shards: nat, steps: seq<Step>)
    requires workers > 0 && shards > 0
    ensures DroppedGenuine(Run(workers, shards, steps))
    decreases |steps|
  {
    if steps != [] {
      RunKeepsInv(workers, shards, steps[..|steps| - 1]);
      RunKeepsDropped(workers, shards, steps[..|steps| - 1]);
      NextKeepsDropped(Run(workers, shards, steps[..|steps| - 1]), steps[|steps| - 1]);
    }
  }

  /** The item is in one of the places. */
  ghost predicate Held(s: State, x: Item)
  {
    || (exists w: nat, i: nat :: w < |s.queues| && i < |s.queues[w]| && s.queues[w][i] == x)
    || (exists k: nat, i: nat :: k < |s.shards| && i < |s.shards[k]| && s.shards[k][i].item == x)
    || x in s.overflowed
    || x in s.rejected
  }

  lemma HeldIsGenuine(s: State, x: Item)
    requires Inv(s) && DroppedGenuine(s) && Held(s, x)
    ensures Genuine(s, x)
  {
    if w: nat, i: nat :| w < |s.queues| && i < |s.queues[w]| && s.queues[w][i] == x {
      assert QueueOk(s, w);
    } else if k: nat, i: nat :| k < |s.shards| && i < |s.shards[k]| && s.shards[k][i].item == x {
      assert ShardOk(s, k);
    }
  }

  lemma PlacesHold(s: State, key: Key) returns (x: Item)
    requires Places(s, key) > 0
    ensures Held(s, x) && KeyOf(x) == key
  {
    if CountAll(s.queues, key) > 0 {
      var w, i := CountAllFinds(s.queues, key);
      x := s.queues[w][i];
    } else if CountAll(ArrivedAt(s.shards), key) > 0 {
      var k, i := CountAllFinds(ArrivedAt(s.shards), key);
      x := s.shards[k][i].item;
    } else if Count(s.overflowed, key) > 0 {
      var i := CountFinds(s.overflowed, key);
      x := s.overflowed[i];
    } else {
      var i := CountFinds(s.rejected, key);
      x := s.rejected[i];
    }
  }

  /** In every run, each frame of each stream is in exactly one place: queued, at a shard, or
      among those dropped because its queue was full or because the router rejected it; it is
      there byte for byte; and nothing that is not a frame of a stream is anywhere. */
  lemma EveryFrameAccounted(workers: nat, shards: nat, steps: seq<Step>, fd: nat, n: nat)
    requires workers > 0 && shards > 0
    ensures var s := Run(workers, shards, steps);
      Places(s, Key(fd, n)) == if n < |FramesOf(s, fd)| then 1 else 0
    ensures var s := Run(workers, shards, steps);
      n < |FramesOf(s, fd)| ==> exists x :: Held(s, x) && KeyOf(x) == Key(fd, n) && x.frame == FramesOf(s, fd)[n]
  {
    var s := Run(workers, shards, steps);
    RunKeepsCount(workers, shards, steps);
    if n < |FramesOf(s, fd)| {
      var x := PlacesHold(s, Key(fd, n));
      RunKeepsInv(workers, shards, steps);
      RunKeepsDropped(workers, shards, steps);
      HeldIsGenuine(s, x);
    }
  }

  /** Only bytes received on a connection change its stream. */
  lemma StreamAfter(s: State, a: Step, fd: nat)
    requires Formed(s)
    ensures Stream(Next(s, a), fd) ==
            if a.Receive? && a.from.fd == fd then Stream(Grow(s, fd, a.chunk), fd) else Stream(s, fd)
  {
    if a.Receive? {
      PushAllStreams(Grow(s, a.from.fd, a.chunk), a.from, Completed(s, a.from.fd, a.chunk),
                     |FramesOf(s, a.from.fd)|);
    }
  }

  lemma {:induction false} PushAllStreams(s: State, from: Origin, frames: seq<seq<Byte>>, first: nat)
    requires Formed(s)
    ensures PushAll(s, from, frames, first).streams == s.streams
    decreases |frames|
  {
    if frames != [] { PushAllStreams(s, from, frames[..|frames| - 1], first); }
  }

  // ---- Where a frame goes, and why ----

  /** Successive descriptors go round all workers in turn. */
  lemma WorkersInTurn(fd: nat, workers: nat)
    requires workers > 0
    ensures WorkerOf(fd + workers, workers) == WorkerOf(fd, workers)
    ensures fd < workers ==> WorkerOf(fd, workers) == fd
  {
    RoundTheShards(fd, workers);
  }

  /** The items that frames of a connection become, numbered from `first`. */
  function Numbered(from: Origin, frames: seq<seq<Byte>>, first: nat): (r: seq<Item>)
    ensures |r| == |frames| && forall i | 0 <= i < |r| :: r[i] == Item(from, first + i, frames[i])
  {
    seq(|frames|, i requires 0 <= i < |frames| => Item(from, first + i, frames[i]))
  }

  /** How many of `n` items still fit a queue of 65536. */
  function Fitting(q: seq<Item>, n: nat): (m: nat)
    ensures m <= n && (m < n ==> |q| + m >= 65536) && (|q| <= 65536 ==> |q| + m <= 65536)
  {
    if |q| >= 65536 then 0 else if |q| + n <= 65536 then n else 65536 - |q|
  }

  lemma {:induction false} PushAllEffect(s: State, from: Origin, frames: seq<seq<Byte>>, first: nat)
    requires Formed(s)
    ensures var w := WorkerOf(from.fd, |s.queues|);
      var items, m := Numbered(from, frames, first), Fitting(s.queues[w], |frames|);
      PushAll(s, from, frames, first) ==
      s.(queues := s.queues[w := s.queues[w] + items[..m]], overflowed := s.overflowed + items[m..])
    decreases |frames|
  {
    var w := WorkerOf(from.fd, |s.queues|);
    var items := Numbered(from, frames, first);
    if frames == [] {
      assert s.queues[w] + items[..0] == s.queues[w] && s.overflowed + items[0..] == s.overflowed;
    } else {
      var front, n := frames[..|frames| - 1], |frames| - 1;
      PushAllEffect(s, from, front, first);
      assert Numbered(from, front, first) == items[..n] && items[..n + 1] == items;
      PushOneMore(s, w, items, Fitting(s.queues[w], n), n);
    }
  }

  lemma PushOneMore(s: State, w: nat, items: seq<Item>, m: nat, n: nat)
    requires Formed(s) && n < |items| && w == WorkerOf(items[n].from.fd, |s.queues|) && m == Fitting(s.queues[w], n)
    ensures var r := s.(queues := s.queues[w := s.queues[w] + items[..n][..m]],
                        overflowed := s.overflowed + items[..n][m..]);
      var k := Fitting(s.queues[w], n + 1);
      Push(r, items[n]) ==
      s.(queues := s.queues[w := s.queues[w] + items[..n + 1][..k]], overflowed := s.overflowed + items[..n + 1][k..])
  {
    var q := s.queues[w];
    assert items[..n][..m] == items[..m];
    if |q| + n < 65536 {
      assert q + items[..n] + [items[n]] == q + items[..n + 1][..n + 1];
      assert items[..n][n..] == [] == items[..n + 1][n + 1..];
    } else {
      assert items[..n + 1][..m] == items[..m];
      assert s.overflowed + items[..n][m..] + [items[n]] == s.overflowed + items[..n + 1][m..];
    }
  }

  /** What bytes on a connection do: the frames they complete are appended in order to the queue
      of the connection's worker as long as that has fewer than 65536 packets; the others are
      dropped, and nothing else changes. */
  lemma ReceiveEffect(s: State, from: Origin, chunk: seq<Byte>)
    requires Formed(s)
    ensures var w := WorkerOf(from.fd, |s.queues|);
      var items := Numbered(from, Completed(s, from.fd, chunk), |FramesOf(s, from.fd)|);
      var m := Fitting(s.queues[w], |items|);
      Next(s, Receive(from, chunk)) ==
      Grow(s, from.fd, chunk).(queues := s.queues[w := s.queues[w] + items[..m]],
                               overflowed := s.overflowed + items[m..])
  {
    PushAllEffect(Grow(s, from.fd, chunk), from, Completed(s, from.fd, chunk), |FramesOf(s, from.fd)|);
  }

  /** No queue ever has more than 65536 packets. */
  lemma {:induction false} QueuesAreBounded(workers: nat, shards: nat, steps: seq<Step>, w: nat)
    requires workers > 0 && shards > 0 && w < workers
    ensures |Run(workers, shards, steps).queues[w]| <= 65536
    decreases |steps|
  {
    if steps != [] {
      var s, a := Run(workers, shards, steps[..|steps| - 1]), steps[|steps| - 1];
      QueuesAreBounded(workers, shards, steps[..|steps| - 1], w);
      if a.Receive? { ReceiveEffect(s, a.from, a.chunk); }
    }
  }

  lemma OverflowStep(s: State, a: Step, x: Item)
    requires Formed(s) && x in Next(s, a).overflowed && x !in s.overflowed
    ensures a.Receive? && a.from == x.from
    ensures |Next(s, a).queues[WorkerOf(x.from.fd, |s.queues|)]| >= 65536
  {
    if a.Receive? { ReceiveEffect(s, a.from, a.chunk); }
  }

  /** A packet was dropped as overflow only when bytes came in on its connection and left its
      worker's queue full. */
  lemma {:induction false} OverflowedForCause(workers: nat, shards: nat, steps: seq<Step>, x: Item) returns (k: nat)
    requires workers > 0 && shards > 0 && x in Run(workers, shards, steps).overflowed
    ensures k < |steps| && steps[k].Receive? && steps[k].from == x.from
    ensures |Run(workers, shards, steps[..k + 1]).queues[WorkerOf(x.from.fd, workers)]| == 65536
    decreases |steps|
  {
    var front, a := steps[..|steps| - 1], steps[|steps| - 1];
    var s := Run(workers, shards, front);
    if x in s.overflowed {
      k := OverflowedForCause(workers, shards, front, x);
      assert steps[..k + 1] == front[..k + 1];
    } else {
      k := |front|;
      assert steps[..k + 1] == steps;
      OverflowStep(s, a, x);
      QueuesAreBounded(workers, shards, steps, WorkerOf(x.from.fd, workers));
    }
  }

  /** A packet was rejected only when a worker took it off the front of its queue and the router
      had no place for it, by the session table of that moment. */
  lemma {:induction false} RejectedForCause(workers: nat, shards: nat, steps: seq<Step>, x: Item) returns (k: nat)
    requires workers > 0 && shards > 0 && x in Run(workers, shards, steps).rejected
    ensures k < |steps| && steps[k].Deliver? && steps[k].newId != 0 && steps[k].worker < workers
    ensures var s := Run(workers, shards, steps[..k]);
      && s.queues[steps[k].worker] != [] && s.queues[steps[k].worker][0] == x
      && Route(s.table, x.from, x.frame, steps[k].newId, shards).routed.None?
    decreases |steps|
  {
    var front, a := steps[..|steps| - 1], steps[|steps| - 1];
    var s := Run(workers, shards, front);
    if x in s.rejected {
      k := RejectedForCause(workers, shards, front, x);
      assert steps[..k] == front[..k];
    } else {
      k := |front|;
      if a.Receive? { ReceiveEffect(s, a.from, a.chunk); }
    }
  }

  /** What a worker does with the packet at the front of its queue: by the session table of that
      moment it becomes the last arrival of the shard of its session, or is rejected; in both
      cases it leaves the queue and binds its session as the router says. */
  lemma DeliverEffect(workers: nat, shards: nat, steps: seq<Step>, w: nat, newId: nat)
    requires workers > 0 && shards > 0 && w < workers && newId != 0
    requires Run(workers, shards, steps).queues[w] != []
    ensures var s, r := Run(workers, shards, steps), Run(workers, shards, steps + [Deliver(w, newId)]);
      var x := s.queues[w][0];
      var to := Route(s.table, x.from, x.frame, newId, shards);
      && r.queues == s.queues[w := s.queues[w][1..]] && r.table == to.table
      && r.streams == s.streams && r.overflowed == s.overflowed
      && (to.routed.Some? ==>
            var k := SelectShard(to.routed.value.sid, shards);
            && r.shards == s.shards[k := s.shards[k] + [Arrival(x, to.routed.value.sid, to.routed.value.event)]]
            && r.rejected == s.rejected)
      && (to.routed.None? ==> r.shards == s.shards && r.rejected == s.rejected + [x])
  {
    assert (steps + [Deliver(w, newId)])[..|steps|] == steps;
  }

  /** For instance: a lobby request or a ping of a known session ends up at its shard as the
      event the client meant. */
  lemma KnownSessionsArrive(workers: nat, shards: nat, steps: seq<Step>, w: nat, newId: nat, sid: nat,
                            nonce: nat, clientTs: nat)
    requires workers > 0 && shards > 0 && w < workers && newId != 0
    requires 0 < sid < ID_LIMIT && nonce < ID_LIMIT && clientTs < ID_LIMIT
    requires Run(workers, shards, steps).queues[w] != [] && sid in Run(workers, shards, steps).table.sessions
    ensures var s, r := Run(workers, shards, steps), Run(workers, shards, steps + [Deliver(w, newId)]);
      var x, k := s.queues[w][0], SelectShard(sid, shards);
      && (x.frame == Packet(LOBBY_ENTRY_REQ, sid, []) ==>
            r.shards == s.shards[k := s.shards[k] + [Arrival(x, sid, LobbyEntryReq(sid))]])
      && (x.frame == Packet(PING_REQ, sid, Be64(nonce) + Be64(clientTs)) ==>
            r.shards == s.shards[k := s.shards[k] + [Arrival(x, sid, PingReq(sid, nonce, clientTs))]])
  {
    var s := Run(workers, shards, steps);
    DeliverEffect(workers, shards, steps, w, newId);
    KnownSessionsAreServed(s.table, s.queues[w][0].from, sid, nonce, clientTs, [], newId, shards);
  }

  // ---- Everything queued gets routed ----

  /** How many packets worker `w` takes in the steps from number `k` on. */
  function CountDelivers(steps: seq<Step>, k: nat, w: nat): nat
  {
    if |steps| <= k then 0
    else CountDelivers(steps[..|steps| - 1], k, w) + if Delivers(steps[|steps| - 1], w) then 1 else 0
  }

  /** The item is `i`-th in the queue of worker `w`. */
  ghost predicate QueuedAt(s: State, w: nat, i: nat, x: Item)
  {
    w < |s.queues| && i < |s.queues[w]| && s.queues[w][i] == x
  }

  /** The item has been routed: it is at a shard, or was rejected. */
  ghost predicate RoutedAway(s: State, x: Item)
  {
    (exists k: nat, i: nat :: k < |s.shards| && i < |s.shards[k]| && s.shards[k][i].item == x) || x in s.rejected
  }

  /** After `n` deliveries by worker `w`, the item that was `i`-th in its queue. */
  ghost predicate MovedUp(s: State, w: nat, i: nat, n: nat, x: Item)
  {
    if n > i then RoutedAway(s, x) else QueuedAt(s, w, i - n, x)
  }

  predicate Delivers(a: Step, w: nat)
  {
    a.Deliver? && a.worker == w && a.newId != 0
  }

  lemma FrontIsRouted(s: State, a: Step, w: nat, x: Item)
    requires Formed(s) && QueuedAt(s, w, 0, x) && Delivers(a, w)
    ensures RoutedAway(Next(s, a), x)
  {
    var r := Next(s, a);
    if x !in r.rejected {
      var k := Route(s.table, x.from, x.frame, a.newId, |s.shards|).routed.value.shard;
      assert r.shards[k][|s.shards[k]|].item == x;
    }
  }

  lemma NextKeepsRouted(s: State, a: Step, x: Item)
    requires Formed(s) && RoutedAway(s, x)
    ensures RoutedAway(Next(s, a), x)
  {
    var r := Next(s, a);
    if a.Receive? { ReceiveEffect(s, a.from, a.chunk); }
    if x !in s.rejected {
      var k: nat, i: nat :| k < |s.shards| && i < |s.shards[k]| && s.shards[k][i].item == x;
      assert r.shards[k][i].item == x;
    }
  }

  lemma NextMovesUp(s: State, a: Step, w: nat, i: nat, n: nat, x: Item)
    requires Formed(s) && MovedUp(s, w, i, n, x)
    ensures MovedUp(Next(s, a), w, i, if Delivers(a, w) then n + 1 else n, x)
  {
    if n > i {
      NextKeepsRouted(s, a, x);
    } else if Delivers(a, w) && n == i {
      FrontIsRouted(s, a, w, x);
    } else if a.Receive? {
      ReceiveEffect(s, a.from, a.chunk);
    }
  }

  /** Whatever else happens, a packet that was at position `i` of a worker's queue after `k` steps
      has been routed once that worker has taken more than `i` packets; before that it has
      moved up by as many. */
  lemma {:induction false} QueuedGetsRouted(workers: nat, shards: nat, steps: seq<Step>, k: nat,
                                            w: nat, i: nat, x: Item)
    requires workers > 0 && shards > 0 && k <= |steps| && QueuedAt(Run(workers, shards, steps[..k]), w, i, x)
    ensures MovedUp(Run(workers, shards, steps), w, i, CountDelivers(steps, k, w), x)
    decreases |steps|
  {
    if k == |steps| {
      assert steps[..k] == steps;
    } else {
      var front := steps[..|steps| - 1];
      assert front[..k] == steps[..k];
      QueuedGetsRouted(workers, shards, front, k, w, i, x);
      NextMovesUp(Run(workers, shards, front), steps[|steps| - 1], w, i, CountDelivers(front, k, w), x);
    }
  }

  // ---- The session table of a run ----

  /** The call a packet makes on the session table, if it parses. */
  function CallOf(x: Item, newId: nat): seq<Op>
  {
    match Parse(x.frame)
    case None => []
    case Some(p) => [if OpensSession(p) then Create(x.from, newId) else CheckAndBind(p.sessionId, x.from)]
  }

  /** The calls of one step: those of the transmit side, and one for a packet delivered. */
  ghost function StepCalls(s: State, a: Step): seq<Op>
  {
    match a
    case Receive(_, _) => []
    case Deliver(w, newId) =>
      if w >= |s.queues| || s.queues[w] == [] || newId == 0 then [] else CallOf(s.queues[w][0], newId)
    case Manage(op) => [op]
  }

  ghost function CallsOf(workers: nat, shards: nat, steps: seq<Step>): seq<Op>
    requires workers > 0 && shards > 0
  {
    if steps == [] then []
    else
      var front := steps[..|steps| - 1];
      CallsOf(workers, shards, front) + StepCalls(Run(workers, shards, front), steps[|steps| - 1])
  }

  lemma StepMakesCalls(s: State, a: Step)
    requires Formed(s)
    ensures Next(s, a).table == ApplyFrom(s.table, StepCalls(s, a))
  {
    match a
    case Receive(from, chunk) => ReceiveEffect(s, from, chunk);
    case Deliver(w, newId) =>
      if w < |s.queues| && s.queues[w] != [] && newId != 0 { RouteCalls(s.table, s.queues[w][0], newId, |s.shards|); }
    case Manage(op) => assert [op][..0] == [];
  }

  lemma RouteCalls(t: Table, x: Item, newId: nat, shards: nat)
    requires shards > 0 && newId != 0
    ensures Route(t, x.from, x.frame, newId, shards).table == ApplyFrom(t, CallOf(x, newId))
  {
    if Parse(x.frame).Some? { assert CallOf(x, newId)[..0] == []; }
  }

  lemma {:induction false} ApplyAllThen(ops: seq<Op>, more: seq<Op>)
    ensures ApplyAll(ops + more) == ApplyFrom(ApplyAll(ops), more)
    decreases |more|
  {
    if more == [] {
      assert ops + more == ops;
    } else {
      ApplyAllThen(ops, more[..|more| - 1]);
      assert (ops + more)[..|ops + more| - 1] == ops + more[..|more| - 1];
    }
  }

  /** The table of every run is the one these calls lead to, so that what holds of every run of
      the session manager holds here. */
  lemma {:induction false} TableFollowsCalls(workers: nat, shards: nat, steps: seq<Step>)
    requires workers > 0 && shards > 0
    ensures Run(workers, shards, steps).table == ApplyAll(CallsOf(workers, shards, steps))
    decreases |steps|
  {
    if steps != [] {
      var front, a := steps[..|steps| - 1], steps[|steps| - 1];
      var s := Run(workers, shards, front);
      TableFollowsCalls(workers, shards, front);
      StepMakesCalls(s, a);
      ApplyAllThen(CallsOf(workers, shards, front), StepCalls(s, a));
    }
  }
}
