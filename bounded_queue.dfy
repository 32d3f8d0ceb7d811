/** The bounded FIFO the source keeps three of (actor ids to add, actor ids to
    remove, AR-tag ids). A queue is its contents, oldest first; every caller
    ignores the enqueue result, so a full queue silently drops the id. */
module BoundedQueue {

  /** The size the source asks each of its queues for. */
  const RequestedSize: nat := 10

  /** The least power of two, starting from `p`, that is at least `n`. */
  function RoundUpToPowerOfTwo(n: nat, p: nat): (r: nat)
    requires p >= 1
    ensures r >= n && r >= p
    decreases n - p
  {
    if p >= n then p else RoundUpToPowerOfTwo(n, 2 * p)
  }

  /** How many ids the engine's circular queue holds when built with
      `requested`: its buffer is rounded up to a power of two, and one slot
      stays free to tell a full queue from an empty one. */
  function CircularQueueCapacity(requested: nat): (c: nat)
    ensures c + 1 >= requested
  {
    RoundUpToPowerOfTwo(requested, 1) - 1
  }

  /** Capacity of each of the source's queues. */
  const QueueCapacity: nat := CircularQueueCapacity(RequestedSize)

  /** Asking for 10 gives 16 slots, so a queue holds 15 ids. */
  lemma QueueCapacityValue()
    ensures QueueCapacity == 15
  {
  }

  predicate Fits(q: seq<int>, capacity: nat)
  {
    |q| <= capacity
  }

  /** Try-enqueue with the result discarded. */
  function Enqueue(q: seq<int>, capacity: nat, x: int): (r: seq<int>)
    ensures |q| < capacity ==> r == q + [x]
    ensures |q| >= capacity ==> r == q
  {
    if |q| < capacity then q + [x] else q
  }

  /** Enqueue every id of `xs` in order, each one dropped if the queue is full. */
  function EnqueueAll(q: seq<int>, capacity: nat, xs: seq<int>): (r: seq<int>)
    ensures |q| <= |r| <= |q| + |xs|
    decreases |xs|
  {
    if xs == [] then q else EnqueueAll(Enqueue(q, capacity, xs[0]), capacity, xs[1..])
  }

  lemma EnqueueKeepsFit(q: seq<int>, capacity: nat, x: int)
    requires Fits(q, capacity)
    ensures Fits(Enqueue(q, capacity, x), capacity)
    ensures Enqueue(q, capacity, x)[..|q|] == q
  {
  }

  /** Enqueueing a batch keeps the bound and never reorders or loses what
      was queued before. */
  lemma {:induction false} EnqueueAllKeepsFit(q: seq<int>, capacity: nat, xs: seq<int>)
    requires Fits(q, capacity)
    ensures Fits(EnqueueAll(q, capacity, xs), capacity)
    ensures |EnqueueAll(q, capacity, xs)| >= |q|
    ensures EnqueueAll(q, capacity, xs)[..|q|] == q
    decreases |xs|
  {
    if xs != [] {
      var q1 := Enqueue(q, capacity, xs[0]);
      EnqueueAllKeepsFit(q1, capacity, xs[1..]);
      var r := EnqueueAll(q1, capacity, xs[1..]);
      assert r[..|q|] == r[..|q1|][..|q|];
    }
  }

  /** When the whole batch fits, nothing is dropped. */
  lemma {:induction false} EnqueueAllWhenRoom(q: seq<int>, capacity: nat, xs: seq<int>)
    requires |q| + |xs| <= capacity
    ensures EnqueueAll(q, capacity, xs) == q + xs
    decreases |xs|
  {
    if xs != [] {
      EnqueueAllWhenRoom(q + [xs[0]], capacity, xs[1..]);
      assert q + [xs[0]] + xs[1..] == q + xs;
    }
  }

  function Min(a: int, b: int): int
  {
    if a <= b then a else b
  }

  /** Closed form of a batch enqueue into a queue within its bound: the batch
      is taken in order until the queue is full, and the rest is dropped. */
  lemma {:induction false} EnqueueAllTakesPrefix(q: seq<int>, capacity: nat, xs: seq<int>)
    requires Fits(q, capacity)
    ensures EnqueueAll(q, capacity, xs) == q + xs[..Min(|xs|, capacity - |q|)]
    decreases |xs|
  {
    if xs != [] {
      var q1 := Enqueue(q, capacity, xs[0]);
      EnqueueAllTakesPrefix(q1, capacity, xs[1..]);
      var m := Min(|xs|, capacity - |q|);
      if |q| < capacity {
        assert xs[1..][..m - 1] == xs[1..m];
        assert q1 + xs[1..m] == q + xs[..m];
      } else {
        assert xs[..m] == [];
      }
    }
  }
}
