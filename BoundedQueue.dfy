/**
 * The fixed-capacity FIFO queue that sits between the vote endpoint and the
 * message transport, described by its contents (head first) and its two
 * non-blocking operations, `offer` and `poll`.
 */
module BoundedQueue {
  import opened Wrappers

  /** The number of slots the vote queue is created with. */
  const Capacity: nat := 128

  /** Non-blocking insertion: appends `x` at the tail when a slot is free;
      on a full queue the element is dropped and the queue is unchanged. */
  function Offer<T>(q: seq<T>, x: T): (r: seq<T>)
    ensures |q| <= |r| <= |q| + 1 && r[..|q|] == q
    ensures |r| > |q| <==> |q| < Capacity
    ensures |r| > |q| ==> r[|q|] == x
    ensures |q| <= Capacity ==> |r| <= Capacity
  {
    if |q| < Capacity then q + [x] else q
  }

  /** Non-blocking removal: the head and the remaining queue, or `None` and
      the same queue when there is nothing to take. */
  function Poll<T>(q: seq<T>): (r: (Option<T>, seq<T>))
    ensures r.0.None? <==> q == []
    ensures r.0.None? ==> r.1 == q
    ensures r.0.Some? ==> [r.0.value] + r.1 == q
  {
    if q == [] then (None, q) else (Some(q[0]), q[1..])
  }

  /** The queue after offering every element of `xs` in turn. */
  function OfferAll<T>(q: seq<T>, xs: seq<T>): seq<T>
    decreases |xs|
  {
    if xs == [] then q else OfferAll(Offer(q, xs[0]), xs[1..])
  }

  /** What a consumer receives by polling until `Poll` answers `None`. */
  function Drain<T>(q: seq<T>): seq<T>
    decreases |q|
  {
    var (head, rest) := Poll(q);
    if head.None? then [] else [head.value] + Drain(rest)
  }

  function Min(a: int, b: int): int
  {
    if a <= b then a else b
  }

  /** Offering a run of elements keeps, in order, exactly the first
      `Capacity - |q|` of them and drops every later one, so the queue never
      grows past its capacity. */
  lemma {:induction false} OfferAllKeepsPrefix<T>(q: seq<T>, xs: seq<T>)
    requires |q| <= Capacity
    ensures OfferAll(q, xs) == q + xs[..Min(Capacity - |q|, |xs|)]
    ensures |OfferAll(q, xs)| <= Capacity
    decreases |xs|
  {
    if xs != [] {
      var q' := Offer(q, xs[0]);
      assert OfferAll(q, xs) == OfferAll(q', xs[1..]);
      OfferAllKeepsPrefix(q', xs[1..]);
      if |q| < Capacity {
        assert q' == q + [xs[0]];
        var n := Min(Capacity - |q|, |xs|);
        assert xs[1..][..n - 1] == xs[1..n];
        assert q' + xs[1..n] == q + xs[..n];
      } else {
        assert q' == q;
        assert xs[1..][..0] == xs[..0];
      }
    }
  }

  /** While space remains, every offered element is accepted and appended. */
  lemma OfferAllWithinCapacity<T>(q: seq<T>, xs: seq<T>)
    requires |q| + |xs| <= Capacity
    ensures OfferAll(q, xs) == q + xs
  {
    OfferAllKeepsPrefix(q, xs);
    assert xs[..|xs|] == xs;
  }

  /** Once the queue is full, further offers leave its contents and order
      unchanged. */
  lemma {:induction false} FullQueueIgnoresOffers<T>(q: seq<T>, xs: seq<T>)
    requires |q| == Capacity
    ensures OfferAll(q, xs) == q
    decreases |xs|
  {
    if xs != [] {
      FullQueueIgnoresOffers(q, xs[1..]);
    }
  }

  /** Polling until empty hands out the queued elements head first, each
      exactly once. */
  lemma {:induction false} DrainIsFifo<T>(q: seq<T>)
    ensures Drain(q) == q
    decreases |q|
  {
    if q != [] {
      DrainIsFifo(q[1..]);
      assert [q[0]] + q[1..] == q;
    }
  }

  /** Elements offered to an empty queue, up to its capacity, come out of it
      in the order they went in. */
  lemma FifoRoundTrip<T>(xs: seq<T>)
    requires |xs| <= Capacity
    ensures Drain(OfferAll([], xs)) == xs
  {
    OfferAllWithinCapacity([], xs);
    assert [] + xs == xs;
    DrainIsFifo(xs);
  }

  /** Of `Capacity + 1` elements offered to an empty queue the last is
      dropped: the queue then holds only the first `Capacity`. */
  lemma OverflowDropsLast<T>(xs: seq<T>)
    requires |xs| == Capacity + 1
    ensures OfferAll([], xs) == xs[..Capacity]
  {
    OfferAllKeepsPrefix([], xs);
    assert [] + xs[..Capacity] == xs[..Capacity];
  }
}
