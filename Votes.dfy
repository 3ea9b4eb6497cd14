/**
 * The vote endpoints: casting a vote puts it on the bounded queue that the
 * message transport drains, and counts it; reading votes returns the cached
 * results.
 */
module Votes {
  import opened Wrappers
  import BoundedQueue
  import VoteCaching

  /** The body of `POST /votes`: the choice voted for. */
  datatype VoteRequest = VoteRequest(choice: string)

  class VotesController {
    /** The number of votes cast, as the metrics counter records it. */
    var castedVoteCounter: int
    const cache: VoteCaching.VoteCache
    /** Votes waiting for the transport, head first. */
    var requestQueue: seq<VoteRequest>

    ghost predicate Valid()
      reads this
    {
      |requestQueue| <= BoundedQueue.Capacity
    }

    constructor (cache: VoteCaching.VoteCache)
      ensures Valid()
      ensures this.cache == cache && requestQueue == [] && castedVoteCounter == 0
    {
      this.cache := cache;
      requestQueue := [];
      castedVoteCounter := 0;
    }

    /** `GET /votes`: the current cached results. */
    method GetVotes() returns (votes: map<string, int>)
      ensures votes == cache.votes
    {
      votes := cache.Get();
    }

    /** `POST /votes`: offers the vote to the queue, which drops it when all
        slots are taken, and counts it in either case. */
    method CastVote(req: VoteRequest)
      requires Valid()
      modifies this
      ensures Valid()
      ensures requestQueue == BoundedQueue.Offer(old(requestQueue), req)
      ensures |old(requestQueue)| < BoundedQueue.Capacity ==> requestQueue == old(requestQueue) + [req]
      ensures |old(requestQueue)| == BoundedQueue.Capacity ==> requestQueue == old(requestQueue)
      ensures castedVoteCounter == old(castedVoteCounter) + 1
      ensures cache.votes == old(cache.votes)
    {
      requestQueue := BoundedQueue.Offer(requestQueue, req);
      castedVoteCounter := castedVoteCounter + 1;
    }

    /** The vote source the transport pulls from: the oldest queued vote,
        or `None` without waiting when the queue is empty. */
    method Poll() returns (next: Option<VoteRequest>)
      requires Valid()
      modifies this
      ensures Valid()
      ensures (next, requestQueue) == BoundedQueue.Poll(old(requestQueue))
      ensures old(requestQueue) == [] ==> next == None && requestQueue == []
      ensures old(requestQueue) != [] ==> next == Some(old(requestQueue)[0]) && requestQueue == old(requestQueue)[1..]
      ensures castedVoteCounter == old(castedVoteCounter)
      ensures cache.votes == old(cache.votes)
    {
      var (head, rest) := BoundedQueue.Poll(requestQueue);
      next, requestQueue := head, rest;
    }
  }
}
