/**
 * The read side of the poll: the cache of vote counts per choice, the
 * fallback that turns a failed backend call into an empty result, and the
 * periodic refresh that copies backend results into the cache.
 */
module VoteCaching {
  import opened Wrappers

  /** The cache of results served by `GET /votes`: vote counts per choice. */
  class VoteCache {
    var votes: map<string, int>

    constructor ()
      ensures votes == map[]
    {
      votes := map[];
    }

    /** A snapshot of the current results; reading it changes nothing. */
    method Get() returns (snapshot: map<string, int>)
      ensures snapshot == votes
    {
      snapshot := votes;
    }

    /** Clears the cache and copies every entry of `newVotes` into it, so
        that afterwards the cache holds exactly `newVotes`. */
    method Update(newVotes: map<string, int>)
      modifies this
      ensures votes == newVotes
    {
      votes := map[];
      votes := votes + newVotes;
    }
  }

  /** What the fallback client answers when the backend call fails. */
  function FallbackResults(): (r: map<string, int>)
    ensures |r| == 0
  {
    map[]
  }

  /** The results the refresher receives from the backend client: the
      backend's answer, or the fallback's when the call failed (`None`). */
  function FetchResults(response: Option<map<string, int>>): (r: map<string, int>)
    ensures response.Some? ==> r == response.value
    ensures |r| == 0 <==> response.None? || |response.value| == 0
  {
    match response
    case Some(results) => results
    case None => FallbackResults()
  }

  /** The cache contents after one refresh with `results`: never a mix of
      the two maps, and never emptied once it holds something. */
  function Refresh(current: map<string, int>, results: map<string, int>): (next: map<string, int>)
    ensures next == current || next == results
    ensures |next| == 0 ==> |current| == 0 && |results| == 0
  {
    if |results| != 0 then results else current
  }

  /** The scheduled job that refreshes the cache from the backend. */
  class VoteCacheUpdater {
    const cache: VoteCache

    constructor (cache: VoteCache)
      ensures this.cache == cache
    {
      this.cache := cache;
    }

    /** One tick: fetch results (the backend's answer is `response`) and
        replace the cache with them only when they are not empty. */
    method UpdateVotes(response: Option<map<string, int>>)
      modifies cache
      ensures cache.votes == Refresh(old(cache.votes), FetchResults(response))
      ensures response.None? ==> cache.votes == old(cache.votes)
      ensures response.Some? && |response.value| == 0 ==> cache.votes == old(cache.votes)
      ensures response.Some? && |response.value| != 0 ==> cache.votes == response.value
    {
      var results := FetchResults(response);
      if |results| != 0 {
        cache.Update(results);
      }
    }
  }

  /** The cache contents after a run of ticks, oldest response first. */
  function RefreshAll(current: map<string, int>, responses: seq<Option<map<string, int>>>): map<string, int>
    decreases |responses|
  {
    if responses == [] then current
    else RefreshAll(Refresh(current, FetchResults(responses[0])), responses[1..])
  }

  /** The most recent non-empty result among `responses`, or `initial` when
      every tick fetched nothing. */
  function LatestResults(initial: map<string, int>, responses: seq<Option<map<string, int>>>): map<string, int>
    decreases |responses|
  {
    if responses == [] then initial
    else
      var last := FetchResults(responses[|responses| - 1]);
      if |last| != 0 then last else LatestResults(initial, responses[..|responses| - 1])
  }

  /** A further tick refreshes whatever the earlier ticks left. */
  lemma {:induction false} RefreshAllSnoc(current: map<string, int>, responses: seq<Option<map<string, int>>>, response: Option<map<string, int>>)
    ensures RefreshAll(current, responses + [response])
         == Refresh(RefreshAll(current, responses), FetchResults(response))
    decreases |responses|
  {
    if responses == [] {
      assert [] + [response] == [response];
      assert [response][1..] == [];
    } else {
      assert (responses + [response])[1..] == responses[1..] + [response];
      RefreshAllSnoc(Refresh(current, FetchResults(responses[0])), responses[1..], response);
    }
  }

  /** After any run of ticks the cache holds the latest non-empty result,
      or its initial contents if no tick fetched anything. */
  lemma {:induction false} RefreshAllIsLatest(initial: map<string, int>, responses: seq<Option<map<string, int>>>)
    ensures RefreshAll(initial, responses) == LatestResults(initial, responses)
    decreases |responses|
  {
    if responses != [] {
      var earlier := responses[..|responses| - 1];
      var last := responses[|responses| - 1];
      assert responses == earlier + [last];
      RefreshAllSnoc(initial, earlier, last);
      RefreshAllIsLatest(initial, earlier);
    }
  }

  /** A backend that keeps failing leaves the cache as it was. */
  lemma {:induction false} FailedTicksKeepCache(current: map<string, int>, responses: seq<Option<map<string, int>>>)
    requires forall k :: 0 <= k < |responses| ==> responses[k].None?
    ensures RefreshAll(current, responses) == current
    decreases |responses|
  {
    if responses != [] {
      FailedTicksKeepCache(current, responses[1..]);
    }
  }

  /** Once the cache holds results, no run of ticks empties it again. */
  lemma {:induction false} NonEmptyCacheStaysNonEmpty(current: map<string, int>, responses: seq<Option<map<string, int>>>)
    requires |current| != 0
    ensures |RefreshAll(current, responses)| != 0
    decreases |responses|
  {
    if responses != [] {
      NonEmptyCacheStaysNonEmpty(Refresh(current, FetchResults(responses[0])), responses[1..]);
    }
  }
}
