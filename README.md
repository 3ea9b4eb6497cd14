# Poll front end: vote queue, result cache and refresh

A Dafny model of the core of the poll front end (`polls-frontend/src/main/java/fr/alexandreroman/cloudnativepoll/webui/Application.java`):

- **Vote write path** (`VotesController`). `POST /votes` offers each vote to a FIFO
  queue of 128 slots and increments a cast-vote counter. The transport that forwards votes
  to the backend pulls them with a non-blocking poll. Module `BoundedQueue` gives the queue's
  `offer` and `poll` as functions on its contents. Module `Votes` holds the controller as a
  class: a `seq<VoteRequest>` field for the queue, an `int` field for the counter, and the
  shared cache.
- **Result cache** (`VoteCache`). `GET /votes` returns a copy of the cached counts.
  `update` clears the map and copies the new results in. Module `VoteCaching` models it as a
  class with a `map<string, int>` field. Dafny maps are values, so a snapshot returned by
  `Get` cannot be changed through the cache, nor the cache through it.
- **Refresh with fallback** (`VoteCacheUpdater`, `BackendClientServiceFallback`). Each
  scheduled tick fetches the results and replaces the cache only when they are not empty. A
  failed backend call yields the fallback's empty map, so a failure leaves the cache as it was.
  The backend's answer is a parameter: `Some(results)` for a completed call, `None` for a
  failed one. `RefreshAll` runs a sequence of ticks. `LatestResults` is an independent
  description of the outcome: the latest non-empty result, or the initial contents.
- **Index page** (`IndexController.index`). A loop pairs the i-th configured choice with the
  i-th image. With fewer images than choices, the image lookup at index `|images|` throws.
  The model returns `Failure(IndexOutOfBounds(|images|))` in that case.

The comment at Application.java:126-129 says queued votes are never lost. The code uses a
non-blocking `offer` on a queue of 128 slots, so a vote cast while the queue is full is
dropped, although the counter still counts it. The model follows the code:
`OfferAllKeepsPrefix` and `OverflowDropsLast` state exactly which votes are kept.

## Model

| member | source | states |
|---|---|---|
| `Votes.VotesController.constructor` | polls-frontend/src/main/java/fr/alexandreroman/cloudnativepoll/webui/Application.java:111-114 | The queue starts empty and the cast-vote counter at zero. |
| `Votes.VotesController.CastVote` | polls-frontend/src/main/java/fr/alexandreroman/cloudnativepoll/webui/Application.java:121-131 | With fewer than 128 queued, the vote is appended at the tail. With 128 queued, the queue's contents and order are unchanged. The counter grows by exactly one in both cases. The queue stays within 128 and the cache is untouched. |
| `Votes.VotesController.Poll` | polls-frontend/src/main/java/fr/alexandreroman/cloudnativepoll/webui/Application.java:133-136 | An empty queue yields `None` and stays empty. Otherwise the result is the head and the queue keeps its tail. The counter and the cache do not change. |
| `Votes.VotesController.GetVotes` | polls-frontend/src/main/java/fr/alexandreroman/cloudnativepoll/webui/Application.java:116-119 | Returns exactly the cache's current contents, changing nothing. |
| `BoundedQueue.Offer` | polls-frontend/src/main/java/fr/alexandreroman/cloudnativepoll/webui/Application.java:114-124 | Its definition is the model of the queue's non-blocking `offer`. Existing contents and order are kept. The queue grows, by `x` at the tail, exactly when a slot is free, and it never grows past 128. |
| `BoundedQueue.Poll` | polls-frontend/src/main/java/fr/alexandreroman/cloudnativepoll/webui/Application.java:134-135 | Its definition is the model of the queue's non-blocking `poll`. It yields nothing exactly when the queue is empty, and then the queue is unchanged. Otherwise the head followed by the remaining queue is the old queue. |
| `BoundedQueue.OfferAllKeepsPrefix` | polls-frontend/src/main/java/fr/alexandreroman/cloudnativepoll/webui/Application.java:114-124 | Offering a run of votes keeps, in order, exactly as many of them as there were free slots and drops the rest. The queue never exceeds 128. |
| `BoundedQueue.OfferAllWithinCapacity` | polls-frontend/src/main/java/fr/alexandreroman/cloudnativepoll/webui/Application.java:114-124 | While space remains, every offered vote is appended in order. None is lost. |
| `BoundedQueue.FullQueueIgnoresOffers` | polls-frontend/src/main/java/fr/alexandreroman/cloudnativepoll/webui/Application.java:114-124 | On a full queue, any further offers leave contents and order unchanged. |
| `BoundedQueue.OverflowDropsLast` | polls-frontend/src/main/java/fr/alexandreroman/cloudnativepoll/webui/Application.java:114-124 | Of 129 votes offered to an empty queue, the queue keeps the first 128. The 129th is dropped. |
| `BoundedQueue.DrainIsFifo` | polls-frontend/src/main/java/fr/alexandreroman/cloudnativepoll/webui/Application.java:133-136 | Polling until empty hands out every queued vote once, head first. |
| `BoundedQueue.FifoRoundTrip` | polls-frontend/src/main/java/fr/alexandreroman/cloudnativepoll/webui/Application.java:114-136 | Up to 128 votes offered to an empty queue come out in the order they were cast. |
| `VoteCaching.VoteCache.constructor` | polls-frontend/src/main/java/fr/alexandreroman/cloudnativepoll/webui/Application.java:146-147 | The cache starts empty. |
| `VoteCaching.VoteCache.Get` | polls-frontend/src/main/java/fr/alexandreroman/cloudnativepoll/webui/Application.java:149-153 | Returns a map equal to the current contents, changing nothing. |
| `VoteCaching.VoteCache.Update` | polls-frontend/src/main/java/fr/alexandreroman/cloudnativepoll/webui/Application.java:155-160 | Afterwards the cache equals the new map: keys not in it are gone, and every key it has carries its value. |
| `VoteCaching.FallbackResults` | polls-frontend/src/main/java/fr/alexandreroman/cloudnativepoll/webui/Application.java:171-177 | The fallback answers with an empty map. |
| `VoteCaching.FetchResults` | polls-frontend/src/main/java/fr/alexandreroman/cloudnativepoll/webui/Application.java:163-176 | A completed call yields the backend's map unchanged. The refresher sees an empty result exactly when the call failed or the backend had no results. |
| `VoteCaching.Refresh` | polls-frontend/src/main/java/fr/alexandreroman/cloudnativepoll/webui/Application.java:192-196 | After one refresh the cache is either the old contents or the new results, never a mix. It becomes empty only if it was empty and the results were empty. |
| `VoteCaching.VoteCacheUpdater.constructor` | polls-frontend/src/main/java/fr/alexandreroman/cloudnativepoll/webui/Application.java:179-184 | The updater keeps the cache it is given, and the refresh ticks work on that cache. |
| `VoteCaching.VoteCacheUpdater.UpdateVotes` | polls-frontend/src/main/java/fr/alexandreroman/cloudnativepoll/webui/Application.java:186-197 | A failed call, or an empty result, leaves the cache unchanged. A non-empty result becomes the cache's exact contents. |
| `VoteCaching.RefreshAllSnoc` | polls-frontend/src/main/java/fr/alexandreroman/cloudnativepoll/webui/Application.java:186-197 | One more tick refreshes whatever the earlier ticks left. |
| `VoteCaching.RefreshAllIsLatest` | polls-frontend/src/main/java/fr/alexandreroman/cloudnativepoll/webui/Application.java:186-197 | After any run of ticks the cache holds the latest non-empty fetched result, or its initial contents if every tick fetched nothing. |
| `VoteCaching.FailedTicksKeepCache` | polls-frontend/src/main/java/fr/alexandreroman/cloudnativepoll/webui/Application.java:173-176 | Ticks whose backend calls all fail leave the cache as it was. |
| `VoteCaching.NonEmptyCacheStaysNonEmpty` | polls-frontend/src/main/java/fr/alexandreroman/cloudnativepoll/webui/Application.java:189-196 | Once the cache holds results, no run of ticks empties it again. |
| `IndexPage.Index` | polls-frontend/src/main/java/fr/alexandreroman/cloudnativepoll/webui/Application.java:86-98 | Succeeds exactly when there are at least as many images as choices. On success, entry i is (choice i, image i). The choice texts are the configured choices, and the images are the leading images, one per choice. Otherwise it fails at the index one past the last image. |

## Left out

- Concurrency: the `synchronized` blocks of `VoteCache` and the thread safety of the queue. Each of these operations runs as one atomic step, and the model treats each as one sequential call.
- Framework wiring: the Spring Boot entry point, the `RestTemplate` bean, loading `PollConfig` from configuration, and the `@Scheduled` timing. One tick of the schedule is one call to `UpdateVotes`.
- The Feign HTTP client `BackendClientService`. It is a network call, so its outcome is the `response` parameter of `UpdateVotes`. No map is null and no vote count is null.
- The metrics library: the Micrometer counter is a plain `int` field starting at zero. The model does not capture its floating-point representation or a counter shared through the meter registry.
- Logging, the `MessageBuilder` wrapping of each queued vote, and the message transport behind `voteQueueSource`. A queued element is just the `VoteRequest`.
- The creation of the supplier bean in `voteQueueSource`: `Poll` models one call of that supplier.
- Rendering of the `index` view and the `question` entry put into the view map; only the choice list is modelled.
