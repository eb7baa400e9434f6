# Verified model of cavefinder-auth's caches

cavefinder-auth is a client library for an identity provider. Its hard logic sits in two
in-memory caches with concurrency protocols, and this project models them and proves what
they guarantee over whole runs and under every interleaving:

* **The JWKS cache** (`src/cavefinder_auth/jwks.py`): per-URL key sets with a fresh, stale
  and expired age, served stale when the provider is down; a bounded LRU; a negative cache
  of unknown kids; and two single-flight fetch protocols, one for threads
  (`threading.Event`), one for tasks (a shared `Future`, with cancellation).
* **The userinfo clients** (`src/cavefinder_auth/userinfo.py`): a TTL cache behind
  check, lock, recheck, with string keys and invalidation by a prefix scan, in an
  asynchronous and a synchronous version that differ in one point: only the synchronous
  `invalidate` takes the lock.
* Around them the JWK parser, the base64url integer decoder, and public-path matching
  (`src/cavefinder_auth/config.py`).

Verify everything with `dafny verify dfyconfig.toml` (Dafny 4.11).

## How the model is layered

`JwksStore` holds the shared state of the JWKS cache and cuts a `get_key` call where the
source does, at the network: `Open` decides before a fetch and `Settle` reacts to its end.
Everything else is built on these.

| file | role |
|---|---|
| `Lru` | the `OrderedDict` key order, against stack distance as the reference notion |
| `JwksStore` | entries, negative cache, one call's decisions |
| `JwksCache` | the class that updates these fields in place, proved against `JwksStore` |
| `JwksRuns`, `JwksLru` | whole runs of calls that do not overlap |
| `AsyncFetch`, `ColdBurst`, `AsyncRotation` | tasks interleaved at their awaits |
| `SyncFetch`, `SyncAge`, `SyncRotation` | threads interleaved at every lock section, with the asynchronous path as environment |
| `SyncProgress` | what a thread's call waits for and what it does not, and that it can end |
| `SyncScenes`, `SyncFollowers`, `SyncOutdated` | runs of threads, and what waiting for another thread's fetch costs, exactly |
| `SharedCache`, `SharedAge`, `SharedOutdated`, `SharedRotation`, `SharedProgress` | tasks and threads on one cache, interleaved at every lock section of either |
| `TaskStretch` | the lock sections of a task's stretch, uninterrupted, are its one step in `AsyncFetch` |
| `UserKeys`, `UserinfoStore`, `UserinfoClient` | cache keys, cache, and the class that updates it |
| `UserinfoProtocol`, `UserinfoFreshness`, `UserinfoInvalidation`, `UserinfoProgress`, `UserinfoSolo` | both userinfo clients under every interleaving |
| `Base64Url`, `JwkParser`, `PublicPaths` | decoding, parsing, path matching |
| `Rates`, `Wrappers` | how many spaced events fit into a window; `Option` |

The machines are functions `Step` over events; `Possible(evs)` says that each event can
happen when its turn comes, so a statement about `Exec(Initial, evs)` for all possible
`evs` is one about every reachable state. Key sets and responses carry history (which URL,
when completed, when requested) that no operation reads; properties are stated with it.
URLs, kids, keys and response bodies are opaque types, time is a real number that never
runs backwards within a machine, and the network, the clock and the token hash are inputs.

## What the code does not do

Where documentation and code disagree the model follows the code, and says exactly where
the promise breaks:

* `_fetch_coalesced` says that followers read what the leader has just stored
  (`src/cavefinder_auth/jwks.py:295-296`). The leader sets its event first and stores
  afterwards (`src/cavefinder_auth/jwks.py:178-181`, `:320-327`), so waiting costs two
  promises. At the branch that looks for a fetch in flight
  (`src/cavefinder_auth/jwks.py:300-308`), exactly:
  * a call can be answered beyond the age bound, by its own and its leader's steps alone, if
    and only if the leader has fetched an outdated key of its kid, or one is cached, or
    nothing is cached and the entry it holds has one (`OutdatedAloneExactlyWhen`). On a
    cache shared with tasks, while stores for the URL have been honest, it can if and only
    if a fetch is in flight and an outdated key of its kid is cached, carried by a thread or
    a task on the URL, or in a future that a task on the URL awaits
    (`SharedOutdated.OutdatedExactlyWhen`);
  * a call can raise although the fetch it depends on returned its kid if and only if
    another thread's fetch is in flight that has not already failed the kid
    (`MissesExactlyWhen`). The follower and its leader bring that about alone if and only if
    neither the cached entry nor, without one, the entry that the call holds gives the kid
    (`MissesAloneExactlyWhen`).

  A follower may so miss a key rotation, put the old key set back as new and stamp the new
  kid as unknown (`RotationCanBeMissed`). A task is then misled too, and exactly if the
  entry it reads is young enough by its own account and gives its kid an outdated key
  (`TaskOutdatedExactlyWhen`, `TaskCanBeMisled`). Leaders are never wronged
  (`LeaderGetsItsKeys`). Threads that do not wait keep both promises, URL by URL, to
  themselves and to tasks (`NobodyWaitsIsHonest`, `SharedAgeBound`,
  `SharedRotationBecomesVisible`), and tasks among themselves keep them in every
  interleaving (`AsyncAgeBound`, `AsyncRotationBecomesVisible`). Everyone keeps provenance
  (`OnlyGenuineAnswers`).
* The negative cache does not throttle every failing call: a fetch that fails with nothing
  young enough to serve leaves no stamp (`ThrottledExactlyWhen`, `ColdOutageIsUnthrottled`).
* `cache_ttl` and `stale_ttl` are not ordered by the constructor, so an entry is served up
  to the larger of the two.
* `ttl_seconds=0` is documented to write back a result from which later callers benefit
  (`src/cavefinder_auth/userinfo.py:144-146`). The entry written has already expired for them
  (`SecondFetchExactlyWhen`).
* The asynchronous `invalidate` does not wait for a request in flight, and is lost exactly
  when there is one for the user (`AsyncInvalidationExactlyWhen`).

## Model

| member | source | states |
|---|---|---|
| Lru.LruRefinesRecency | src/cavefinder_auth/jwks.py:121-132 | after any trace of stores and touches a URL is cached iff fewer than `max_urls` distinct URLs were used since its last effective use; cached URLs stand in the order of those uses, min(cap, distinct) of them, and the one just stored is there, last |
| Lru.LruInclusion | src/cavefinder_auth/jwks.py:121-132 | on one trace the key order under a smaller cap is a subsequence of the order under a larger one, and equal to it until the smaller cache is full |
| Lru.StoreElems | src/cavefinder_auth/jwks.py:121-127 | a store on a capped order loses nothing but the oldest key, and only when a new key meets a full cache |
| JwksStore.PutKeeps | src/cavefinder_auth/jwks.py:121-127 | `_store_entry` keeps table and order consistent and capped, holds the new entry, alters no other, and evicts exactly the oldest exactly when full |
| JwksStore.TouchKeeps | src/cavefinder_auth/jwks.py:129-132 | `_touch_entry` alters neither entries nor stamps |
| JwksStore.TouchMakesRecent | src/cavefinder_auth/jwks.py:129-132 | `_touch_entry` makes a cached URL the most recent, keeps the order of the others, and ignores any other URL |
| JwksStore.OpenIsSound | src/cavefinder_auth/jwks.py:169-174 | a key served without a fetch was fetched from that URL no longer ago than the age bound |
| JwksStore.SettleIsSound | src/cavefinder_auth/jwks.py:176-213 | the end of a call, in success, fallback and failure, keeps every entry genuine and no older than it claims, and serves within the age bound |
| JwksCache.JWKSCache.constructor | src/cavefinder_auth/jwks.py:70-105 | a new cache is empty |
| JwksCache.JWKSCache.Create | src/cavefinder_auth/jwks.py:83-88 | construction fails iff `max_urls` < 1 or `unknown_kid_ttl` < 0; the two lifetimes are not compared |
| JwksCache.JWKSCache.EvictOverflow | src/cavefinder_auth/jwks.py:125-127 | the `popitem` loop leaves the last `max_urls` keys of the order and exactly their entries |
| JwksCache.JWKSCache.StoreEntry | src/cavefinder_auth/jwks.py:121-127 | in-place insert, move and eviction give the specified store, with the new entry in it |
| JwksCache.JWKSCache.TouchEntry | src/cavefinder_auth/jwks.py:129-132 | in-place touch gives the specified store; a missing URL is left alone |
| JwksCache.JWKSCache.StampUnknown | src/cavefinder_auth/jwks.py:210-211 | `setdefault(...)[kid] = now` keeps the URL's other stamps |
| JwksCache.JWKSCache.FetchAndSettle | src/cavefinder_auth/jwks.py:176-213 | refresh and forced refresh, with their `except` branches, settle the call as specified |
| JwksCache.JWKSCache.GetKey | src/cavefinder_auth/jwks.py:137-213 | the whole in-place `get_key` refines the one-call specification on which the run properties below are proved: new state, answer and whether it fetched |
| JwksRuns.EffectOnStamps | src/cavefinder_auth/jwks.py:156-213 | in one call exactly one stamp can change, its own, and it does iff the answer is "unknown kid" |
| JwksRuns.WindowIsExact | src/cavefinder_auth/jwks.py:161-167 | however often a kid is asked for inside the window of its stamp, and whatever else is called or evicted, the next call for it is rejected without a fetch, leaving no trace, iff it comes within `unknown_kid_ttl` of that stamp: rejections never extend the window |
| JwksRuns.StampStays | src/cavefinder_auth/jwks.py:194-212 | once made, a stamp is never lost or moved back by any later calls or evictions |
| JwksRuns.StampsAreSpaced | src/cavefinder_auth/jwks.py:161-167 | two stamps for one (URL, kid) are more than `unknown_kid_ttl` apart, in any run |
| JwksRuns.UnknownKidFetchRate | src/cavefinder_auth/jwks.py:161-212 | calls for a kid that is never found make at most 1 + floor(W / `unknown_kid_ttl`) fetches in any window of length W, whatever else is called or evicted |
| JwksRuns.ThrottledExactlyWhen | src/cavefinder_auth/jwks.py:185-212 | after a call without a key an immediate retry is throttled iff the call was throttled itself, or its fetch succeeded, or there was an entry young enough to serve |
| JwksRuns.ColdOutageIsUnthrottled | src/cavefinder_auth/jwks.py:191 | with a cold cache and every fetch failing, every call of a run of any length fetches and nothing is ever recorded |
| JwksRuns.RotationBecomesVisible | src/cavefinder_auth/jwks.py:157-213 | in runs of calls that do not overlap: if from time T on every fetch of a URL succeeds and contains kid, every call for it from T + `unknown_kid_ttl` on returns a key |
| JwksRuns.OutageKeeps | src/cavefinder_auth/jwks.py:174-194 | during an outage no call on any URL alters or evicts an entry, nor stamps a kid that is held |
| JwksRuns.OutageTolerance | src/cavefinder_auth/jwks.py:174-194 | during an outage a held kid is served with the same key exactly while its age is at most max(`cache_ttl`, `stale_ttl`); after that every call raises |
| JwksRuns.RunIsSound | src/cavefinder_auth/jwks.py:137-213 | after any run from an empty cache every entry came from a successful fetch of its URL and is no older than it claims |
| JwksRuns.SequentialAgeBound | src/cavefinder_auth/jwks.py:137-213 | in runs of calls that do not overlap every key returned is the kid's in what a successful fetch of that URL returned no earlier than `now` − max(`cache_ttl`, `stale_ttl`) |
| JwksLru.CachedExactlyWhenRecent | src/cavefinder_auth/jwks.py:121-213 | after any run of `get_key` calls a URL is cached iff fewer than `max_urls` other URLs were used since its last use, uses being stored fetches and lookups that hit |
| JwksLru.FittingCall | src/cavefinder_auth/jwks.py:121-181 | while the URLs in use fit under the cap, a call stores what it fetched and loses nothing |
| JwksLru.KnownKidFetchRate | src/cavefinder_auth/jwks.py:169-181 | while the URLs in use fit and the kids asked for exist, calls on a URL make at most 1 + floor(W / `cache_ttl`) fetches in any window of length W |
| JwksLru.KnownKidFetchesExactlyWhen | src/cavefinder_auth/jwks.py:169-181 | under the same conditions a call fetches iff its URL has not been fetched before or was last fetched more than `cache_ttl` ago, and it always returns a key: an entry older than `cache_ttl` is never served without trying a refresh |
| AsyncFetch.RunFlights | src/cavefinder_auth/jwks.py:337-367 | the single-flight invariant holds after every possible sequence of calls, fetch ends, cancellations and resumptions |
| AsyncFetch.SingleFlight | src/cavefinder_auth/jwks.py:337-367 | in every reachable state at most one task is inside the HTTP fetch of a URL; its own future is the registered one and unresolved, so neither guard is ever false |
| AsyncFetch.NoFollowerStranded | src/cavefinder_auth/jwks.py:348-350 | a waiting follower has a live leader for its URL or can take the step that ends its call |
| AsyncFetch.OutcomeIsFinal | src/cavefinder_auth/jwks.py:358-366 | a resolved future never changes its outcome |
| AsyncFetch.FollowerGetsLeadersOutcome | src/cavefinder_auth/jwks.py:348-367 | a follower that is not cancelled settles with exactly the key set, or failure, of its leader's fetch, where a cancelled leader counts as failed |
| AsyncFetch.AsyncAgeBound | src/cavefinder_auth/jwks.py:215-285 | over all interleavings and cancellations a returned key comes from a fetch of that URL completed no earlier than call start − max(`cache_ttl`, `stale_ttl`) |
| AsyncFetch.AsyncEntriesAreSound | src/cavefinder_auth/jwks.py:248-253 | every entry ever stored came from a successful fetch of its URL that completed no earlier than its `fetched_at`; the cap holds |
| AsyncFetch.SoloCallIsGetKey | src/cavefinder_auth/jwks.py:215-285 | in any state, whatever is in flight, an uninterrupted task does exactly what the sequential `get_key` does, unless it needs a fetch and one is in flight: then it has looked the entry up, follows that fetch and starts none |
| AsyncFetch.FetchServesFollowers | src/cavefinder_auth/jwks.py:348-367 | in every reachable state the fetch a task follows can still return any key set, and the task then takes its kid's key from it |
| AsyncFetch.CancelDisturbsNoOne | src/cavefinder_auth/jwks.py:349-360 | a task can be cancelled at every await: a follower's cancellation changes nothing else; a leader's frees the URL and fails its flight, and leaves cache, stamps and every other task alone |
| ColdBurst.ColdBurstSharesOneFetch | src/cavefinder_auth/jwks.py:246-285 | from any reachable state, any number of calls on a cold URL that start before an uncancelled leader's fetch ends cause exactly one fetch; each finished caller has its kid's key from what it returned, or "unknown kid" without a second fetch, or, if it failed, its failure without another attempt, unless an older stamp rejected it |
| AsyncRotation.AsyncRotationBecomesVisible | src/cavefinder_auth/jwks.py:215-285 | over all interleavings of tasks: if every fetch of a URL that ends at T or later returns kid, every call for it that starts from T + `unknown_kid_ttl` on and is not cancelled finishes with a key, followers included |
| SyncFetch.RunFlights | src/cavefinder_auth/jwks.py:300-327 | the coalescing invariant holds after every possible sequence of lock sections, fetch ends, wake-ups and timeouts |
| SyncFetch.OneFetchPerUrl | src/cavefinder_auth/jwks.py:300-327 | at most one thread per URL is inside `_fetch`; its event is the registered one and is not set |
| SyncFetch.NoThreadPinned | src/cavefinder_auth/jwks.py:311-314 | a waiting thread can wake or its leader still has to set the event, and after `http_timeout` + 1 it can wake in any case (the bound from above) |
| SyncProgress.FollowerWaits | src/cavefinder_auth/jwks.py:311-314 | a thread that no longer waits before `http_timeout` + 1 have passed has a leader whose fetch has ended and whose event is set (the bound from below) |
| SyncProgress.NegativeCacheDecides | src/cavefinder_auth/jwks.py:156-167 | whatever is in flight, a thread that reads the negative cache is rejected iff its kid's stamp is in the window; that step changes nothing else, and otherwise no continuation ever rejects the call for the stamp |
| SyncProgress.StampedCallIsRejected | src/cavefinder_auth/jwks.py:156-167 | in every interleaving, with tasks as environment, a call whose kid is stamped in its window until it has read the negative cache is about to read it or rejected: it never leads, waits, stores or stamps |
| SyncProgress.FreshEntryDecides | src/cavefinder_auth/jwks.py:169-174 | whatever is in flight, a thread that reads the entry marks it as used and finishes there iff the entry is fresh and has the kid |
| SyncProgress.EveryCallCanFinish | src/cavefinder_auth/jwks.py:137-327 | from every reachable state a thread's call can come to its end by its own steps and with time, whatever others hold |
| SyncProgress.FollowerCanBeServed | src/cavefinder_auth/jwks.py:311-327 | from every reachable state in which its leader is fetching, a follower can be served the key set the leader gets, by the steps of these two |
| SyncFetch.LeaderGetsItsKeys | src/cavefinder_auth/jwks.py:176-213 | in every interleaving a thread whose own fetch returned a key set finishes with that set's answer for its kid |
| SyncFetch.OnlyGenuineKeys | src/cavefinder_auth/jwks.py:176-213 | in every interleaving of threads, with tasks as environment, whatever is stored or returned to a thread came from a successful fetch of that URL, and the cap holds |
| SyncAge.SyncAgeBound | src/cavefinder_auth/jwks.py:174-213 | in every run without a back-dated store (keys fetched before the storing call began) for a URL, whatever is stored for others, the age bound holds for that URL |
| SyncAge.NobodyWaitsIsHonest | src/cavefinder_auth/jwks.py:311-318 | a run in which no thread waits for another one's fetch of a URL has no back-dated store for it |
| SyncRotation.SyncRotationBecomesVisible | src/cavefinder_auth/jwks.py:137-213 | threads that do not wait for one another's fetch of a URL find a rotated-in kid in every interleaving, from T + `unknown_kid_ttl` on, provided tasks stamp the kid at no time since T |
| SyncFollowers.MissesExactlyWhen | src/cavefinder_auth/jwks.py:300-327 | a thread at the branch can raise although the fetch it comes to depend on returned its kid iff another thread's fetch is in flight that has not already failed the kid; whatever tasks do, and equally among threads alone |
| SyncFollowers.MissesAloneExactlyWhen | src/cavefinder_auth/jwks.py:300-327 | by steps of the two threads alone, iff moreover neither the cached entry nor, without one, the entry the call holds gives the kid |
| SyncFollowers.RotationCanBeMissed | src/cavefinder_auth/jwks.py:310-318 | from any reachable state with a follower, its leader fetching and an entry without the kid, a run of these two in which the fetch returns the kid while the follower raises, stamps it as missing and puts the old keys back as new |
| SyncOutdated.OutdatedAloneExactlyWhen | src/cavefinder_auth/jwks.py:300-327 | a thread at the branch can come to return an outdated key by its own and its leader's steps iff, as a follower, the leader has fetched one for its kid, or one is cached, or nothing is cached and the entry it holds has one; as a leader, iff that entry has one |
| SyncOutdated.HonestlyOutdatedExactlyWhen | src/cavefinder_auth/jwks.py:300-327 | where the URL's stores have been honest, iff a fetch is in flight whose leader has fetched an outdated key of the kid, or one is cached |
| SyncOutdated.LeaderOutdated | src/cavefinder_auth/jwks.py:320-327 | in any continuation a leader returns an outdated key only by falling back on one it holds, and then its fetch failing is enough |
| SyncScenes.SoloThreadIsGetKey | src/cavefinder_auth/jwks.py:137-327 | in any state, whatever is in flight, a thread's uninterrupted steps add up to the sequential `get_key`; if it has to join a fetch, the cache takes the place of the network |
| SyncScenes.FollowerCanMissItsLeader | src/cavefinder_auth/jwks.py:310-327 | from the start, a run in which the leader's fetch succeeds with the kid and its follower raises: an instance of `MissesAloneExactlyWhen` |
| SyncScenes.FollowersCanServeKeysOfAnyAge | src/cavefinder_auth/jwks.py:178-181 | from the start and by threads alone, for every time beyond the bound, a run in which a follower returns a key that the current key set no longer has, and the old key set replaces the new one as if fresh |
| SharedCache.OnlyGenuineAnswers | src/cavefinder_auth/jwks.py:174-285 | on a cache that tasks and threads share, in every interleaving of their lock sections, every entry and every answer of a task or a thread is from a successful fetch of its URL, and the cap holds |
| SharedCache.TasksShareFlights | src/cavefinder_auth/jwks.py:337-367 | beside threads, too, at most one task is inside the HTTP fetch of a URL |
| SharedCache.TasksStoreSoundly | src/cavefinder_auth/jwks.py:248-253 | whatever threads have put into the cache, a task never stores an entry that claims to be younger than its fetch |
| SharedCache.ThreadsBesideTasks | src/cavefinder_auth/jwks.py:137-367 | from every good state threads beside tasks reach only states that the thread machine reaches with its environment, so what is proved of all its reachable states and all continuations holds beside tasks |
| TaskStretch.StretchIsStep | src/cavefinder_auth/jwks.py:215-367 | in every reachable state of `AsyncFetch` the same events can happen as in `SharedCache` between stretches, and each step is the run of lock sections from one await to the next, uninterrupted |
| SharedProgress.NegativeCacheDecides | src/cavefinder_auth/jwks.py:233-244 | the same for tasks beside threads: a task that reads the negative cache is rejected iff its kid's stamp is in the window, changing nothing else, whatever is in flight |
| SharedProgress.FreshEntryDecides | src/cavefinder_auth/jwks.py:246-251 | a task that reads the entry marks it as used and finishes there iff the entry is fresh and has the kid, whatever is in flight |
| SharedProgress.FollowerWaits | src/cavefinder_auth/jwks.py:348-350 | a task that follows a flight goes on doing so until the flight has ended, or is cancelled |
| SharedProgress.EveryTaskCanFinish | src/cavefinder_auth/jwks.py:215-367 | from every reachable state a task's call can come to its end, whatever threads do or not |
| SharedAge.SharedAgeBound | src/cavefinder_auth/jwks.py:137-285 | the age bound holds for tasks and threads on a shared cache as long as no thread makes a back-dated store for the URL |
| SharedAge.TaskOutdatedExactlyWhen | src/cavefinder_auth/jwks.py:242-285 | a task about to read the entry can come to return an outdated key, in some continuation of tasks and threads, iff the entry is young enough to serve by its own account and gives its kid one |
| SharedAge.TaskCanBeMisled | src/cavefinder_auth/jwks.py:178-181 | for every time beyond the bound, a run in which a thread has stored an old key set as new and a task that starts then can be answered from it |
| SharedOutdated.WaiterOutdatedExactlyWhen | src/cavefinder_auth/jwks.py:310-318 | on a shared cache with honest stores so far, a waiting thread can come to return an outdated key iff one of its kid is cached, carried by another thread or a task on the URL, or in a future that a task on the URL awaits |
| SharedOutdated.OutdatedExactlyWhen | src/cavefinder_auth/jwks.py:300-327 | the same at the branch: iff another thread's fetch is in flight and an outdated key is on its way in that sense |
| SharedRotation.SharedRotationBecomesVisible | src/cavefinder_auth/jwks.py:137-285 | on a shared cache, in every interleaving: if every fetch of a URL that ends at T or later, a task's or a thread's, returns kid, and no thread waits for another one's fetch of it, every call for it from T + `unknown_kid_ttl` on that is not cancelled finishes with a key |
| Base64Url.ToIntIsBase64Number | src/cavefinder_auth/jwks.py:413-416 | on text over the alphabet decoding fails iff the length is 1 modulo 4, and else gives the base-64 number divided by 2^(6·length mod 8) |
| Base64Url.DecodesEncodedOctets | src/cavefinder_auth/jwks.py:413-416 | decoding the unpadded base64url of any octets (section 5 of RFC 4648) gives them back |
| Base64Url.Base64UrlUIntRoundTrip | src/cavefinder_auth/jwks.py:413-416 | every natural number in Base64urlUInt form (section 2 of RFC 7518) is read back |
| Base64Url.MinimalOctetsDenote | src/cavefinder_auth/jwks.py:416 | the big-endian octets denote the number and have no leading zero |
| Base64Url.SextetIsIndex | src/cavefinder_auth/jwks.py:416 | a character's value is its place in the standard or the URL-safe alphabet (sections 4 and 5 of RFC 4648) |
| Base64Url.PaddedReadsTheSame | src/cavefinder_auth/jwks.py:415 | text that is padded already is read as its unpadded form |
| JwkParser.ParseJwks | src/cavefinder_auth/jwks.py:387-410 | the loop computes the specified map; it fails iff `keys` is not a list of objects or no JWK in it is usable |
| JwkParser.ReadsExactlyKeySets | src/cavefinder_auth/jwks.py:389-409 | in terms of the document: it is read iff it is an object whose `keys` is a list of objects one of which offers a key, whatever other members there are |
| JwkParser.UsableExactlyWhen | src/cavefinder_auth/jwks.py:393-407 | a JWK is usable iff its `kty` is "RSA", its `kid` is a nonempty string, a number other than 0 or true, and its `n` and `e` are nonempty texts of which a key can be built; nothing else about it matters |
| JwkParser.OneJwkContributes | src/cavefinder_auth/jwks.py:391-407 | one more JWK registers the key it offers under its kid, or changes nothing |
| JwkParser.LastUsableWins | src/cavefinder_auth/jwks.py:391-407 | a kid is in the map iff some JWK is usable under it, with the key of the last such JWK |
| JwkParser.ConcatenationOverrides | src/cavefinder_auth/jwks.py:391-407 | parsing a concatenation overrides the first part's map with the second's |
| JwkParser.UnusableIsSkipped | src/cavefinder_auth/jwks.py:393-407 | an unusable JWK changes nothing, wherever it is put |
| JwkParser.EmptyExactlyWhenUnusable | src/cavefinder_auth/jwks.py:408-409 | the map is empty iff no JWK is usable |
| JwkParser.PublishedKeysAreRead | src/cavefinder_auth/jwks.py:387-416 | a key set published with distinct ids, in Base64urlUInt form, whatever other members its JWKs carry, is read back completely: each id has the key of its own two numbers, and no other id appears |
| UserKeys.PrefixNamesUser | src/cavefinder_auth/userinfo.py:245-248 | a key starts with decimal(v) and a colon iff its user is v, for all integers, negatives and digit prefixes included |
| UserKeys.KeysSeparateUsers | src/cavefinder_auth/userinfo.py:110-111 | two cache keys are equal iff user id and token prefix are |
| UserKeys.DecimalIsInjective | src/cavefinder_auth/userinfo.py:110-111 | the decimal form determines the integer |
| UserKeys.NoLeadingZero | src/cavefinder_auth/userinfo.py:110-111 | the decimal form has no leading zero |
| UserinfoStore.InvalidatesExactlyTheUser | src/cavefinder_auth/userinfo.py:238-248 | the prefix test removes exactly the user's entries and alters no other |
| UserinfoClient.Client.constructor | src/cavefinder_auth/userinfo.py:98-100 | a new client has an empty cache and history |
| UserinfoClient.Client.Fetch | src/cavefinder_auth/userinfo.py:130-177 | in terms of the client's history: no request is made iff the caller's ttl is positive and the latest response stored for its user and token since the user's last invalidation is unexpired by its writer's ttl, and then that response is the answer; a response obtained is recorded; the cache goes on mirroring the history |
| UserinfoClient.EffectInHistory | src/cavefinder_auth/userinfo.py:156-177 | the string-keyed cache with expiry times implements that history |
| UserinfoClient.Client.Invalidate | src/cavefinder_auth/userinfo.py:238-248 | the scan-and-delete loop removes exactly the user's entries, and records the invalidation |
| UserinfoClient.SecondFetchExactlyWhen | src/cavefinder_auth/userinfo.py:156-177 | a second fetch makes no request iff its own ttl is positive and the first one's has not run out; a forced fetch (ttl 0) helps no later caller |
| UserinfoClient.FetchAfterInvalidate | src/cavefinder_auth/userinfo.py:238-248 | the next fetch for an invalidated user makes a request, whatever its token; other users are answered as before |
| UserinfoProtocol.RunExclusive | src/cavefinder_auth/userinfo.py:164-177 | in every interleaving, aborts included, the lock names exactly the party that is inside |
| UserinfoProtocol.OneRequestInFlight | src/cavefinder_auth/userinfo.py:321-343 | one client never has two HTTP requests in flight, nor a request while an invalidation scans |
| UserinfoProgress.LookDecides | src/cavefinder_auth/userinfo.py:159-163 | whoever holds the lock, a call can look at once (in the asynchronous client, except between a response and its write): an unexpired entry answers it there and changes nothing else, otherwise it queues |
| UserinfoProgress.LookGivesLatest | src/cavefinder_auth/userinfo.py:159-163 | in every reachable state that look gives the latest response stored since the user's last invalidation, if unexpired |
| UserinfoProgress.InvalidateCompletes | src/cavefinder_auth/userinfo.py:373-378 | from every reachable state with the lock free, a locked invalidation ends by its own steps: exactly the other users' entries are kept, the lock is free, and only the drop is recorded |
| UserinfoProgress.ScanCanFinish | src/cavefinder_auth/userinfo.py:373-378 | from every reachable state with a scan under way its own steps lead to its release, with exactly the other users' entries kept |
| UserinfoProgress.EveryCallCanFinish | src/cavefinder_auth/userinfo.py:148-177 | from every reachable state of either client every call, fetch or invalidation, can come to its end |
| UserinfoProgress.CallsCanBeMade | src/cavefinder_auth/userinfo.py:238-248 | a fetch or an invalidation can be called at any time, whoever holds the lock, and then come to its end |
| UserinfoProgress.RequestCanSucceed | src/cavefinder_auth/userinfo.py:170-177 | a request on its way can be answered at any later moment, whoever waits; it then yields the caller's own answer, an entry that lives for the caller's ttl from that moment, and the free lock |
| UserinfoProgress.AbortIsClean | src/cavefinder_auth/userinfo.py:164-177 | a fetch aborted while it queues or requests leaves no trace: the lock is free if it had it, and cache, history and other calls are as before |
| UserinfoFreshness.AnswersAreFresh | src/cavefinder_auth/userinfo.py:148-177 | in every interleaving an answer is the caller's own fallback, its own response, or the response that was, at some moment since the call began, the latest stored for the same user and token prefix, with call start < completion + writer's ttl |
| UserinfoFreshness.CacheServesLatest | src/cavefinder_auth/userinfo.py:159-168 | a hit is the latest response stored for the key, expiring by its writer's ttl |
| UserinfoFreshness.RequestsAreSpaced | src/cavefinder_auth/userinfo.py:164-177 | between invalidations a successful request of a caller with ttl > 0 begins no earlier than the preceding one's completion plus that one's ttl |
| UserinfoFreshness.SuccessfulRequestRate | src/cavefinder_auth/userinfo.py:159-177 | when callers share a ttl, at most 1 + floor(W / ttl) successful requests per key begin in a window of length W between invalidations |
| UserinfoSolo.SoloFetchIsFetchEffect | src/cavefinder_auth/userinfo.py:148-177 | with nobody else at work the steps of a call, in both clients, amount to `Client.Fetch`: same cache, answer and history, the lock free again |
| UserinfoInvalidation.SyncInvalidationIsLinearizable | src/cavefinder_auth/userinfo.py:321-378 | a fetch that starts after the locked `invalidate(u)` has returned never yields, for u, a payload requested before that invalidation |
| UserinfoInvalidation.AsyncInvalidationExactlyWhen | src/cavefinder_auth/userinfo.py:238-248 | in every reachable state some continuation serves a later call a payload requested before the unlocked `invalidate(u)` iff a request for u is in flight at that moment |
| UserinfoInvalidation.NothingInFlightIsSafe | src/cavefinder_auth/userinfo.py:238-248 | with none in flight, no continuation of any length does |
| PublicPaths.MatchesBySegments | src/cavefinder_auth/config.py:77 | an entry without trailing slash matches iff its segments are a prefix of the path's; with trailing slashes iff the segments before them are a proper prefix |
| PublicPaths.PublicExactlyWhen | src/cavefinder_auth/config.py:75-77 | a path is public iff some configured entry covers its leading segments in that sense |
| PublicPaths.JoinOfSplit | src/cavefinder_auth/config.py:77 | the segments determine the path |
| PublicPaths.SiblingIsNotPublic | src/cavefinder_auth/config.py:77 | an entry does not match a path that goes on with a character other than a slash |

## Left out

- HTTP (`_fetch`, `_fetch_async`, `_http_fetch`, connection pooling, `aclose`): an input that succeeds with a value or fails.
- RSA keys, JWT verification, SHA-256, `m2m.py` and `tokens.py`: keys and bodies are opaque, key construction is a parameter of the parser, and the token prefix is a parameter of `Fetch`.
- Base64Url.ToInt: fails on characters outside the alphabet, which CPython's decoder skips, and on padding in the wrong place, which it tolerates; its theorems are about text over the alphabet, padded or not. The parser's own theorems hold for any decoder.
- UserinfoClient.Client.Fetch: the claims fallback is an opaque answer; its field defaults, and the exception it raises for a truthy `sub` that is not a number, are not modelled. In the protocol that exception is the event `Abort`.
- AsyncFetch.AsyncAgeBound: speaks of tasks alone, because threads can back-date entries; beside threads see `SharedAge`.
- AsyncRotation.AsyncRotationBecomesVisible: speaks of tasks alone, because a thread that waits can stamp a kid that has been fetched; beside threads that do not, see `SharedRotation`.
- JwksRuns.RotationBecomesVisible: speaks of calls that do not overlap; for overlapping ones see `SharedRotation` and `SyncFollowers.RotationCanBeMissed`.
- SharedOutdated.OutdatedExactlyWhen: assumes that no thread has back-dated the URL's entry so far; once one has, `SyncOutdated.OutdatedAloneExactlyWhen` decides for a thread and its leader alone.
- SyncFollowers.MissesExactlyWhen: takes a second kid as given, so that a key set without the first one can exist.
- ColdBurst.ColdBurstSharesOneFetch: speaks of calls that start before the fetch completes; a later call may find the kid missing, or the fetch failed, and fetch again.
- Async calls in `UserinfoProtocol` may be interrupted between the first look and the lock even when the lock is free, which asyncio does not do: the proved properties cover more runs than there are.
- Several event loops on one cache or client, a clock that runs backwards during a run of overlapping calls, and rounding of floating-point times.
- Test overrides (`set_override`, `clear_override`) and `testing.py`: no override is assumed.
- Logging and error texts: an answer says which kind of error is raised.
- The Starlette middleware, the Flask adapter, `get_user_tier`, and `examples/`: plumbing around libraries, with properties that one branch settles.
- Python object identity: cached dictionaries are values here, so a caller that mutates a returned payload is not modelled.
