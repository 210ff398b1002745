# A model of the resolver's caching and refresh engine

This project models, in Dafny 4.11, the parts of the DNS resolver that hold state: the in-memory SIEVE cache and its
shards, the Redis tier with its expiry index and locks, the refresh protocol, the SERVFAIL tracker, the hit batcher, the
hourly counters, the blocklist decision with its Bloom filter, and the choice of upstreams. `dafny verify dfyconfig.toml`
checks all of it.

| file | models | in the form of |
|---|---|---|
| `Types.dfy` | keys, the clock, messages | values |
| `Sieve.dfy` | what each call of the SIEVE cache does | functions on a state |
| `SieveRuns.dfy`, `StrayRun.dfy` | what the SIEVE cache keeps: invariants over runs; a run in which it does not | lemmas |
| `SieveOrder.dfy` | the order of eviction, by places of the list | lemmas |
| `LruCache.dfy` | `LRUCache`: list, map, hand and visited bits | a class, each method proved against `Sieve` |
| `ShardedLru.dfy`, `ShardRuns.dfy` | `ShardedLRUCache` and its refinement of one map | a class; lemmas over runs |
| `Redis.dfy` | the shared store: hashes, expiry index, hit counts, locks | a value with one function per atomic command; a class that holds it |
| `Eviction.dfy` | which keys go over the cap | lemmas about the evicted keys |
| `RedisCache.dfy` | the two tiers seen as one cache; cap eviction | a class |
| `TwoTier.dfy` | stores, promotions, expiry and deletion over any number of instances | a state machine |
| `LatestStore.dfy` | the same for one instance, with lookup and promotion as one step | a state machine |
| `ExpiryIndex.dfy` | the index against the hashes, with lookups and removals interleaved | a state machine |
| `Sweep.dfy` | the sweep over due keys | a class; lemmas |
| `RefreshProtocol.dfy`, `RefreshProofs.dfy`, `GateProofs.dfy`, `StopProofs.dfy` | semaphore, lock, backoff and SERVFAIL gate over any number of instances | a state machine; lemmas over runs |
| `Servfail.dfy` | the SERVFAIL tracker | a class |
| `HitBatcher.dfy` | pending, detached and submitted hits, and the futures | a state machine; a class |
| `HourlyRing.dfy` | the ring of 24 hourly counters | a class; a log it stands for |
| `Bloom.dfy`, `Blocklist.dfy` | the Bloom filter and the blocklist manager | classes |
| `Upstreams.dfy` | orderings, backoff and failover | a class; lemmas |
| `CacheKeys.dfy` | the cache key printer and parser | functions |

Time is in nanoseconds and is read once per call, and a second time by the write of a promotion; seconds in the store are
rounded down as `time.Time.Unix` does. Map iteration, and the order among equals in sorted results, are arbitrary. A body
under a mutex, and a Redis pipeline, is one step.

## What the proofs found

- **A key can vanish as it is set.** `removeElement` leaves the hand on the element it unlinks. When the cache is full and
  the hand lies on an unlinked, unvisited element, the next eviction deletes that element's key from the map, which may by
  then belong to the element just inserted. `SieveRuns.PutLosesIff` and `SieveRuns.PutIsFoundIff` give the exact condition,
  `SieveRuns.LostInsertion` a run that ends so. The element stays listed without a map entry; when it expires,
  `CleanExpired` deletes its key from the map even if a newer element holds it by then: exactly when is in
  `SieveRuns.CleanIsInvisibleIff`, and a run from an empty cache that loses a live key so is `StrayRun.SweepDropsLiveKey`.
  List and map stop being one-to-one in one case only (`SieveRuns.StepKeepsBijectiveIff`).
- **Old authoritative TTLs stay.** `SetWithIndex` writes `auth_ttl` only when it is positive, and HSET merges; a hash
  stored again without one keeps its old field (`TwoTier.AuthTTLReadBackIff`).
- **Reconciliation and sweeps race with stores.** A key looked up as absent may be stored again before its index entry is
  removed; it is then live and not in the index (`ExpiryIndex.StoreRacesRemoval`). Over whole runs a live key is missing
  exactly if it was taken out while live and neither stored nor deleted since (`ExpiryIndex.IndexedIff`).
- **The creation time is that of the latest store.** The comment at `internal/cache/redis.go:702` calls it the time when
  the entry was first stored, but every `SetWithIndex` writes it anew. A key whose TTL and grace period fit into
  `sweep_hit_window`, with a second to spare, is therefore never old enough to be deleted as cold
  (`Sweep.ColdIsPossibleIff`).
- **An eviction may free nothing.** `EvictToCap` takes its candidates from the index, dead entries included, and a dead
  one sorts as created at the zero time (`Eviction.DeadGoesSoonerIff`, `Eviction.EvictionFreesNothing`). The count is sure
  to land on the cap exactly if the sample is large enough and before each dead key of it there are as many others as are
  to go (`Eviction.EvictionSureIff`).
- **A SERVFAIL stop ends with a pruning and not with a success.** The comment at
  `internal/dnsresolver/servfail_tracker.go:125` says that the stop holds until a successful refresh; but no refresh is
  issued any more. A step is sure to keep the stop exactly if its pruning is sure to keep the count
  (`StopProofs.StopSafeIff`, `Servfail.KeepsCountIff`), and with a backoff configured every stop can be lifted by failing
  queries alone (`StopProofs.StopCanBeLifted`).
- **The 24 hour window ends at the last event.** Slots are cleared by recording and not by reading, so that a snapshot
  after a quiet spell counts events older than 24 hours (`HourlyRing.SnapshotIsCurrentIff`).
- **Upstreams with one address share a backoff.** The second is skipped after the first has failed
  (`Upstreams.SharedAddressIsSkipped`). The first that works is sure to answer exactly if backoff is off or the addresses
  are distinct (`Upstreams.AnswersFirstIff`).
- **Over its cap the SERVFAIL tracker drops arbitrary timers**, where the comment at
  `internal/dnsresolver/servfail_tracker.go:135` speaks of the oldest; they are the oldest for sure exactly if
  all deadlines are the same (`Servfail.DropsOldestIff`).
- **Parsed keys need not print back.** The parser takes signs, leading zeros and numbers over 16 bits
  (`CacheKeys.PrintParsedIff`, `CacheKeys.LeadingZeroIsLost`).
- **A slow promotion can outlast its store.** It writes the time left as of its lookup with a second reading of the clock,
  at `internal/cache/lru.go:154`. The copy stays fresh too long exactly if the write came later after the lookup than the
  fraction of a second that rounding took from the soft expiry, and it is served too long exactly if it came later by more
  than its shorter grace period makes up as well (`TwoTier.PromotionOutlastsIff`); `TwoTier.ServedTooLong` is a run in which
  an answer is served half a second too long.
- **A slow promotion can bring back an older answer.** With lookup and promotion in one step a hit is always the latest
  store of its key (`LatestStore.AnswerIsLatest`); with a store between the two it need not be (`LatestStore.OldComesBack`).

## Model

| member | source | states |
|---|---|---|
| `SieveRuns.EvictScan` | internal/cache/lru.go:197-228 | From a linked hand the victim is the first unvisited entry in cyclic tail-to-head order, or the hand's own when all are visited; exactly the bits passed are cleared, the hand ends on the entry after the victim, and the loop runs once per spared entry and once more, at most Len+1 times |
| `SieveRuns.DropKeeps` | internal/cache/lru.go:221-223 | Evicting the entry under the hand keeps every map entry on a listed element, and keeps list and map one-to-one if and only if that element is listed or its key has not been inserted again |
| `SieveRuns.LoopKeeps` | internal/cache/lru.go:204-227 | The whole loop keeps the map consistent from any hand, detached or not, and the one-to-one correspondence from a linked one |
| `SieveRuns.EvictOneVictim` | internal/cache/lru.go:197-228 | With one entry too many, an eviction unlinks exactly one listed entry, an unvisited one if there is one and never the freshly inserted one, drops its key and, from a hand left on an unlinked element, that element's key; nothing else changes but bits |
| `SieveRuns.VictimIsUnlinked` | internal/cache/lru.go:197-228 | The entry named as victim before an insertion is the one the eviction unlinks; which place of the list that is, is in `SieveOrder.VictimInOrder` |
| `SieveRuns.FirstUnvisitedUnique` | internal/cache/lru.go:204-223 | There is one such place in the scan only |
| `SieveOrder.VictimInOrder` | internal/cache/lru.go:197-228 | From any state with one entry too many: the scan starts at the hand, or at the tail when there is no hand or it is on an unlinked element, goes toward the front and from there back to the tail; the first entry with a clear bit is unlinked, and with all bits set the one at the start. The hand ends on the next place, exactly the bits passed are cleared, and the order of the others stays |
| `SieveOrder.FirstUnvisitedGoes` | internal/cache/lru.go:201-223 | The same with the victim named as the first unvisited place of the scan |
| `SieveOrder.OldestGoes` | internal/cache/lru.go:201-203 | Without a hand, and with every entry visited, the entry at the tail goes |
| `SieveRuns.PutEvicts` | internal/cache/lru.go:137-144 | Setting a new key at capacity unlinks one entry that was there before, never the new one, and restores the invariants |
| `SieveRuns.PutReplacesOne` | internal/cache/lru.go:118-144 | With a linked hand, a Set of a new key in a full cache removes the key of exactly one other entry and adds its own |
| `SieveRuns.PutLosesIff` | internal/cache/lru.go:137-144 | In a full cache a new key is lost as it is set exactly when the first unvisited entry of the scan from the hand, or the unlinked unvisited element under the hand, carries it: both are known before the call |
| `SieveRuns.HitSurvives` | internal/cache/lru.go:67-97 | An entry that was hit survives the next eviction if any other entry was not hit |
| `SieveRuns.SetSurvives` | internal/cache/lru.go:165-177 | So does an entry whose key was set again |
| `SieveRuns.PutIsFoundIff` | internal/cache/lru.go:147-192 | A key that no unmapped listed element carries is in the map after its Set, except exactly when the cache is full and the hand lies on an unlinked, unvisited element with that key |
| `SieveRuns.LostInsertion` | internal/cache/lru.go:400-404 | A run of Set and Delete calls after which the key just set is missing |
| `SieveRuns.RemoveKeeps` | internal/cache/lru.go:400-404 | Removing an entry keeps the weak invariant and the one-to-one correspondence; the hand stays linked if and only if it was not on that entry |
| `SieveRuns.CleanKeeps` | internal/cache/lru.go:408-426 | The expiry sweep keeps the invariants; the hand stays linked if and only if its entry has not expired |
| `SieveRuns.StepKeepsWeak` | internal/cache/lru.go:67-248 | Every operation keeps the weak invariant: each map entry for k leads to a listed element with key k, and the list is within capacity |
| `SieveRuns.StepKeepsStrongIff` | internal/cache/lru.go:400-404 | Map, list and linked hand survive an operation exactly when it does not unlink the entry under the hand |
| `SieveRuns.StepKeepsBijectiveIff` | internal/cache/lru.go:213-223 | From a state where list and map are one-to-one, an operation ends that if and only if it sets a new key in a full cache while the hand lies on an unlinked, unvisited element whose key is mapped, with the insertion, to another element than the victim |
| `SieveRuns.Run` | internal/cache/lru.go:67-248 | Any run of operations ends in a state with the weak invariant and at most maxEntries entries, detached hands included |
| `SieveRuns.RunKeepsStrong` | internal/cache/lru.go:197-228 | In a run where no removal hits the entry under the hand, map and list stay one-to-one and the hand linked |
| `SieveRuns.StepAgrees` | internal/cache/lru.go:147-192 | An operation keeps each mapped key at what the latest Set of that key stored |
| `SieveRuns.RunAgrees` | internal/cache/lru.go:67-248 | So does any run |
| `SieveRuns.HitIsLatest` | internal/cache/lru.go:67-97 | After any run from an empty cache a hit returns message, stored TTL and auth TTL of the latest Set, with max(0, softExpiry - now) left; a deleted or cleared key gives no hit until the next Set |
| `SieveRuns.PutReadBack` | internal/cache/lru.go:147-192 | A Set that kept its key is read back until ttl + min(ttl, maxGracePeriod) is over and never after, with the time left and the stored and auth TTL it was given |
| `SieveRuns.GetIsInvisible` | internal/cache/lru.go:67-97 | A lookup changes no later lookup of any key |
| `SieveRuns.DeleteHidesOnly` | internal/cache/lru.go:231-238 | A deletion makes its key a miss and changes no other lookup |
| `SieveRuns.CleanIsInvisibleIff` | internal/cache/lru.go:408-426 | The expiry sweep changes a later lookup exactly when an expired listed element that the map has lost carries the same key as a live one |
| `StrayRun.SweepDropsLiveKey` | internal/cache/lru.go:408-426 | A run of Set and Delete calls on a cache for two entries after which the expiry sweep drops the key of an entry with time left |
| `LruCache.LRUCache.constructor` | internal/cache/lru.go:48-62 | An empty cache; a non-positive size becomes the default |
| `LruCache.LRUCache.Model` | internal/cache/lru.go:17-44 | The abstract state of a cache object: its entries are those listed and the one under the hand |
| `LruCache.LRUCache.RemoveElement` | internal/cache/lru.go:400-404 | Unlinks the element and drops its key; the hand stays |
| `LruCache.LRUCache.SpareHand` | internal/cache/lru.go:208-217 | Clears the bit under the hand and moves the hand on |
| `LruCache.LRUCache.DropHand` | internal/cache/lru.go:209-223 | Moves the hand on, unlinks the element if it is listed, and deletes its key in any case |
| `LruCache.LRUCache.EvictOne` | internal/cache/lru.go:197-228 | The loop over the linked list ends in the state of the specification, whose victim, hand and bits `SieveOrder.VictimInOrder` gives, after the number of turns that `SieveRuns.EvictScan` gives |
| `LruCache.LRUCache.Get` | internal/cache/lru.go:67-97 | The result and the new state of a lookup, expired entries included |
| `LruCache.LRUCache.Insert` | internal/cache/lru.go:118-144 | A new entry at the front, and eviction down to capacity |
| `LruCache.LRUCache.Write` | internal/cache/lru.go:147-192 | A store with positive TTL, in place or as a new entry |
| `LruCache.LRUCache.SetWithStoredTTL` | internal/cache/lru.go:147-192 | The new state of a store; nil messages and non-positive TTLs change nothing |
| `LruCache.LRUCache.Set` | internal/cache/lru.go:102-144 | The same with the TTL as stored TTL and no auth TTL |
| `LruCache.LRUCache.Delete` | internal/cache/lru.go:231-238 | The new state of a deletion; the hand may be left on the removed element |
| `LruCache.LRUCache.Clear` | internal/cache/lru.go:241-248 | An empty list and map and no hand |
| `LruCache.LRUCache.Sweep` | internal/cache/lru.go:408-426 | The walk over the list while it unlinks expired elements leaves exactly the unexpired ones, in order, and drops the keys of the others |
| `LruCache.LRUCache.CleanExpired` | internal/cache/lru.go:408-426 | The same as a whole call, with the number removed |
| `Sieve.SweepRemoves` | internal/cache/lru.go:408-426 | Unlinking an expired element during the walk keeps what the walk has established |
| `Sieve.SweepKeeps` | internal/cache/lru.go:408-426 | So does passing an unexpired one |
| `ShardedLru.RouteInRange` | internal/cache/lru.go:329-337 | Every key is routed to an existing shard, with one shard and with 32 |
| `ShardedLru.Hash` | internal/cache/lru.go:329-337 | The loop computes FNV-1a of the key in 32-bit arithmetic |
| `ShardedLru.Fnv1aSamples` | internal/cache/lru.go:329-337 | The published 32-bit FNV-1a values of the empty string, of "f" and of "fo" |
| `ShardedLru.RouteIsRemainder` | internal/cache/lru.go:329-337 | The shard of a key is its hash modulo the number of shards |
| `ShardedLru.ShardedLRUCache.constructor` | internal/cache/lru.go:309-325 | One shard up to 3168 entries and 32 above; the summed capacity is the size, rounded up to a multiple of 32 with 32 shards, and 1000 for a non-positive size |
| `ShardedLru.ShardedLRUCache.ShardIndex` | internal/cache/lru.go:329-337 | The index is in range and is the key's home |
| `ShardedLru.ShardedLRUCache.Get` | internal/cache/lru.go:340-342 | A lookup in the home shard; the others are untouched |
| `ShardedLru.ShardedLRUCache.SetWithStoredTTL` | internal/cache/lru.go:350-352 | A store in the home shard |
| `ShardedLru.ShardedLRUCache.Delete` | internal/cache/lru.go:355-357 | A deletion in the home shard |
| `ShardedLru.ShardedLRUCache.Clear` | internal/cache/lru.go:360-364 | Every shard is cleared |
| `ShardedLru.ShardedLRUCache.Len` | internal/cache/lru.go:367-373 | The summed length, bounded by the summed capacities |
| `ShardRuns.StepRefines` | internal/cache/lru.go:340-364 | A call on one shard is the same call on one map that covers all shards |
| `ShardRuns.RunRefines` | internal/cache/lru.go:309-364 | After any interleaving every shard agrees with the one map and holds only keys routed to it |
| `ShardRuns.HitMatchesMap` | internal/cache/lru.go:340-342 | A hit returns what the one map holds; a key not in the map is a miss |
| `ShardRuns.HitsFromStart` | internal/cache/lru.go:309-373 | The same from empty shards, over whole runs: message, stored TTL, auth TTL and time left |
| `Redis.DeleteKeysIs` | internal/cache/redis.go:823-827 | A series of deletions removes hash, index entry, hit count and lock of exactly the listed keys and leaves those of the others as they were |
| `Redis.LockLasts` | internal/cache/redis.go:677-686 | A lock is held for its time to live, 10 s for a non-positive one, and locks of other keys are as before |
| `Redis.Server.ZRange` | internal/cache/redis.go:750-758 | The keys of lowest score, in order of score and without repeats, up to the limit, leaving none out that is lower |
| `TwoTier.StepEntries` | internal/cache/lru.go:147-192 | A step of a cache leaves what its entries hold as it was, but for the bits and the one entry it may write |
| `TwoTier.StepKeepsBounded` | internal/cache/redis.go:482-511 | Stores, lookups, promotions with the remaining TTL, expiry and deletion keep each copy's soft and hard expiry within those of an original store, in memory give or take the longest time that passed between the lookup and the write of a promotion |
| `TwoTier.Run` | internal/cache/redis.go:482-611 | So does every run, over any number of instances and promotions that come late |
| `TwoTier.NeverServedTooLate` | internal/cache/redis.go:482-511 | What Redis returns was stored for that key at some t with some ttl, and it is not after t + ttl + min(ttl, maxGracePeriod), and the time left ends no later than t + ttl; what the memory returns likewise, give or take the longest delay of a promotion (serving stale data in the sense of section 5 of RFC 8767) |
| `TwoTier.InTimeFromStart` | internal/cache/redis.go:482-611 | The same for both tiers in every run from empty tiers |
| `TwoTier.PromptRun` | internal/cache/lru.go:147-154 | If no promotion takes longer than d, the bound moves by at most d; with one clock reading for both halves of a promotion, not at all |
| `TwoTier.PromotionOutlastsIff` | internal/cache/lru.go:147-192 | For a store at t, a lookup at a and a write at b of the promotion: the copy is fresh beyond t + ttl if and only if b - a is over (t + ttl) mod 1 s, and is served beyond t + ttl + min(ttl, grace) if and only if b - a is over that plus what the grace period of the copy is short of the store's |
| `TwoTier.ServedTooLong` | internal/cache/redis.go:502-511 | A run from empty tiers in which a cache serves an answer half a second after TTL and grace period of its only store are over |
| `TwoTier.StoreReadBack` | internal/cache/redis.go:154-196 | A store is read back from Redis for ttl plus grace and not after, with at most the TTL left and less than a second short of it, and the stored TTL in whole seconds |
| `TwoTier.AuthTTLReadBackIff` | internal/cache/redis.go:580-583 | The auth TTL read back is the one just stored, in whole seconds, except exactly when none was given and a live hash already had one |
| `LatestStore.AnswerIsLatest` | internal/cache/redis.go:482-511 | With one instance, a reachable store, and each lookup one step: in every run from empty tiers an answer is the latest store of its key, and a deleted key has none until it is stored again |
| `LatestStore.OldComesBack` | internal/cache/redis.go:502-511 | A run in which a lookup, a newer store and then the write of the promotion leave the older message in memory |
| `LatestStore.PromotionBringsBackOld` | internal/cache/redis.go:502-511 | The same from any state in which the store has the key and the cache is empty |
| `ExpiryIndex.StepKeepsCovered` | internal/cache/redis.go:600-604 | Each step keeps every live key that parses in the index with its soft expiry as score exactly if it is not exposed, that is, was not taken out while live since it was last stored or deleted |
| `ExpiryIndex.RunKeepsCovered` | internal/cache/redis.go:600-604 | So does every run |
| `ExpiryIndex.OrderlyRun` | internal/cache/redis.go:750-798 | In a run where no store comes between a lookup and the removal that follows from it, removals hit dead keys only and every live key that parses is in the index |
| `ExpiryIndex.IndexedIff` | internal/dnsresolver/resolver.go:1129-1153 | In every run from an empty store a live key that parses is missing from the index if and only if some step took it out while its hash was there and no later step stored or deleted it |
| `ExpiryIndex.ExposedIff` | internal/cache/redis.go:750-798 | After any run a key is exposed exactly if it was at the start and was not stored or deleted since, or some step took it out while live with no store or deletion after it |
| `ExpiryIndex.StoreRacesRemoval` | internal/cache/redis.go:770-797 | A run after which a live key is not in the index |
| `ExpiryIndex.CandidatesMissOnlyByLimit` | internal/cache/redis.go:712-739 | A due live key is missing from the candidates only if the limit is used up by keys due no later |
| `RedisCache.RedisCache.constructor` | internal/cache/redis.go:372-384 | The cap is as configured for every state of the store; a negative one caps nothing |
| `RedisCache.RedisCache.GetFromStore` | internal/cache/redis.go:502-511 | The store's answer, and the entry promoted with the time it had left, on a second reading of the clock, or none when that is not positive |
| `RedisCache.RedisCache.GetWithTTL` | internal/cache/redis.go:482-511 | The in-memory answer if there is one, else the store's, and the in-memory state after either |
| `RedisCache.PromotedReadBack` | internal/cache/redis.go:502-511 | A promoted answer is read back from memory with the message, stored and auth TTL that Redis gave, fresh for the time it had left and stale for as long again at most |
| `RedisCache.RedisCache.SetWithIndex` | internal/cache/redis.go:552-611 | Both tiers after a store; nil messages and non-positive TTLs change nothing, and in degraded mode the store is left alone |
| `RedisCache.RedisCache.TryAcquireRefresh` | internal/cache/redis.go:677-686 | The lock is taken exactly if there is none that has not run out, with 10 s for a non-positive TTL |
| `RedisCache.RedisCache.ReleaseRefresh` | internal/cache/redis.go:688-694 | Afterwards nobody holds the lock of the key, whoever did before, and every other lock is held as before; in degraded mode nothing changes |
| `RedisCache.RedisCache.ExpiryCandidates` | internal/cache/redis.go:712-739 | The due keys of lowest score up to the limit, none in degraded mode or for a non-positive limit |
| `RedisCache.RedisCache.RemoveFromIndex` | internal/cache/redis.go:741-746 | Only the index entry goes, and no sweep or eviction meets the key in a range of the index |
| `RedisCache.RedisCache.ReconcileExpiryIndex` | internal/cache/redis.go:750-798 | Without a writer in between, exactly the dead keys of the sample leave the index, and their number is returned |
| `RedisCache.RedisCache.DeleteCacheKey` | internal/cache/redis.go:802-828 | The key leaves memory and the store with its index entry, hit count and lock; no other key leaves memory |
| `RedisCache.RedisCache.Sorted` | internal/cache/redis.go:938-944 | The same candidates in an order where none has fewer hits, or as many and an older creation time, than one before it |
| `RedisCache.RedisCache.Victims` | internal/cache/redis.go:917-951 | As many keys of the sample as asked for; none of them has more hits than a key of the sample that stays, or as many and a later creation time where both are alive |
| `Eviction.VictimsFirst` | internal/cache/redis.go:938-951 | A prefix of the sorted candidates is in eviction order at or below every other candidate |
| `Eviction.VictimsAreWorst` | internal/cache/redis.go:938-951 | Eviction order in terms of the store: a victim has at most the hits of any sampled key that is kept, 0 for a key without a count, and with as many hits it was created no later if both are alive |
| `Eviction.CountedOnce` | internal/cache/redis.go:107-130 | Each live key that begins with `dns:` counts once toward the cap, and no other key does |
| `RedisCache.RedisCache.EvictToCap` | internal/cache/redis.go:850-957 | A no-op unless the cap is on and exceeded; otherwise exactly min(count - maxKeys, sample size) keys of the sample go from both tiers, those with the fewest hits and among equals the oldest |
| `RedisCache.RedisCache.DeleteAll` | internal/cache/redis.go:949-951 | The deletion loop removes exactly the listed keys from both tiers |
| `Eviction.EvictionCount` | internal/cache/redis.go:850-957 | The live count falls by the number of victims that were live, and not below the cap |
| `Eviction.EvictionSureIff` | internal/cache/redis.go:863-956 | The count is sure to land on the cap if and only if the overflow is at most the sample size and, for each key of the sample that is not live, at least as many keys of the sample come before it in eviction order |
| `Eviction.DeadGoesSoonerIff` | internal/cache/redis.go:1120-1130 | A dead key comes before a live one in eviction order exactly if it has fewer hits, or as many and the live one was created after the zero time |
| `Eviction.EvictionFreesNothing` | internal/cache/redis.go:917-951 | A store over its cap by one in which the only victim is a dead index entry, so that the live keys stay |
| `Sweep.SweptIs` | internal/dnsresolver/resolver.go:1129-1153 | A hash goes exactly if its key is judged cold; an index entry goes exactly if its key is judged cold, missing or unparsable; `Sweep.DeletedIff` and `Sweep.UnindexedIff` say when that is |
| `Sweep.DeletedIff` | internal/dnsresolver/resolver.go:1137-1145 | A sweep deletes a hash exactly if window and minimum are positive and some check of the key finds it there with fewer sweep hits than the minimum and a creation time that is unknown or at least a window ago |
| `Sweep.HitsKeep` | internal/dnsresolver/resolver.go:1139-1145 | A key that every check finds with enough hits is never deleted |
| `Sweep.UnindexedIff` | internal/dnsresolver/resolver.go:1132-1153 | A key leaves the index exactly if some check finds it missing, deletes it as above, or its key does not parse |
| `Sweep.RefreshesWhatStays` | internal/dnsresolver/resolver.go:1129-1178 | The keys handed to the refresh are, in order and once per candidate, those of the candidates found there, not deleted, and parsing |
| `Sweep.SweepSpares` | internal/dnsresolver/resolver.go:1137-1145 | With checks that still hold, no live key that parses leaves the index without being deleted as cold, and none created less than a window ago is deleted |
| `Sweep.SweepClears` | internal/dnsresolver/resolver.go:1132-1136 | With checks that still hold, the candidates left in the index are live and parse |
| `Sweep.ColdIsPossibleIff` | internal/dnsresolver/resolver.go:1139-1145 | A key stored at t can be found cold before it runs out if and only if floor(t) + window < t + ttl + grace |
| `Sweep.Sweeper.Visit` | internal/dnsresolver/resolver.go:1129-1153 | One candidate: the branch taken, the store after it, and what left memory |
| `Sweep.Sweeper.VisitNext` | internal/dnsresolver/resolver.go:1129-1178 | One turn of the loop over the candidates |
| `Sweep.Sweeper.SweepCandidates` | internal/dnsresolver/resolver.go:1129-1178 | The loop over candidates and checks: the store after it, what left memory, and the keys handed to the refresh, in order |
| `RefreshProtocol.LockTTL` | internal/cache/redis.go:681-683 | The lock has the configured time to live if that is positive, and a positive one otherwise |
| `RefreshProofs.StepKeepsTokens` | internal/dnsresolver/resolver.go:951-985 | Each step keeps the semaphore of every instance equal to its attempts that hold a token, and within its size |
| `RefreshProofs.TokensFromStart` | internal/dnsresolver/resolver.go:951-985 | So does every interleaving from the start |
| `RefreshProofs.RunKeepsTokens` | internal/dnsresolver/resolver.go:951-985 | The same over runs from any such state |
| `RefreshProofs.StepGoesForward` | internal/dnsresolver/resolver.go:937-995 | No step moves an attempt back; it holds a token from taking it to returning it. What lets it go forward is in `GateProofs` |
| `RefreshProofs.TokenReturnedOnce` | internal/dnsresolver/resolver.go:962-985 | An attempt that has given its token back never holds one again |
| `GateProofs.RunKeepsNoRootZone` | internal/dnsresolver/resolver.go:941-943 | In no run is a key of the root zone refreshed |
| `GateProofs.BeginIff` | internal/dnsresolver/resolver.go:941-946 | A refresh begins exactly if the key is not of the root zone and its count is below the threshold, or there is none |
| `GateProofs.GateIff` | internal/dnsresolver/resolver.go:947-950 | It goes on exactly if backoff is off, or the key has no timer, or that has run out; otherwise it ends |
| `GateProofs.TokenIff` | internal/dnsresolver/resolver.go:951-957 | In every run from the start it gets a token exactly if there is no limit or fewer attempts than that hold one; otherwise it ends |
| `GateProofs.NoRefreshInBackoff` | internal/dnsresolver/resolver.go:947-950 | After a step that records a backoff, by a refresh or by the handler, and in every run below the caps that follows: before the backoff time is over no attempt of that key gets past the backoff test on that instance, and those that come to it end |
| `GateProofs.RefreshAfterBackoff` | internal/dnsresolver/servfail_tracker.go:50-64 | In every run, from the end of the backoff time on, if no newer backoff was recorded, an attempt that comes to the test passes it |
| `GateProofs.RunHolds` | internal/dnsresolver/servfail_tracker.go:42-64 | Below the caps a timer outlasts every run that ends before it, later backoffs and prunings included |
| `GateProofs.RunEndsBy` | internal/dnsresolver/servfail_tracker.go:42-64 | No run makes a timer later without recording a backoff |
| `RefreshProofs.StepKeepsExclusive` | internal/cache/redis.go:677-694 | Each step keeps the lock of an untainted key in flight its own and unexpired; a key is tainted when its lock runs out or is dropped under it |
| `RefreshProofs.ExclusiveMeans` | internal/cache/redis.go:677-694 | An untainted key has one refresh in flight at most, and its lock is that refresh's own |
| `RefreshProofs.RunKeepsExclusive` | internal/dnsresolver/resolver.go:958-994 | Every run keeps this, over any number of instances |
| `RefreshProofs.SecondRefreshIff` | internal/dnsresolver/resolver.go:958-966 | A second refresh can start after a wait exactly when the wait takes the first past the lock's time to live |
| `RefreshProofs.DisciplinedRun` | internal/dnsresolver/resolver.go:958-994 | If every refresh releases within the lock's time to live and no deletion hits its key meanwhile, at most one refresh of a key is in flight and each release deletes its own lock only |
| `RefreshProofs.LocksAreTheStores` | internal/cache/redis.go:677-694 | SETNX, DEL and DeleteCacheKey do to the locks of the protocol what they do to those of the store |
| `RefreshProofs.StepKeepsCounts` | internal/dnsresolver/resolver.go:879-901 | Below the caps, each step keeps a key's count at the SERVFAIL refreshes since the last accepted one |
| `RefreshProofs.RunKeepsCounts` | internal/dnsresolver/resolver.go:879-901 | So does every run |
| `RefreshProofs.CountsFromStart` | internal/dnsresolver/servfail_tracker.go:67-86 | The same from the start |
| `RefreshProofs.RecordsTheReply` | internal/dnsresolver/resolver.go:879-901 | What an attempt records is the reply it got; a SERVFAIL is recorded as a backoff first exactly if backoff is on |
| `RefreshProofs.NoteCounts` | internal/dnsresolver/resolver.go:879-901 | A SERVFAIL adds one to the count of its key, an accepted answer clears it, REFUSED and errors leave it, and no other count changes |
| `RefreshProofs.BackoffCounts` | internal/dnsresolver/servfail_tracker.go:42-47 | A recorded backoff drops counts only over the caps, and changes none |
| `StopProofs.StopSafeIff` | internal/dnsresolver/resolver.go:944-946 | Whatever order the maps are visited in, a step leaves a key stopped if and only if, before the step, its pruning is sure to keep the count of the key |
| `StopProofs.StoppedWhileSafe` | internal/dnsresolver/resolver.go:937-950 | In every later run of such steps no refresh of a stopped key is issued by that instance |
| `StopProofs.StopCanBeLifted` | internal/dnsresolver/servfail_tracker.go:135-148 | With a backoff configured, from every state with a stopped key there is a run of failing queries after which the key is not stopped |
| `RefreshProofs.StoppedForGood` | internal/dnsresolver/resolver.go:937-950 | In every later run below the caps no refresh of that key is issued by that instance |
| `Servfail.PrunedIsBounded` | internal/dnsresolver/servfail_tracker.go:126-157 | Under any map order, after pruning both maps hold at most 10000 keys and no deadline left is before now |
| `Servfail.PrunedBelowCap` | internal/dnsresolver/servfail_tracker.go:126-157 | Below the caps pruning keeps exactly the deadlines not before now, and every count |
| `Servfail.DropsOldestIff` | internal/dnsresolver/servfail_tracker.go:135-148 | Pruning is sure to drop no timer before an older one if and only if the timers that have not run out are within the cap or all have the same deadline |
| `Servfail.AnyVictims` | internal/dnsresolver/servfail_tracker.go:135-148 | Any set of timers of the right size can be the one that goes |
| `Servfail.KeepsCountIff` | internal/dnsresolver/servfail_tracker.go:126-157 | Pruning is sure to keep the count of a key if and only if: its timer has not run out and no timer is in excess; or it has no such timer, and the counts fit under the cap after as few of them as possible have gone with the excess timers |
| `Servfail.BackoffLasts` | internal/dnsresolver/servfail_tracker.go:42-64 | Below the caps a recorded backoff lasts for exactly the backoff time, and no count changes |
| `Servfail.ServfailTracker.constructor` | internal/dnsresolver/servfail_tracker.go:27-36 | An empty tracker |
| `Servfail.ServfailTracker.RecordBackoff` | internal/dnsresolver/servfail_tracker.go:42-47 | The deadline is set and the maps pruned to their bounds |
| `Servfail.ServfailTracker.InBackoff` | internal/dnsresolver/servfail_tracker.go:50-64 | True exactly while the key has a deadline that lies after now: the test that the refresh protocol makes |
| `Servfail.ServfailTracker.IncrementCount` | internal/dnsresolver/servfail_tracker.go:67-72 | The count of the key, known or not, goes up by one and no other changes |
| `Servfail.ServfailTracker.ClearCount` | internal/dnsresolver/servfail_tracker.go:82-86 | The count of the key reads zero and no other changes |
| `Servfail.ServfailTracker.DropExpired` | internal/dnsresolver/servfail_tracker.go:128-134 | The loop over the map leaves exactly the deadlines not before now |
| `Servfail.ServfailTracker.DropExcess` | internal/dnsresolver/servfail_tracker.go:135-148 | Over the cap exactly the excess goes, in map order, with its counts |
| `Servfail.ServfailTracker.DropOrphanCounts` | internal/dnsresolver/servfail_tracker.go:149-156 | Over the cap exactly the counts without a deadline go |
| `Servfail.ServfailTracker.PruneExpired` | internal/dnsresolver/servfail_tracker.go:116-120 | All of it as one call |
| `HitBatcher.StepKeepsConserved` | internal/cache/hit_batcher.go:87-210 | Adding, detaching and submitting keep, for each key, hits added equal to those pending, detached and submitted, and futures made equal to those waiting and closed |
| `HitBatcher.StepKeepsBoth` | internal/cache/hit_batcher.go:123-227 | So it is with request hits and sweep hits side by side, which a flush takes away in one step |
| `HitBatcher.RunKeepsConserved` | internal/cache/hit_batcher.go:87-227 | So does every interleaving |
| `HitBatcher.ConservedMeans` | internal/cache/hit_batcher.go:154-210 | No future is closed twice; once nothing is pending or detached all hits were submitted and all futures closed |
| `HitBatcher.HitsFromStart` | internal/cache/hit_batcher.go:87-227 | In every run from an empty batcher, each hit and each sweep hit is pending, detached or submitted, and a future is closed at most once and only if it was handed out for the key |
| `HitBatcher.ClosedBatch` | internal/cache/hit_batcher.go:188-209 | Answering a batch closes exactly its waiting futures, in any order of the keys, with or without an error |
| `HitBatcher.ClosedWith` | internal/cache/hit_batcher.go:188-209 | Each future is closed with the count that the pipeline gave for its own key, and with nothing if the pipeline failed |
| `HitBatcher.Future.constructor` | internal/cache/hit_batcher.go:88 | An open channel with nothing in it |
| `HitBatcher.Future.Send` | internal/cache/hit_batcher.go:202-206 | A second value is not taken |
| `HitBatcher.Future.Close` | internal/cache/hit_batcher.go:207 | Only an open channel may be closed |
| `HitBatcher.Batcher.constructor` | internal/cache/hit_batcher.go:44-56 | Nothing pending, and the invariant: every waiting caller has an open channel of its own |
| `HitBatcher.Batcher.AddHit` | internal/cache/hit_batcher.go:87-103 | The key has one more hit and one more waiting caller, with a fresh open future, keeps the window of its first hit, and no other key changes; a flush is due from 100 keys on |
| `HitBatcher.Batcher.AddHitFireAndForget` | internal/cache/hit_batcher.go:107-120 | The key has one more hit and keeps the window of its first, no other key changes, and nobody more waits |
| `HitBatcher.Batcher.AddSweepHit` | internal/cache/hit_batcher.go:123-136 | The key has one more sweep hit and no other key changes |
| `HitBatcher.Batcher.Detach` | internal/cache/hit_batcher.go:154-164 | Both batches are taken away whole; who waits on them still has an open channel |
| `HitBatcher.Batcher.CloseFutures` | internal/cache/hit_batcher.go:197-209 | Each future of a key is closed once, with the new count or with nothing |
| `HitBatcher.Batcher.FlushHits` | internal/cache/hit_batcher.go:166-210 | Every future of a batch of open futures is closed, with its key's count exactly if the pipeline succeeded |
| `HitBatcher.Batcher.Flush` | internal/cache/hit_batcher.go:154-210 | A whole flush from any state of the batcher: afterwards nothing is pending and every caller that was waiting has been answered, each channel closed once |
| `HitBatcher.Batcher.AnswerKey` | internal/cache/hit_batcher.go:197-209 | The callers that wait for one key are sent its count, or nothing after an error, and nobody else is |
| `HourlyRing.RecordRepresents` | internal/dnsresolver/resolver.go:1645-1673 | Recording keeps slot h mod 24 at the events of hour h for the last 24 hours; a clock that goes back or a gap of a day starts the window afresh |
| `HourlyRing.RecordStartsAfresh` | internal/dnsresolver/resolver.go:1651-1673 | After a day without events, or a step back of the clock, the new event is the only one in the ring |
| `HourlyRing.RunRepresents` | internal/dnsresolver/resolver.go:1645-1673 | So after any run the ring stands for the log of its record calls |
| `HourlyRing.SnapshotIsWindow` | internal/dnsresolver/resolver.go:1675-1684 | The sum of the slots is the log's count over the 24 hours up to the last event |
| `HourlyRing.WindowMoves` | internal/dnsresolver/resolver.go:1675-1684 | Moving that window to now loses exactly the events at its old end |
| `HourlyRing.SnapshotIsCurrentIff` | internal/dnsresolver/resolver.go:1675-1684 | The snapshot counts the last 24 hours before now if and only if no event left in the ring is older |
| `HourlyRing.RotatedAt` | internal/dnsresolver/resolver.go:1651-1663 | Rotation zeroes exactly the slots of the hours passed |
| `HourlyRing.RequestRefreshCounts.constructor` | internal/dnsresolver/resolver.go:167-172 | All slots zero and no hour yet |
| `HourlyRing.RequestRefreshCounts.Rotate` | internal/dnsresolver/resolver.go:1651-1663 | The loop over the slots does this rotation, and zeroes all of them after a day or a step back |
| `HourlyRing.RequestRefreshCounts.Record` | internal/dnsresolver/resolver.go:1645-1673 | A record call on the ring object |
| `HourlyRing.RequestRefreshCounts.Snapshot24h` | internal/dnsresolver/resolver.go:1675-1684 | The sums of the hot and of the warm counters |
| `Bloom.WordOr` | internal/blocklist/bloom.go:57-60 | Setting one bit of a 64-bit word sets that bit and no other |
| `Bloom.BloomFilter.constructor` | internal/blocklist/bloom.go:41-47 | An empty filter with room for every bit index |
| `Bloom.BloomFilter.Index` | internal/blocklist/bloom.go:56-58 | Every bit index is in range |
| `Bloom.BloomFilter.Hash` | internal/blocklist/bloom.go:142-161 | The loop computes each hash in 64-bit arithmetic with wrap-around |
| `Bloom.DoubleHashing` | internal/blocklist/bloom.go:142-161 | The hashes begin with the first hash and go on by the second, modulo 2^64 |
| `Bloom.BloomFilter.SetIndex` | internal/blocklist/bloom.go:57-60 | Exactly one bit of the array is set |
| `Bloom.BloomFilter.Add` | internal/blocklist/bloom.go:51-62 | Exactly the element's bits are set, so that it and all that was contained before is contained |
| `Bloom.BloomFilter.MayContain` | internal/blocklist/bloom.go:67-81 | True if and only if all bits of the element are set |
| `Bloom.BloomFilter.Clear` | internal/blocklist/bloom.go:84-91 | No bit is set |
| `Blocklist.SubdomainListed` | internal/blocklist/manager.go:800-816 | A listed domain lists every name below it |
| `Blocklist.ListedIff` | internal/blocklist/manager.go:800-816 | A name is listed exactly if it is in the set or ends in a dot followed by a name of the set |
| `Blocklist.WindowMinutes` | internal/blocklist/manager.go:121-135 | On a day it has, a schedule covers end - start minutes, the first included and the end not; on another day none |
| `Blocklist.Precedence` | internal/blocklist/manager.go:577-634 | Family time goes before a pause, a pause before the lists, the allow list before the deny list and the blocklist |
| `Blocklist.LoadFailsIff` | internal/blocklist/manager.go:308-423 | A load fails exactly if some source failed and either that is fatal or all did; without sources it succeeds |
| `Blocklist.DomainsAre` | internal/blocklist/manager.go:308-423 | The domains loaded are exactly those of the sources that were fetched |
| `Blocklist.NextDot` | internal/blocklist/manager.go:809-812 | The first dot from a position on, if any |
| `Blocklist.DomainMatchExact` | internal/blocklist/manager.go:800-816 | True if and only if some suffix of the name at a label boundary is in the set |
| `Blocklist.DomainMatch` | internal/blocklist/manager.go:771-798 | The same, or some pattern matches |
| `Blocklist.Manager.constructor` | internal/blocklist/manager.go:63-82 | An empty snapshot with the configured lists |
| `Blocklist.Manager.LoadOnce` | internal/blocklist/manager.go:308-423 | The new snapshot holds the domains of all sources fetched and a filter that contains them, or the old one stays, exactly if a failure is fatal or all sources failed |
| `Blocklist.Manager.BuildFilter` | internal/blocklist/manager.go:395-411 | A filter that contains every domain, none when there are none |
| `Blocklist.Manager.StartPause` | internal/blocklist/manager.go:636-642 | Blocking is paused until exactly now plus the duration, and beyond that as the schedule says |
| `Blocklist.Manager.Resume` | internal/blocklist/manager.go:644-649 | Blocking is paused only as the schedule says |
| `Blocklist.Manager.IsPaused` | internal/blocklist/manager.go:651-672 | Paused by hand or by schedule; a pause that has run out is taken back |
| `Blocklist.Manager.MayBeListed` | internal/blocklist/manager.go:609-630 | False only if no suffix at a label boundary is blocked |
| `Blocklist.Manager.IsBlocked` | internal/blocklist/manager.go:577-634 | The decision with the filter is the decision stated without one |
| `Upstreams.PermutationCovers` | internal/dnsresolver/upstream_manager.go:79-106 | An order that repeats no index and is as long as the list visits every upstream |
| `Upstreams.StartsBeforeWrap` | internal/dnsresolver/upstream_manager.go:90-96 | n calls in a row start at n different upstreams while the counter does not wrap |
| `Upstreams.StartsAroundWrapIff` | internal/dnsresolver/upstream_manager.go:90-96 | Around the wrap of the 64-bit counter they still do if and only if n divides its range |
| `Upstreams.UpstreamManager.constructor` | internal/dnsresolver/upstream_manager.go:32-50 | No backoff, counter zero, and an initial latency per address under the weighted strategy |
| `Upstreams.UpstreamManager.Order` | internal/dnsresolver/upstream_manager.go:79-106 | A permutation of the indices: rotated by the counter, ascending by score, or as listed |
| `Upstreams.UpstreamManager.WeightedOrder` | internal/dnsresolver/upstream_manager.go:108-137 | The exchange sort gives a permutation ascending by score |
| `Upstreams.UpstreamManager.SortFrom` | internal/dnsresolver/upstream_manager.go:125-131 | One pass brings the lowest remaining score to its place |
| `Upstreams.AscendingMeans` | internal/dnsresolver/upstream_manager.go:108-137 | Under the weighted strategy no upstream is tried before one of lower average latency; an unknown latency counts as 1 ms |
| `Upstreams.Average` | internal/dnsresolver/upstream_manager.go:140-151 | The moving average lies between the old value and the measurement, four fifths of their distance from the latter |
| `Upstreams.Milliseconds` | internal/dnsresolver/upstream_manager.go:141-145 | The elapsed time in milliseconds, at least 1 |
| `Upstreams.LearnedIs` | internal/dnsresolver/resolver.go:1924-1930 | With distinct addresses an exchange measures exactly the upstreams that it asks and that reply, whether the reply is taken or not; other averages stay |
| `Upstreams.UpstreamManager.UpdateWeightedLatency` | internal/dnsresolver/upstream_manager.go:140-151 | Only a known address's average changes |
| `Upstreams.WalkFindsFirst` | internal/dnsresolver/resolver.go:1881-1963 | With distinct addresses, or without backoff, the first upstream in the order that is not in backoff and would answer, by its reaction, does answer; there is none exactly if no upstream of the order is such |
| `Upstreams.WalkTimers` | internal/dnsresolver/resolver.go:1896-1958 | With distinct addresses, or without backoff, the timers after an exchange: set for each upstream that was tried and failed, cleared for the one that answered, unchanged for those in backoff, silent or not reached |
| `Upstreams.WalkOthers` | internal/dnsresolver/resolver.go:1896-1958 | Timers of addresses outside the order are unchanged |
| `Upstreams.SharedAddressIsSkipped` | internal/dnsresolver/resolver.go:1896-1920 | For any two upstreams of the order with one address, and a backoff: when all fail but the second of them, it is skipped and the exchange fails |
| `Upstreams.AnswersFirstIff` | internal/dnsresolver/resolver.go:1896-1958 | In every exchange the first upstream that works answers, if and only if backoff is off or no two addresses of the order are the same |
| `Upstreams.TimersAsDueIff` | internal/dnsresolver/resolver.go:1896-1958 | In every exchange each timer ends up as the try of its own upstream leaves it, on the same condition |
| `Upstreams.DistinctAsConfigured` | internal/dnsresolver/upstream_manager.go:79-106 | In an order that is a permutation the addresses are distinct exactly when the configured ones are |
| `Upstreams.OneUpstream` | internal/dnsresolver/resolver.go:1896-1958 | One upstream: in backoff it is skipped and its timer stays; else it answers exactly if it replies with a SERVFAIL, untruncated, over tcp, tls, https or quic, or with a TCP retry that succeeds. Its timer is then cleared; it is set after an error or a TCP retry that failed, and stays without a response |
| `Upstreams.UpstreamManager.Exchange` | internal/dnsresolver/resolver.go:1881-1963 | Each upstream is tried at most once, in an order that is a permutation, with winner, timers and latencies as the lemmas on walks say |
| `Upstreams.UpstreamManager.ApplyConfig` | internal/dnsresolver/upstream_manager.go:182-222 | Timers of addresses still there are kept, the others dropped; latencies likewise under the weighted strategy |
| `CacheKeys.ParsePrinted` | internal/dnsresolver/resolver.go:1803-1826 | Parsing undoes printing for every non-empty name, colons included, and every 16-bit type and class; the empty name is rejected |
| `CacheKeys.CacheKeyInjective` | internal/dnsresolver/resolver.go:2138-2140 | No two questions have the same key |
| `CacheKeys.PrintParsedIff` | internal/dnsresolver/resolver.go:1803-1826 | Printing undoes parsing exactly for keys whose last two fields are plain decimal numbers: digits only, no leading zero unless it is the only digit, under 65536 |
| `CacheKeys.LeadingZeroIsLost` | internal/dnsresolver/resolver.go:1817-1825 | For every name, type and class the key with a zero in front of the type parses, and does not print back |
| `CacheKeys.OtherSpellings` | internal/dnsresolver/resolver.go:1817-1825 | A type field with or without a sign parses exactly if the number fits 64 bits, and to its low 16 bits |
| `CacheKeys.SampleKey` | internal/dnsresolver/resolver.go:2138-2140 | The key of a question, character by character |
| `CacheKeys.KeyParts` | internal/dnsresolver/resolver.go:1804-1809 | Splitting a printed key at the colons gives the prefix, the parts of the name, and the two numbers |
| `CacheKeys.RootZoneIff` | internal/dnsresolver/resolver.go:2146-2148 | Which printed keys the root-zone test takes for the root, names that begin with a colon included |

## Left out

- Redis Cluster: its split pipelines are not atomic; the store here is standalone or sentinel.
- LatestStore.AnswerIsLatest: says nothing of degraded mode, in which stores and deletions do not reach Redis.
- The legacy string form of a cached answer, and plain `Set`, which writes it without an index entry.
- TwoTier.NeverServedTooLate: takes the four HGETs of `getHash` as one read, though a plain pipeline may in principle be interleaved with a store.
- RedisCache.RedisCache.SetWithIndex: keeps the deadline of EXPIRE exact, where the Redis client library rounds it to whole seconds; errors of the client and wrong-type replies are not modelled.
- RedisCache.RedisCache.ReconcileExpiryIndex: is one call with nobody writing in between; the interleaved form is `ExpiryIndex`.
- RedisCache.RedisCache.EvictToCap: counts the keys exactly, where SCAN may count a key twice while the store changes.
- Sweep.Sweeper.SweepCandidates: takes the checks as given and returns the keys for the refresh instead of starting it; the order of urgent and other candidates, the hot and warm tiers and the sweep's statistics are not modelled.
- Clearing the cache is two steps in `ExpiryIndex` (a hash, the index) and has no method.
- RefreshProofs.RunKeepsExclusive: the protocol's lock and the stored answers are separate machines; what an accepted refresh stores is in `TwoTier`.
- RefreshProofs.RunKeepsCounts: holds below the caps only; over them pruning drops counts of arbitrary keys.
- `lastLog` of the SERVFAIL tracker: `ShouldLog` adds keys without a deadline, so that no bound is claimed for it.
- Servfail.ServfailTracker.DropExcess: leaves open which timers go, as map order does.
- HitBatcher.HitsFromStart: counts a batch as submitted when its pipeline was executed; which part of a failed pipeline Redis applied is not tracked. The ticker and the start of a flush are left to the interleaving.
- `IncrementHit` and the local hit counter, the hit and miss statistics, and the 64-bit overflow of counters.
- The health monitor: whether Redis can be used is a field that a call reads once.
- ShardedLru.ShardedLRUCache.Clear: locks one shard after another; runs with other calls in between are in `ShardRuns`. `CleanExpired` and `Stats` over all shards only add up the shards.
- LruCache.LRUCache.Get: drops an expired entry in the same call; the gap between its read lock and its write lock is in `SieveRuns`, where the two are separate operations.
- Blocklist.Manager.IsBlocked: takes the query name as already lower-cased, trimmed and without its trailing dot.
- Bloom sizing and error rates: the number of bits and of hashes are parameters, and the two FNV hashes are arbitrary functions.
- Upstreams.Average: is over the reals.
- Blocklist sources are fetched sets of domains; patterns are opaque predicates, names come in normal form, and the local time of a schedule is a parameter.
- `maybeRefresh`, `clampTTL`, `responseTTL` and the rate thresholds decide when a refresh is worth while; they add easy cases only.
- What a message says, the message pool, the transports to the upstreams, and all logging, tracing, metrics and configuration loading.
