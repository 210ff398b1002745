/** The cache as the resolver sees it: the in-memory tier, then the shared store. */
module RedisCache {
  import opened Types
  import S = Sieve
  import R = SieveRuns
  import opened LruCache
  import opened ShardedLru
  import opened Eviction
  import opened Redis
  import TwoTier

  /** `after` is `was` with the hit promoted as `e`, or `was` itself when the hit has no time left. */
  ghost predicate Promoted(was: S.State<LruEntry>, e: LruEntry?, key: Key, hit: S.Hit, later: Time,
                           after: S.State<LruEntry>) {
    && S.Weak(was)
    && if e == null then hit.remaining <= 0 && after == was
       else hit.remaining > 0 && (key in was.cache || e !in was.ent) &&
            after == S.Put(was, e, key, Some(hit.msg), hit.remaining, hit.storedTTL, hit.authTTL, later)
  }

  /** What a promotion leaves in memory: the message with the time left and the stored and auth TTL that the store gave;
      past the time left it is stale, for as long again or for the grace period of the cache, whichever is shorter. */
  lemma PromotedReadBack(was: S.State<LruEntry>, e: LruEntry, key: Key, hit: S.Hit, later: Time,
                         after: S.State<LruEntry>, now: Time)
    requires Promoted(was, e, key, hit, later, after) && key in after.cache
    ensures S.Weak(after)
    ensures S.Lookup(after, key, now) ==
            if now > later + hit.remaining + Min(hit.remaining, was.grace) then None
            else Some(S.Hit(hit.msg, if later + hit.remaining < now then 0 else later + hit.remaining - now,
                            if hit.storedTTL <= 0 then hit.remaining else hit.storedTTL, hit.authTTL))
  {
    var t := R.PutReadBack(was, R.OpPut(e, key, Some(hit.msg), hit.remaining, hit.storedTTL, hit.authTTL, later), now);
  }

  class RedisCache {
    const lru: ShardedLRUCache
    const server: Server
    const maxGracePeriod: Duration
    var maxKeys: int
    var available: bool

    constructor (lru: ShardedLRUCache, server: Server, maxGracePeriod: Duration, maxKeys: int, available: bool)
      ensures this.lru == lru && this.server == server && this.available == available
      ensures this.maxGracePeriod == maxGracePeriod && this.maxKeys == if maxKeys < 0 then 0 else maxKeys
      ensures forall db, now :: OverCap(db, this.maxKeys, now) <==> OverCap(db, maxKeys, now)
    {
      this.lru, this.server, this.maxGracePeriod := lru, server, maxGracePeriod;
      this.maxKeys := if maxKeys < 0 then 0 else maxKeys;
      this.available := available;
    }

    /** What the store says at `now`. */
    ghost function StoreHit(key: Key, now: Time): Option<S.Hit>
      reads this, server
    {
      if available && Live(server.db, key, now) then Some(TwoTier.L1Hit(server.db.hash[key], now)) else None
    }

    /** Asks the store, and promotes its answer with the time it had left; `later` is the clock as the promotion
        reads it. */
    method GetFromStore(key: Key, now: Time, later: Time) returns (r: Option<S.Hit>, ghost e: LruEntry?)
      requires lru.Valid()
      modifies lru.Home(key), lru.Home(key).Elems()
      ensures lru.Valid()
      ensures r == StoreHit(key, now)
      ensures r.None? ==> lru.Home(key).Model() == old(lru.Home(key).Model())
      ensures r.Some? ==> Promoted(old(lru.Home(key).Model()), e, key, r.value, later, lru.Home(key).Model())
    {
      e := null;
      if !available || key !in server.db.hash || now >= server.db.hash[key].deadline {
        return None, null;
      }
      ghost var was := lru.Home(key).Model();
      assert S.Weak(was);
      r := Some(TwoTier.L1Hit(server.db.hash[key], now));
      e := lru.SetWithStoredTTL(key, Some(r.value.msg), r.value.remaining, r.value.storedTTL, r.value.authTTL, later);
    }

    /** The in-memory tier first, then the store. */
    method GetWithTTL(key: Key, now: Time, later: Time) returns (r: Option<S.Hit>, ghost e: LruEntry?)
      requires lru.Valid()
      modifies lru.Home(key), lru.Home(key).Elems()
      ensures lru.Valid()
      ensures var was := old(lru.Home(key).Model()); var local := S.Lookup(was, key, now);
              && r == (if local.Some? then local else old(StoreHit(key, now)))
              && if local.None? && r.Some?
                 then Promoted(S.Get(was, key, now), e, key, r.value, later, lru.Home(key).Model())
                 else lru.Home(key).Model() == S.Get(was, key, now)
    {
      e := null;
      r := lru.Get(key, now);
      if r.None? {
        r, e := GetFromStore(key, now, later);
      }
    }

    /** Writing to the store leaves the in-memory tier alone. */
    twostate lemma StoreOnly()
      requires old(lru.Valid())
      requires forall s <- lru.shards :: unchanged(s) && forall e <- old(s.Elems()) :: unchanged(e)
      ensures lru.Valid() && forall s <- lru.shards :: s.Model() == old(s.Model())
    {
    }

    /** Stores an answer in both tiers; in degraded mode only in memory. */
    method SetWithIndex(key: Key, msg: Option<Msg>, ttl: Duration, authTTL: Duration, now: Time)
      returns (ghost e: LruEntry?)
      requires lru.Valid()
      modifies lru.Home(key), lru.Home(key).Elems(), server`db
      ensures lru.Valid()
      ensures e == null <==> msg.None? || ttl <= 0
      ensures e == null ==> lru.Home(key).Model() == old(lru.Home(key).Model())
      ensures e != null ==>
                (key in old(lru.Home(key).cache) || fresh(e)) &&
                lru.Home(key).Model() == S.Put(old(lru.Home(key).Model()), e, key, msg, ttl, ttl, authTTL, now)
      ensures server.db == if e == null || !available then old(server.db)
                           else SetIndexed(old(server.db), key, msg.value, ttl, authTTL, Min(ttl, maxGracePeriod), now)
    {
      e := lru.SetWithStoredTTL(key, msg, ttl, ttl, authTTL, now);
      if msg.None? || ttl <= 0 || !available {
        return;
      }
      var gracePeriod := ttl;
      if gracePeriod > maxGracePeriod {
        gracePeriod := maxGracePeriod;
      }
      label stored:
      server.db := SetIndexed(server.db, key, msg.value, ttl, authTTL, gracePeriod, now);
      StoreOnly@stored();
    }

    /** SETNX with a time to live. */
    method TryAcquireRefresh(key: Key, ttl: Duration, now: Time) returns (ok: bool)
      modifies server`db
      ensures ok <==> available && !LockHeld(old(server.db), key, now)
      ensures server.db == if ok then SetLock(old(server.db), key, ttl, now) else old(server.db)
    {
      if !available || (key in server.db.locks && now < server.db.locks[key]) {
        return false;
      }
      var lockTTL := ttl;
      if lockTTL <= 0 {
        lockTTL := DEFAULT_LOCK_TTL;
      }
      server.db := server.db.(locks := server.db.locks[key := now + lockTTL]);
      ok := true;
    }

    /** Deletes the lock, whoever set it. */
    method ReleaseRefresh(key: Key)
      modifies server`db
      ensures available ==> server.db == old(server.db).(locks := old(server.db).locks - {key})
      ensures !available ==> server.db == old(server.db)
      ensures forall k, t :: LockHeld(server.db, k, t) <==> (available ==> k != key) && LockHeld(old(server.db), k, t)
    {
      if available {
        server.db := server.db.(locks := server.db.locks - {key});
      }
    }

    /** The index keys due at `until`, earliest first. */
    method ExpiryCandidates(until: Time, limit: int) returns (r: seq<Key>)
      ensures !available || limit <= 0 ==> r == []
      ensures available && limit > 0 ==> IsRange(server.db.index, Some(Unix(until)), limit, r)
    {
      if !available || limit <= 0 {
        return [];
      }
      r := server.ZRange(Some(Unix(until)), limit);
    }

    method RemoveFromIndex(key: Key)
      modifies server`db
      ensures server.db == if available then old(server.db).(index := old(server.db).index - {key}) else old(server.db)
      ensures available ==> NeverInRange(server.db.index, key)
    {
      if available {
        server.db := server.db.(index := server.db.index - {key});
      }
    }

    /** Drops the dead keys among the first `sampleSize` of the index, with nobody writing in between. */
    method ReconcileExpiryIndex(sampleSize: int, now: Time) returns (removed: nat, ghost sample: seq<Key>)
      modifies server`db
      ensures available && sampleSize > 0 ==> IsRange(old(server.db.index), None, sampleSize, sample)
      ensures !available || sampleSize <= 0 ==> sample == []
      ensures removed == |Dead(old(server.db), sample, now)|
      ensures server.db == old(server.db).(index := old(server.db).index - Dead(old(server.db), sample, now))
    {
      removed, sample := 0, [];
      if !available || sampleSize <= 0 {
        return;
      }
      var keys := server.ZRange(None, sampleSize);
      sample := keys;
      var orphans: set<Key> := {};
      for i := 0 to |keys|
        invariant orphans == Dead(server.db, keys[..i], now)
        invariant server.db == old(server.db)
      {
        assert keys[..i + 1] == keys[..i] + [keys[i]];
        if keys[i] !in server.db.hash || now >= server.db.hash[keys[i]].deadline {
          orphans := orphans + {keys[i]};
        }
      }
      assert keys[..|keys|] == keys;
      server.db := server.db.(index := server.db.index - orphans);
      removed := |orphans|;
    }

    ghost predicate InMemory(key: Key)
      requires lru.Sized()
      reads lru.shards
    {
      key in lru.Home(key).cache
    }

    /** Only `key` left the in-memory tier. */
    twostate lemma OnlyKeyLeft(key: Key)
      requires lru.Sized()
      requires lru.Home(key).cache == old(lru.Home(key).cache) - {key}
      requires forall s <- lru.shards :: s != lru.Home(key) ==> unchanged(s)
      ensures forall k :: InMemory(k) <==> k != key && old(InMemory(k))
    {
    }

    /** Removes the key from both tiers, with its index entry, hit count and lock. */
    method DeleteCacheKey(key: Key)
      requires lru.Valid()
      modifies lru.Home(key), server`db
      ensures lru.Valid()
      ensures lru.Home(key).Model() == S.Delete(old(lru.Home(key).Model()), key)
      ensures forall k :: InMemory(k) <==> k != key && old(InMemory(k))
      ensures server.db == if available then DeleteKey(old(server.db), key) else old(server.db)
    {
      lru.Delete(key);
      assert lru.Home(key).cache == lru.Home(key).Model().cache == old(lru.Home(key).Model()).cache - {key};
      OnlyKeyLeft(key);
      label deleted:
      if available {
        server.db := DeleteKey(server.db, key);
        StoreOnly@deleted();
      }
    }

    /** What is known of each key, in the order of the keys. */
    method Candidates(keys: seq<Key>, now: Time) returns (cands: seq<Candidate>)
      ensures |cands| == |keys| && forall i :: 0 <= i < |keys| ==> cands[i] == CandidateOf(server.db, keys[i], now)
    {
      cands := [];
      for i := 0 to |keys|
        invariant |cands| == i && forall j :: 0 <= j < i ==> cands[j] == CandidateOf(server.db, keys[j], now)
      {
        cands := cands + [CandidateOf(server.db, keys[i], now)];
      }
    }

    static method Sorted(cands: seq<Candidate>) returns (r: seq<Candidate>)
      requires NoRepeats(cands)
      ensures SortedFrom(r, cands)
    {
      var todo := set c | c in cands;
      assert todo == SetOf(cands);
      SetOfSize(cands);
      r := [];
      while todo != {}
        invariant |r| + |todo| == |cands| && NoRepeats(r)
        invariant forall c :: c in cands <==> c in r || c in todo
        invariant forall c <- r :: c !in todo
        invariant forall i, j :: 0 <= i < j < |r| ==> !Before(r[j], r[i])
        invariant forall i, c :: 0 <= i < |r| && c in todo ==> !Before(c, r[i])
        decreases |todo|
      {
        var c := First(todo);
        todo := todo - {c};
        r := r + [c];
      }
    }

    static method First(todo: set<Candidate>) returns (c: Candidate)
      requires todo != {}
      ensures c in todo && forall x <- todo :: !Before(x, c)
    {
      c :| c in todo;
      var rest := todo - {c};
      while rest != {}
        invariant rest <= todo && c in todo
        invariant forall x <- todo :: x in rest || !Before(x, c)
      {
        var x :| x in rest;
        rest := rest - {x};
        if Before(x, c) { c := x; }
      }
    }

    /** The keys to evict from the sample: the first `n` in eviction order. */
    method Victims(sample: seq<Key>, n: nat, now: Time) returns (victims: seq<Key>)
      requires NoRepeats(sample)
      ensures NoRepeats(victims) && |victims| == Min(n, |sample|)
      ensures forall v <- victims :: v in sample
      ensures forall v <- victims, k <- sample :: k !in victims ==> !Sooner(server.db, now, k, v)
      ensures WorstGo(server.db, now, sample, victims)
    {
      var cands := Candidates(sample, now);
      var sorted := Sorted(cands);
      var deleteCount := n;
      if deleteCount > |sorted| {
        deleteCount := |sorted|;
      }
      victims := seq(deleteCount, i requires 0 <= i < deleteCount => sorted[i].key);
      VictimsFirst(server.db, sample, now, cands, sorted, victims);
      VictimsAreWorst(server.db, sample, now, victims);
    }

    /** Deletes keys from the store until the cap is met, as far as the sample allows. */
    method EvictToCap(now: Time) returns (evicted: nat, ghost sample: seq<Key>, ghost victims: seq<Key>)
      requires lru.Valid()
      modifies lru.shards, server`db
      ensures lru.Valid()
      ensures if available && OverCap(old(server.db), maxKeys, now)
              then Evicts(old(server.db), maxKeys, now, sample, victims) else victims == []
      ensures WorstGo(old(server.db), now, sample, victims)
      ensures evicted == |victims|
      ensures server.db == DeleteKeys(old(server.db), victims)
      ensures forall k :: InMemory(k) <==> k !in victims && old(InMemory(k))
    {
      sample, victims := [], [];
      if !available || maxKeys <= 0 {
        return 0, [], [];
      }
      var live := set k | k in server.db.hash && now < server.db.hash[k].deadline && "dns:" <= k;
      assert live == LiveDns(server.db, now);
      if |live| <= maxKeys {
        return 0, [], [];
      }
      var toEvict := |live| - maxKeys;
      var limit := toEvict + EVICTION_CANDIDATE_BATCH;
      if limit > EVICTION_CANDIDATE_BATCH {
        limit := EVICTION_CANDIDATE_BATCH;
      }
      var keys := server.ZRange(None, limit);
      var chosen := Victims(keys, toEvict, now);
      sample, victims := keys, chosen;
      evicted := |chosen|;
      DeleteAll(chosen);
    }

    /** One DeleteCacheKey after another. */
    method DeleteAll(keys: seq<Key>)
      requires lru.Valid() && available
      modifies lru.shards, server`db
      ensures lru.Valid()
      ensures server.db == DeleteKeys(old(server.db), keys)
      ensures forall k :: InMemory(k) <==> k !in keys && old(InMemory(k))
    {
      for i := 0 to |keys|
        invariant lru.Valid()
        invariant server.db == DeleteKeys(old(server.db), keys[..i])
        invariant forall k :: InMemory(k) <==> k !in keys[..i] && old(InMemory(k))
      {
        assert keys[..i + 1] == keys[..i] + [keys[i]];
        assert keys[..i + 1][..i] == keys[..i];
        DeleteCacheKey(keys[i]);
      }
      assert keys[..|keys|] == keys;
    }
  }
}
