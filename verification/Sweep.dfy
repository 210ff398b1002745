/** The periodic sweep over the expiry index: which keys it drops, which it deletes as cold, and which it
    hands to the refresh. */
module Sweep {
  import opened Types
  import opened Redis
  import opened RedisCache
  import CacheKeys
  import ExpiryIndex

  /** What one batch of lookups said of a key; the creation time is in whole seconds, None when unknown. */
  datatype Check = Check(exists_: bool, sweepHits: int, createdAt: Option<int>)

  datatype Config = Config(sweepHitWindow: Duration, sweepMinHits: int)

  datatype Verdict = Orphan | Cold | Unparsable | Refresh

  /** Cold: too few hits, and old enough to have had the whole window to collect them. */
  predicate IsCold(check: Check, cfg: Config, now: Time) {
    && cfg.sweepHitWindow > 0 && cfg.sweepMinHits > 0 && check.sweepHits < cfg.sweepMinHits
    && (check.createdAt.None? || now - check.createdAt.value * SECOND >= cfg.sweepHitWindow)
  }

  function Judge(key: Key, check: Check, cfg: Config, now: Time): Verdict {
    if !check.exists_ then Orphan
    else if IsCold(check, cfg, now) then Cold
    else if CacheKeys.ParseCacheKey(key).None? then Unparsable
    else Refresh
  }

  /** Some of the first `n` candidates is `k`, with verdict `v`. */
  ghost predicate Met(keys: seq<Key>, checks: seq<Check>, n: nat, cfg: Config, now: Time, k: Key, v: Verdict)
    requires n <= |keys| && n <= |checks|
  {
    exists i :: 0 <= i < n && keys[i] == k && Judge(keys[i], checks[i], cfg, now) == v
  }

  /** The keys with verdict Refresh among the first `n`, in order. */
  ghost function ToRefresh(keys: seq<Key>, checks: seq<Check>, n: nat, cfg: Config, now: Time): seq<Key>
    requires n <= |keys| && n <= |checks|
  {
    if n == 0 then []
    else ToRefresh(keys, checks, n - 1, cfg, now) +
         if Judge(keys[n - 1], checks[n - 1], cfg, now).Refresh? then [keys[n - 1]] else []
  }

  ghost function SweptOne(db: Db, key: Key, check: Check, cfg: Config, now: Time): Db {
    match Judge(key, check, cfg, now)
    case Cold => DeleteKey(db, key)
    case Refresh => db
    case _ => db.(index := db.index - {key})
  }

  /** The store after the first `n` candidates. */
  ghost function Swept(db: Db, keys: seq<Key>, checks: seq<Check>, n: nat, cfg: Config, now: Time): Db
    requires n <= |keys| && n <= |checks|
  {
    if n == 0 then db
    else SweptOne(Swept(db, keys, checks, n - 1, cfg, now), keys[n - 1], checks[n - 1], cfg, now)
  }

  lemma MetSnoc(keys: seq<Key>, checks: seq<Check>, n: nat, cfg: Config, now: Time, k: Key, v: Verdict)
    requires n < |keys| && n < |checks|
    ensures Met(keys, checks, n + 1, cfg, now, k, v) <==>
              (Met(keys, checks, n, cfg, now, k, v) || (keys[n] == k && Judge(keys[n], checks[n], cfg, now) == v))
  {
  }

  lemma MetSnocAll(keys: seq<Key>, checks: seq<Check>, n: nat, cfg: Config, now: Time, v: Verdict)
    requires n < |keys| && n < |checks|
    ensures forall k :: Met(keys, checks, n + 1, cfg, now, k, v) <==>
              (Met(keys, checks, n, cfg, now, k, v) || (keys[n] == k && Judge(keys[n], checks[n], cfg, now) == v))
  {
    forall k ensures Met(keys, checks, n + 1, cfg, now, k, v) <==>
              (Met(keys, checks, n, cfg, now, k, v) || (keys[n] == k && Judge(keys[n], checks[n], cfg, now) == v)) {
      MetSnoc(keys, checks, n, cfg, now, k, v);
    }
  }

  /** A hash goes exactly when its key is judged cold; an index entry stays exactly when its key is
      judged fit for a refresh, or not at all. */
  lemma {:induction false} SweptIs(db: Db, keys: seq<Key>, checks: seq<Check>, n: nat, cfg: Config, now: Time, k: Key)
    requires n <= |keys| && n <= |checks|
    ensures var d := Swept(db, keys, checks, n, cfg, now);
            && (k in d.hash <==> k in db.hash && !Met(keys, checks, n, cfg, now, k, Cold))
            && (k in d.hash ==> d.hash[k] == db.hash[k])
            && (k in d.index <==>
                  (k in db.index && !Met(keys, checks, n, cfg, now, k, Cold)
                   && !Met(keys, checks, n, cfg, now, k, Orphan) && !Met(keys, checks, n, cfg, now, k, Unparsable)))
            && (k in d.index ==> d.index[k] == db.index[k])
  {
    if n > 0 {
      SweptIs(db, keys, checks, n - 1, cfg, now, k);
      MetSnoc(keys, checks, n - 1, cfg, now, k, Cold);
      MetSnoc(keys, checks, n - 1, cfg, now, k, Orphan);
      MetSnoc(keys, checks, n - 1, cfg, now, k, Unparsable);
    }
  }

  // ---------- What the verdicts amount to ----------

  /** The key of the check is there, has too few hits, and is not known to be younger than the window. */
  ghost predicate Idle(check: Check, cfg: Config, now: Time) {
    && check.exists_ && check.sweepHits < cfg.sweepMinHits
    && (check.createdAt == None || check.createdAt.value * SECOND + cfg.sweepHitWindow <= now)
  }

  /** A sweep deletes the hash of a key exactly if both window and minimum are set and some check of the key found it
      idle. */
  lemma {:induction false} DeletedIff(db: Db, keys: seq<Key>, checks: seq<Check>, n: nat, cfg: Config, now: Time,
                                      k: Key)
    requires n <= |keys| && n <= |checks|
    ensures Met(keys, checks, n, cfg, now, k, Cold) <==>
              cfg.sweepHitWindow > 0 && cfg.sweepMinHits > 0
              && exists i :: 0 <= i < n && keys[i] == k && Idle(checks[i], cfg, now)
    ensures k in db.hash && k !in Swept(db, keys, checks, n, cfg, now).hash <==>
              k in db.hash && cfg.sweepHitWindow > 0 && cfg.sweepMinHits > 0
              && exists i :: 0 <= i < n && keys[i] == k && Idle(checks[i], cfg, now)
  {
    SweptIs(db, keys, checks, n, cfg, now, k);
    forall i | 0 <= i < n
      ensures Judge(keys[i], checks[i], cfg, now).Cold? <==>
                cfg.sweepHitWindow > 0 && cfg.sweepMinHits > 0 && Idle(checks[i], cfg, now)
    {
    }
  }

  /** A key that every check found with enough hits is never deleted. */
  lemma {:induction false} HitsKeep(db: Db, keys: seq<Key>, checks: seq<Check>, n: nat, cfg: Config, now: Time, k: Key)
    requires n <= |keys| && n <= |checks| && k in db.hash
    requires forall i :: 0 <= i < n && keys[i] == k ==> checks[i].sweepHits >= cfg.sweepMinHits
    ensures k in Swept(db, keys, checks, n, cfg, now).hash
  {
    DeletedIff(db, keys, checks, n, cfg, now, k);
  }

  /** The i-th candidate stays: it is there, is not deleted as idle, and parses. */
  ghost predicate Stays(keys: seq<Key>, checks: seq<Check>, cfg: Config, now: Time, i: nat)
    requires i < |keys| && i < |checks|
  {
    && checks[i].exists_ && ExpiryIndex.Parses(keys[i])
    && (cfg.sweepHitWindow <= 0 || cfg.sweepMinHits <= 0 || !Idle(checks[i], cfg, now))
  }

  /** A sweep takes a key out of the index exactly if some check of it does not let it stay. */
  lemma {:induction false} UnindexedIff(db: Db, keys: seq<Key>, checks: seq<Check>, n: nat, cfg: Config, now: Time,
                                        k: Key)
    requires n <= |keys| && n <= |checks|
    ensures k in Swept(db, keys, checks, n, cfg, now).index <==>
              k in db.index && forall i :: 0 <= i < n && keys[i] == k ==> Stays(keys, checks, cfg, now, i)
  {
    SweptIs(db, keys, checks, n, cfg, now, k);
    forall i: nat | i < n ensures Judge(keys[i], checks[i], cfg, now).Refresh? <==> Stays(keys, checks, cfg, now, i) {
    }
    if i: nat :| i < n && keys[i] == k && !Stays(keys, checks, cfg, now, i) {
      assert Met(keys, checks, n, cfg, now, k, Judge(keys[i], checks[i], cfg, now));
    }
  }

  /** The keys handed to the refresh are those of the candidates that stay, each in its turn. */
  lemma {:induction false} RefreshesWhatStays(keys: seq<Key>, checks: seq<Check>, n: nat, cfg: Config, now: Time)
    returns (at: seq<nat>)
    requires n <= |keys| && n <= |checks|
    ensures |at| == |ToRefresh(keys, checks, n, cfg, now)|
    ensures forall m :: 0 <= m < |at| ==> at[m] < n && ToRefresh(keys, checks, n, cfg, now)[m] == keys[at[m]]
    ensures forall l, m :: 0 <= l < m < |at| ==> at[l] < at[m]
    ensures forall i: nat :: i < n ==> (i in at <==> Stays(keys, checks, cfg, now, i))
  {
    at := [];
    if n > 0 {
      at := RefreshesWhatStays(keys, checks, n - 1, cfg, now);
      assert Judge(keys[n - 1], checks[n - 1], cfg, now).Refresh? <==> Stays(keys, checks, cfg, now, n - 1);
      if Stays(keys, checks, cfg, now, n - 1) {
        at := at + [n - 1];
      }
    }
  }

  // ---------- Checks that are true when they are used ----------

  /** The check says what the store holds at `now`. */
  ghost predicate Honest(db: Db, k: Key, check: Check, now: Time) {
    && (check.exists_ <==> Live(db, k, now))
    && (check.exists_ ==> check.createdAt == Some(db.hash[k].createdAt))
  }

  ghost predicate AllHonest(db: Db, keys: seq<Key>, checks: seq<Check>, n: nat, now: Time)
    requires n <= |keys| && n <= |checks|
  {
    forall i :: 0 <= i < n ==> Honest(db, keys[i], checks[i], now)
  }

  /** With checks that still hold, a sweep takes no live key that parses out of the index unless it deletes it as
      cold, and it deletes no live key created less than a window ago. */
  lemma {:induction false} SweepSpares(db: Db, keys: seq<Key>, checks: seq<Check>, n: nat, cfg: Config, now: Time,
                                       k: Key)
    requires n <= |keys| && n <= |checks| && AllHonest(db, keys, checks, n, now)
    requires Live(db, k, now)
    ensures var d := Swept(db, keys, checks, n, cfg, now);
            && (k in d.hash || now - db.hash[k].createdAt * SECOND >= cfg.sweepHitWindow > 0)
            && (k in d.hash ==> d.hash[k] == db.hash[k])
            && (k in d.hash && ExpiryIndex.Parses(k) && k in db.index ==> k in d.index && d.index[k] == db.index[k])
  {
    SweptIs(db, keys, checks, n, cfg, now, k);
  }

  /** A sweep with checks that still hold leaves no dead candidate in the index. */
  lemma SweepClears(db: Db, keys: seq<Key>, checks: seq<Check>, n: nat, cfg: Config, now: Time, i: nat)
    requires i < n <= |keys| && n <= |checks| && AllHonest(db, keys, checks, n, now)
    ensures keys[i] in Swept(db, keys, checks, n, cfg, now).index ==>
              Live(db, keys[i], now) && ExpiryIndex.Parses(keys[i])
  {
    SweptIs(db, keys, checks, n, cfg, now, keys[i]);
    assert Met(keys, checks, n, cfg, now, keys[i], Judge(keys[i], checks[i], cfg, now));
  }

  /** Every store renews the creation time, so that a key stored at `t` can be found cold, at some later time and
      before it runs out, exactly when its TTL and grace period outlast the window. */
  lemma ColdIsPossibleIff(db: Db, k: Key, msg: Msg, t: Time, ttl: Duration, auth: Duration, grace: Duration,
                          sweepHits: int, cfg: Config)
    requires ttl > 0 && grace >= 0 && cfg.sweepHitWindow > 0 && sweepHits < cfg.sweepMinHits && cfg.sweepMinHits > 0
    ensures var d := SetIndexed(db, k, msg, ttl, auth, grace, t);
            (exists now :: now >= t && Live(d, k, now) &&
                           Judge(k, Check(true, sweepHits, Some(d.hash[k].createdAt)), cfg, now).Cold?)
            <==> Unix(t) * SECOND + cfg.sweepHitWindow < t + ttl + grace
  {
    var d := SetIndexed(db, k, msg, ttl, auth, grace, t);
    var due := Unix(t) * SECOND + cfg.sweepHitWindow;
    var now := if due < t then t else due;
    if due < t + ttl + grace {
      assert Live(d, k, now) && Judge(k, Check(true, sweepHits, Some(d.hash[k].createdAt)), cfg, now).Cold?;
    }
  }

  // ---------- The sweep ----------

  class Sweeper {
    const cache: RedisCache
    const cfg: Config

    constructor (cache: RedisCache, cfg: Config)
      ensures this.cache == cache && this.cfg == cfg
    {
      this.cache, this.cfg := cache, cfg;
    }

    /** One candidate: drop it from the index, delete it, or find it fit for a refresh. */
    method Visit(key: Key, check: Check, now: Time) returns (fit: bool)
      requires cache.lru.Valid() && cache.available
      modifies cache.lru.Home(key), cache.server`db
      ensures cache.lru.Valid()
      ensures fit <==> Judge(key, check, cfg, now).Refresh?
      ensures cache.server.db == SweptOne(old(cache.server.db), key, check, cfg, now)
      ensures forall k :: cache.InMemory(k) <==>
                (k != key || !Judge(key, check, cfg, now).Cold?) && old(cache.InMemory(k))
    {
      fit := false;
      if check.exists_ {
        if cfg.sweepHitWindow > 0 && cfg.sweepMinHits > 0 && check.sweepHits < cfg.sweepMinHits {
          var keyOldEnough := check.createdAt.None? || now - check.createdAt.value * SECOND >= cfg.sweepHitWindow;
          if keyOldEnough {
            cache.DeleteCacheKey(key);
            return;
          }
        }
        if CacheKeys.ParseCacheKey(key).Some? {
          return true;
        }
      }
      label dropped:
      cache.RemoveFromIndex(key);
      cache.StoreOnly@dropped();
    }

    /** The first `n` candidates have been visited, from the store `db` and with the keys `was` in memory. */
    ghost predicate Visited(keys: seq<Key>, checks: seq<Check>, n: nat, now: Time, db: Db, was: iset<Key>,
                            refresh: seq<Key>)
      requires n <= |keys| && n <= |checks| && cache.lru.Sized()
      reads cache, cache.server, cache.lru.shards
    {
      && refresh == ToRefresh(keys, checks, n, cfg, now)
      && cache.server.db == Swept(db, keys, checks, n, cfg, now)
      && forall k :: cache.InMemory(k) <==> !Met(keys, checks, n, cfg, now, k, Cold) && k in was
    }

    /** Candidate `i`, after those before it. */
    method VisitNext(keys: seq<Key>, checks: seq<Check>, i: nat, now: Time, ghost db: Db, ghost was: iset<Key>,
                     before: seq<Key>)
      returns (refresh: seq<Key>)
      requires i < |keys| && i < |checks| && cache.lru.Valid() && cache.available
      requires Visited(keys, checks, i, now, db, was, before)
      modifies cache.lru.shards, cache.server`db
      ensures cache.lru.Valid() && Visited(keys, checks, i + 1, now, db, was, refresh)
    {
      MetSnocAll(keys, checks, i, cfg, now, Cold);
      var fit := Visit(keys[i], checks[i], now);
      refresh := if fit then before + [keys[i]] else before;
    }

    /** Goes through the candidates for which there is a check; `refresh` lists those handed to the refresh. */
    method SweepCandidates(keys: seq<Key>, checks: seq<Check>, now: Time) returns (refresh: seq<Key>)
      requires cache.lru.Valid() && cache.available
      modifies cache.lru.shards, cache.server`db
      ensures cache.lru.Valid()
      ensures var n := Min(|keys|, |checks|);
              && refresh == ToRefresh(keys, checks, n, cfg, now)
              && cache.server.db == Swept(old(cache.server.db), keys, checks, n, cfg, now)
              && forall k :: cache.InMemory(k) <==> !Met(keys, checks, n, cfg, now, k, Cold) && old(cache.InMemory(k))
    {
      refresh := [];
      ghost var db, was := cache.server.db, iset k | cache.InMemory(k);
      var i := 0;
      while i < |keys| && i < |checks|
        invariant i <= |keys| && i <= |checks| && cache.lru.Valid()
        invariant Visited(keys, checks, i, now, db, was, refresh)
      {
        refresh := VisitNext(keys, checks, i, now, db, was, refresh);
        i := i + 1;
      }
      assert i == Min(|keys|, |checks|);
    }
  }
}
