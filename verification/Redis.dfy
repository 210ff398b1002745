/** The shared Redis store, as far as the cache uses it: a hash per cache key with a time to live, the
    expiry index, and the refresh locks. Each function is one atomic command or pipeline. */
module Redis {
  import opened Types

  /** The fields of a cache hash; times are in whole seconds, except the deadline that EXPIRE set. */
  datatype Hash = Hash(msg: Msg, softExpiry: int, createdAt: int, storedTTL: int, authTTL: Option<int>, deadline: Time)

  datatype Db = Db(hash: map<Key, Hash>, index: map<Key, int>, hits: map<Key, int>, locks: map<Key, Time>)

  ghost predicate Live(db: Db, k: Key, now: Time) {
    k in db.hash && now < db.hash[k].deadline
  }

  /** HSET merges into a hash that is there: without a new auth_ttl the old one stays. */
  function MergedAuth(db: Db, k: Key, authTTL: Duration, now: Time): Option<int> {
    if authTTL > 0 then Some(authTTL / SECOND)
    else if k in db.hash && now < db.hash[k].deadline then db.hash[k].authTTL
    else None
  }

  /** The pipeline of SetWithIndex: HSET, ZADD and EXPIRE. */
  function SetIndexed(db: Db, k: Key, msg: Msg, ttl: Duration, authTTL: Duration, grace: Duration, now: Time): Db {
    var soft := Unix(now + ttl);
    var auth := MergedAuth(db, k, authTTL, now);
    db.(hash := db.hash[k := Hash(msg, soft, Unix(now), ttl / SECOND, auth, now + ttl + grace)],
        index := db.index[k := soft])
  }

  /** The pipeline of DeleteCacheKey: the hash, its index entry, its hit count and its lock. */
  function DeleteKey(db: Db, k: Key): Db {
    Db(db.hash - {k}, db.index - {k}, db.hits - {k}, db.locks - {k})
  }

  function DeleteKeys(db: Db, ks: seq<Key>): Db {
    if ks == [] then db else DeleteKey(DeleteKeys(db, ks[..|ks| - 1]), ks[|ks| - 1])
  }

  lemma {:induction false} DeleteKeysIs(db: Db, ks: seq<Key>)
    ensures forall k :: k in DeleteKeys(db, ks).hash <==> k in db.hash && k !in ks
    ensures forall k <- DeleteKeys(db, ks).hash :: DeleteKeys(db, ks).hash[k] == db.hash[k]
    ensures forall k :: k in DeleteKeys(db, ks).index <==> k in db.index && k !in ks
    ensures forall k <- DeleteKeys(db, ks).index :: DeleteKeys(db, ks).index[k] == db.index[k]
    ensures forall k :: k in DeleteKeys(db, ks).hits <==> k in db.hits && k !in ks
    ensures forall k <- DeleteKeys(db, ks).hits :: DeleteKeys(db, ks).hits[k] == db.hits[k]
    ensures forall k :: k in DeleteKeys(db, ks).locks <==> k in db.locks && k !in ks
    ensures forall k <- DeleteKeys(db, ks).locks :: DeleteKeys(db, ks).locks[k] == db.locks[k]
  {
    if ks != [] {
      DeleteKeysIs(db, ks[..|ks| - 1]);
      assert ks == ks[..|ks| - 1] + [ks[|ks| - 1]];
    }
  }

  ghost predicate LockHeld(db: Db, k: Key, now: Time) {
    k in db.locks && now < db.locks[k]
  }

  function SetLock(db: Db, k: Key, ttl: Duration, now: Time): Db {
    db.(locks := db.locks[k := now + if ttl <= 0 then DEFAULT_LOCK_TTL else ttl])
  }

  /** A lock that was set is held for its time to live, 10 seconds if none is given; the locks of other keys are as they
      were. */
  lemma LockLasts(db: Db, k: Key, ttl: Duration, now: Time, x: Key, t: Time)
    ensures LockHeld(SetLock(db, k, ttl, now), x, t) <==>
              if x == k then t < now + (if ttl > 0 then ttl else 10_000_000_000) else LockHeld(db, x, t)
  {
  }

  /** The keys of `ks` without a live hash. */
  ghost function Dead(db: Db, ks: seq<Key>, now: Time): set<Key> {
    set k | k in ks && !Live(db, k, now)
  }

  // ---------- Ranges of the index ----------

  ghost predicate NoRepeats<T>(s: seq<T>) {
    forall i, j :: 0 <= i < j < |s| ==> s[i] != s[j]
  }

  /** Index keys with a score of at most `max`, lowest scores first, `limit` of them if there are that
      many; keys with equal scores come in any order. */
  ghost predicate IsRange(index: map<Key, int>, max: Option<int>, limit: nat, r: seq<Key>) {
    && NoRepeats(r) && |r| <= limit
    && (forall k <- r :: k in index && (max.Some? ==> index[k] <= max.value))
    && (forall i, j :: 0 <= i < j < |r| && r[i] in index && r[j] in index ==> index[r[i]] <= index[r[j]])
    && (forall k <- index :: k !in r && (max.Some? ==> index[k] <= max.value) ==>
          |r| == limit && forall x <- r :: x in index && index[x] <= index[k])
  }

  /** No range of the index has the key: neither a sweep nor an eviction will meet it. */
  ghost predicate NeverInRange(index: map<Key, int>, k: Key) {
    forall max, limit, r :: IsRange(index, max, limit, r) ==> k !in r
  }

  class Server {
    var db: Db

    constructor ()
      ensures db == Db(map[], map[], map[], map[])
    {
      db := Db(map[], map[], map[], map[]);
    }

    method ZRange(max: Option<int>, limit: nat) returns (r: seq<Key>)
      ensures IsRange(db.index, max, limit, r)
    {
      var index := db.index;
      var todo := set k | k in index && (max.Some? ==> index[k] <= max.value);
      r := [];
      while todo != {} && |r| < limit
        invariant todo <= index.Keys && NoRepeats(r) && |r| <= limit
        invariant forall k <- r :: k in index && k !in todo && (max.Some? ==> index[k] <= max.value)
        invariant forall k <- index :: k !in r && (max.Some? ==> index[k] <= max.value) ==> k in todo
        invariant forall k <- todo :: max.Some? ==> index[k] <= max.value
        invariant forall i, j :: 0 <= i < j < |r| ==> index[r[i]] <= index[r[j]]
        invariant forall i, k :: 0 <= i < |r| && k in todo ==> index[r[i]] <= index[k]
        decreases |todo|
      {
        var k := Lowest(index, todo);
        todo := todo - {k};
        r := r + [k];
      }
    }

    static method Lowest(index: map<Key, int>, todo: set<Key>) returns (k: Key)
      requires todo != {} && todo <= index.Keys
      ensures k in todo && forall x <- todo :: index[k] <= index[x]
    {
      k :| k in todo;
      var rest := todo - {k};
      while rest != {}
        invariant rest <= todo && k in todo
        invariant forall x <- todo :: x in rest || index[k] <= index[x]
      {
        var x :| x in rest;
        rest := rest - {x};
        if index[x] < index[k] { k := x; }
      }
    }
  }
}
