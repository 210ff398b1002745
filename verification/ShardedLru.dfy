/** The sharded L0 cache: independent SIEVE caches behind a power-of-two router. */
module ShardedLru {
  import opened Types
  import S = Sieve
  import opened LruCache

  const DEFAULT_LRU_SHARD_COUNT: nat := 32

  /** One round of FNV-1a, with 32-bit wrap-around. Keys are byte strings: a character stands for one byte. */
  function Mix(h: bv32, c: char): bv32 {
    (h ^ ((c as int % 256) as bv32)) * 16777619
  }

  ghost function Fnv1a(key: Key): bv32 {
    if key == "" then 2166136261 else Mix(Fnv1a(key[..|key| - 1]), key[|key| - 1])
  }

  /** Known values of the hash. */
  lemma Fnv1aSamples()
    ensures Fnv1a("") == 0x811c9dc5 && Fnv1a("f") == 0xe30c2799 && Fnv1a("fo") == 0x6222e842
  {
    FirstByte();
    SecondByte();
    assert "fo"[..1] == "f" && "f"[..0] == "";
    assert Fnv1a("f") == Mix(0x811c9dc5, 'f');
  }

  lemma FirstByte()
    ensures Mix(0x811c9dc5, 'f') == 0xe30c2799
  {
  }

  lemma SecondByte()
    ensures Mix(0xe30c2799, 'o') == 0x6222e842
  {
  }

  lemma Fnv1aSnoc(key: Key, n: nat)
    requires n < |key|
    ensures Fnv1a(key[..n + 1]) == Mix(Fnv1a(key[..n]), key[n])
  {
    assert key[..n + 1][..n] == key[..n];
  }

  /** The shard of a key when there are `n` shards. */
  ghost function Route(key: Key, mask: bv32): nat {
    (Fnv1a(key) & mask) as nat
  }

  lemma RouteInRange(key: Key, mask: bv32, n: nat)
    requires (n == 1 && mask == 0) || (n == 32 && mask == 31)
    ensures Route(key, mask) < n
  {
    var h := Fnv1a(key);
    if mask == 0 {
      assert (h & 0) as int == 0;
    } else {
      assert (h & 31) as int < 32;
    }
  }

  /** The shard is the remainder of the hash by the number of shards. */
  lemma RouteIsRemainder(key: Key)
    ensures Route(key, 0) == 0 && Route(key, 31) == (Fnv1a(key) % 32) as nat
  {
    var h := Fnv1a(key);
    assert h & 0 == 0 && h & 31 == h % 32;
  }

  method Hash(key: Key) returns (h: bv32)
    ensures h == Fnv1a(key)
  {
    h := 2166136261;
    for n := 0 to |key|
      invariant h == Fnv1a(key[..n])
    {
      Fnv1aSnoc(key, n);
      h := Mix(h, key[n]);
    }
    assert key[..|key|] == key;
  }

  class ShardedLRUCache {
    const shards: seq<LRUCache>
    const mask: bv32

    ghost function Entries(): set<LruEntry>
      reads shards
    {
      set s, e | s in shards && e in s.Elems() :: e
    }

    ghost predicate Sized() {
      (|shards| == 1 && mask == 0) || (|shards| == 32 && mask == 31)
    }

    ghost predicate Valid()
      reads shards, Entries()
    {
      && Sized()
      && (forall i, j :: 0 <= i < j < |shards| ==> shards[i] != shards[j])
      && (forall s <- shards :: s.Valid())
      && (forall s <- shards :: s.maxEntries == shards[0].maxEntries)
      && (forall s, t :: s in shards && t in shards && s != t ==> s.Elems() !! t.Elems())
    }

    /** The shard a key belongs to. */
    ghost function Home(key: Key): (s: LRUCache)
      requires Sized()
      ensures s in shards
    {
      RouteInRange(key, mask, |shards|);
      shards[Route(key, mask)]
    }

    constructor (maxEntries: int, maxGracePeriod: Duration)
      ensures Valid() && (forall s <- shards :: fresh(s)) && fresh(Entries())
      ensures forall s <- shards :: s.ll == [] && s.maxEntries == shards[0].maxEntries
      ensures |shards| * shards[0].maxEntries ==
              if 3168 < maxEntries then (maxEntries + 31) / 32 * 32
              else if maxEntries <= 0 then 1000 else maxEntries
    {
      var shardCount := DEFAULT_LRU_SHARD_COUNT;
      var perShard := if maxEntries + 31 >= 0 then (maxEntries + 31) / 32 else -((-(maxEntries + 31)) / 32);
      if perShard < 100 {
        shardCount := 1;
        perShard := maxEntries;
      }
      var made: seq<LRUCache> := [];
      while |made| < shardCount
        invariant |made| <= shardCount
        invariant forall s <- made :: fresh(s) && s.Valid() && fresh(s.Elems()) && s.ll == [] && s.Elems() == {}
        invariant forall s <- made :: s.maxEntries == if perShard <= 0 then 1000 else perShard
        invariant forall i, j :: 0 <= i < j < |made| ==> made[i] != made[j]
      {
        var s := new LRUCache(perShard, maxGracePeriod);
        made := made + [s];
      }
      shards := made;
      mask := if shardCount == 1 then 0 else 31;
    }

    /** FNV-1a of the key, masked. */
    method ShardIndex(key: Key) returns (i: nat)
      requires Sized()
      ensures i < |shards| && shards[i] == Home(key)
    {
      RouteInRange(key, mask, |shards|);
      var h := Hash(key);
      i := (h & mask) as nat;
    }

    /** A call on one shard leaves the others, and the separation of the shards, as they were. */
    twostate lemma HomeOnly(home: LRUCache)
      requires old(Valid()) && home in shards && home.Valid()
      requires forall e <- home.Elems() :: e in old(home.Elems()) || !old(allocated(e))
      requires forall s <- shards :: s != home ==> s.Model() == old(s.Model())
      ensures Valid()
    {
      forall s <- shards | s != home ensures s.Elems() == old(s.Elems()) && s.Valid() {
      }
    }

    /** A lookup in one shard leaves the others alone. */
    method GetIn(home: LRUCache, key: Key, now: Time) returns (r: Option<S.Hit>)
      requires Valid() && home in shards
      modifies home, home.Elems()
      ensures Valid() && home.Elems() <= old(home.Elems())
      ensures r == S.Lookup(old(home.Model()), key, now)
      ensures home.Model() == S.Get(old(home.Model()), key, now)
    {
      assert forall s <- shards :: s != home ==> s.Elems() !! home.Elems();
      r := home.Get(key, now);
      HomeOnly(home);
    }

    method Get(key: Key, now: Time) returns (r: Option<S.Hit>)
      requires Valid()
      modifies Home(key), Home(key).Elems()
      ensures Valid() && Home(key).Elems() <= old(Home(key).Elems())
      ensures r == S.Lookup(old(Home(key).Model()), key, now)
      ensures Home(key).Model() == S.Get(old(Home(key).Model()), key, now)
    {
      ghost var home := Home(key);
      ghost var was := home.Model();
      var i := ShardIndex(key);
      home.ModelIs(was);
      r := GetIn(shards[i], key, now);
    }

    /** So does a store. */
    method SetIn(home: LRUCache, key: Key, msg: Option<Msg>, ttl: Duration, storedTTL: Duration, authTTL: Duration,
                 now: Time)
      returns (ghost e: LruEntry?)
      requires Valid() && home in shards
      modifies home, home.Elems()
      ensures Valid()
      ensures e == null <==> msg.None? || ttl <= 0
      ensures e == null ==> home.Model() == old(home.Model())
      ensures e != null ==> (key in old(home.cache) || fresh(e))
      ensures e != null ==> home.Model() == S.Put(old(home.Model()), e, key, msg, ttl, storedTTL, authTTL, now)
    {
      assert forall s <- shards :: s != home ==> s.Elems() !! home.Elems();
      e := home.SetWithStoredTTL(key, msg, ttl, storedTTL, authTTL, now);
      HomeOnly(home);
    }

    method SetWithStoredTTL(key: Key, msg: Option<Msg>, ttl: Duration, storedTTL: Duration, authTTL: Duration,
                            now: Time)
      returns (ghost e: LruEntry?)
      requires Valid()
      modifies Home(key), Home(key).Elems()
      ensures Valid()
      ensures e == null <==> msg.None? || ttl <= 0
      ensures e == null ==> Home(key).Model() == old(Home(key).Model())
      ensures e != null ==> (key in old(Home(key).cache) || fresh(e))
      ensures e != null ==>
                Home(key).Model() == S.Put(old(Home(key).Model()), e, key, msg, ttl, storedTTL, authTTL, now)
    {
      ghost var home := Home(key);
      ghost var was := home.Model();
      var i := ShardIndex(key);
      home.ModelIs(was);
      e := SetIn(shards[i], key, msg, ttl, storedTTL, authTTL, now);
    }

    /** So does a deletion. */
    method DeleteIn(home: LRUCache, key: Key)
      requires Valid() && home in shards
      modifies home
      ensures Valid()
      ensures home.Model() == S.Delete(old(home.Model()), key)
    {
      home.Delete(key);
      forall s <- shards | s != home ensures s.Model() == old(s.Model()) {
        s.ModelIs(old(s.Model()));
      }
      HomeOnly(home);
    }

    method Delete(key: Key)
      requires Valid()
      modifies Home(key)
      ensures Valid()
      ensures Home(key).Model() == S.Delete(old(Home(key).Model()), key)
    {
      ghost var home := Home(key);
      ghost var was := home.Model();
      var i := ShardIndex(key);
      home.ModelIs(was);
      DeleteIn(shards[i], key);
    }

    method Clear()
      requires Valid()
      modifies shards
      ensures Valid()
      ensures forall s <- shards :: s.Model() == S.Clear(old(s.Model()))
    {
      for i := 0 to |shards|
        invariant forall j :: 0 <= j < i ==>
          old(shards[j].Valid()) && shards[j].Model() == S.Clear(old(shards[j].Model())) && shards[j].Elems() == {}
        invariant forall j :: i <= j < |shards| ==> unchanged(shards[j])
      {
        shards[i].ModelIs(old(shards[i].Model()));
        assert old(shards[i].Valid()) && shards[i].Valid();
        shards[i].Clear();
      }
    }

    ghost function TotalLen(n: nat): nat
      reads shards
      requires n <= |shards|
    {
      if n == 0 then 0 else TotalLen(n - 1) + |shards[n - 1].ll|
    }

    lemma TotalLenBound(n: nat)
      requires Valid() && n <= |shards|
      ensures TotalLen(n) <= n * shards[0].maxEntries
    {
      if n > 0 {
        TotalLenBound(n - 1);
        var s := shards[n - 1];
        assert s in shards && |s.Model().ll| <= s.Model().cap == shards[0].maxEntries;
        assert n * shards[0].maxEntries == (n - 1) * shards[0].maxEntries + shards[0].maxEntries;
      }
    }

    /** The number of listed entries, summed over the shards. */
    method Len() returns (n: nat)
      requires Valid()
      ensures n == TotalLen(|shards|)
      ensures n <= |shards| * shards[0].maxEntries
    {
      n := 0;
      for i := 0 to |shards|
        invariant n == TotalLen(i)
      {
        n := n + shards[i].Len();
      }
      TotalLenBound(|shards|);
    }
  }
}
