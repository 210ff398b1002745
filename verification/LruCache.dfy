/** The in-memory L0 cache: a list of entries, a map into it, and the SIEVE hand. */
module LruCache {
  import opened Types
  import S = Sieve
  import R = SieveRuns

  class LruEntry {
    const key: Key
    var msg: Msg
    var expiry: Time
    var softExpiry: Time
    var storedTTL: Duration
    var authTTL: Duration
    var visited: bool

    constructor (key: Key, msg: Msg, expiry: Time, softExpiry: Time, storedTTL: Duration, authTTL: Duration)
      ensures Data() == S.Entry(key, msg, expiry, softExpiry, storedTTL, authTTL, true)
    {
      this.key, this.msg, this.expiry, this.softExpiry := key, msg, expiry, softExpiry;
      this.storedTTL, this.authTTL, this.visited := storedTTL, authTTL, true;
    }

    ghost function Data(): S.Entry
      reads this
    {
      S.Entry(key, msg, expiry, softExpiry, storedTTL, authTTL, visited)
    }
  }

  class LRUCache {
    const maxEntries: nat
    const maxGracePeriod: Duration
    var ll: seq<LruEntry>  // front first
    var cache: map<Key, LruEntry>
    var hand: LruEntry?

    constructor (maxEntries: int, maxGracePeriod: Duration)
      ensures Valid() && fresh(Elems())
      ensures Model() == S.Empty(if maxEntries <= 0 then 1000 else maxEntries,
                                 if maxGracePeriod <= 0 then HOUR else maxGracePeriod)
    {
      this.maxEntries := if maxEntries <= 0 then 1000 else maxEntries;
      this.maxGracePeriod := if maxGracePeriod <= 0 then HOUR else maxGracePeriod;
      ll, cache, hand := [], map[], null;
    }

    /** The listed entries, and the one under the hand. */
    ghost function Elems(): set<LruEntry>
      reads this
    {
      (set e | e in ll) + (if hand == null then {} else {hand})
    }

    ghost function HandOption(): Option<LruEntry>
      reads this
    {
      if hand == null then None else var e: LruEntry := hand; Some(e)
    }

    ghost function Model(): (s: S.State<LruEntry>)
      reads this, Elems()
      ensures s.ent.Keys == S.Scope(s.ll, s.hand) == Elems()
    {
      S.State(maxEntries, maxGracePeriod, ll, cache,
              HandOption(),
              map e | e in Elems() :: e.Data())
    }

    ghost predicate Valid()
      reads this, Elems()
    {
      S.Weak(Model())
    }

    /** The model is `s` when the fields and the entries' contents say so. */
    lemma ModelIs(s: S.State<LruEntry>)
      requires s.cap == maxEntries && s.grace == maxGracePeriod && s.ll == ll && s.cache == cache
      requires s.hand == HandOption() && s.ent.Keys == Elems()
      requires forall e <- Elems() :: s.ent[e] == e.Data()
      ensures Model() == s
    {
    }

    // ---------- The list ----------

    /** The neighbour toward the front, or null at the front and for an unlinked entry. */
    function Prev(e: LruEntry): LruEntry?
      reads this
    {
      if e in ll && S.IndexOf(ll, e) > 0 then ll[S.IndexOf(ll, e) - 1] else null
    }

    function Back(): LruEntry?
      reads this
    {
      if ll == [] then null else ll[|ll| - 1]
    }

    method RemoveElement(e: LruEntry)
      requires S.Distinct(ll)
      modifies this`ll, this`cache
      ensures ll == S.Without(old(ll), e) && cache == old(cache) - {e.key} && S.Distinct(ll)
      ensures Elems() <= old(Elems())
      ensures maxEntries >= 1 && e in old(ll) ==> Model() == S.Remove(old(Model()), e)
    {
      S.WithoutElems(ll, e);
      ll := S.Without(ll, e);
      cache := cache - {e.key};
      if maxEntries >= 1 && e in old(ll) { ModelIs(S.Remove(old(Model()), e)); }
    }

    // ---------- Eviction ----------

    /** Where the hand goes from `e`. */
    function Next(e: LruEntry): (next: LruEntry?)
      reads this
      requires ll != []
      ensures next != null && next in ll && Some(next) == S.Advance(ll, e)
    {
      if Prev(e) != null then Prev(e) else Back()
    }

    /** Spare the entry under the hand. */
    method SpareHand()
      requires hand != null && ll != [] && S.WellFormed(Model())
      modifies this`hand, hand`visited
      ensures Elems() <= old(Elems()) && hand != null
      ensures Model() == S.Spare(old(Model()))
    {
      ghost var was := Model();
      var entry := hand;
      var next := Next(entry);
      entry.visited := false;
      hand := next;
      ModelIs(S.Spare(was));
    }

    /** Evict the entry under the hand. */
    method DropHand()
      requires hand != null && ll != [] && S.WellFormed(Model())
      modifies this
      ensures Elems() <= old(Elems()) && hand != null
      ensures Model() == S.Drop(old(Model()))
    {
      ghost var was := Model();
      var toRemove := hand;
      hand := Next(toRemove);
      S.WithoutElems(ll, toRemove);
      RemoveElement(toRemove);
      ModelIs(S.Drop(was));
    }

    /** Runs the hand until one entry too many is gone. */
    method EvictOne() returns (ghost steps: nat)
      requires S.WellFormed(Model())
      modifies this, Elems()
      ensures Elems() <= old(Elems())
      ensures Model() == S.EvictOne(old(Model()))
      ensures steps == if old(ll) == [] then 0 else S.LoopSteps(S.PlaceHand(old(Model())))
    {
      steps := 0;
      if ll == [] { return; }
      if hand == null { hand := Back(); }
      ghost var start := Model();
      ModelIs(S.PlaceHand(old(Model())));
      while true
        invariant ll != [] && hand != null && S.WellFormed(Model()) && Elems() <= old(Elems())
        invariant S.Loop(start) == S.Loop(Model())
        invariant steps + S.LoopSteps(Model()) == S.LoopSteps(start)
        decreases |ll|, if S.HandLinked(Model()) then 0 else 1, S.VisitedSet(Model())
      {
        S.LoopTurn(Model());
        steps := steps + 1;
        if hand.visited {
          SpareHand();
          continue;
        }
        DropHand();
        if |ll| <= maxEntries { return; }
      }
    }

    // ---------- Operations ----------

    /** A miss when the key is unknown or past its hard expiry, and then the entry is dropped. */
    method Get(key: Key, now: Time) returns (r: Option<S.Hit>)
      requires Valid()
      modifies this, Elems()
      ensures Valid() && Elems() <= old(Elems())
      ensures r == S.Lookup(old(Model()), key, now)
      ensures Model() == S.Get(old(Model()), key, now)
    {
      R.StepKeepsWeak(Model(), R.OpGet(key, now));
      if key !in cache { return None; }
      var entry := cache[key];
      if now > entry.expiry {
        RemoveElement(entry);
        return None;
      }
      ghost var was := Model();
      entry.visited := true;
      ModelIs(S.Touch(was, key, now));
      var remaining := entry.softExpiry - now;
      if remaining < 0 { remaining := 0; }
      r := Some(S.Hit(entry.msg, remaining, entry.storedTTL, entry.authTTL));
    }

    /** Write over the entry that `key` is mapped to. */
    method Overwrite(key: Key, msg: Msg, expiry: Time, softExpiry: Time, storedTTL: Duration, authTTL: Duration)
      requires Valid() && key in cache
      modifies cache[key]
      ensures Valid() && Elems() == old(Elems())
      ensures Model() == old(Model()).(ent := old(Model()).ent[cache[key] :=
                           S.Entry(key, msg, expiry, softExpiry, storedTTL, authTTL, true)])
    {
      ghost var was := Model();
      R.UpdateKeeps(was, key, S.Entry(key, msg, expiry, softExpiry, storedTTL, authTTL, true));
      var entry := cache[key];
      entry.msg, entry.expiry, entry.softExpiry := msg, expiry, softExpiry;
      entry.storedTTL, entry.authTTL, entry.visited := storedTTL, authTTL, true;
      ModelIs(was.(ent := was.ent[entry := S.Entry(key, msg, expiry, softExpiry, storedTTL, authTTL, true)]));
    }

    /** List a new entry at the front and map its key to it. */
    method PushFront(entry: LruEntry)
      requires Valid() && entry !in Elems()
      modifies this`ll, this`cache
      ensures Elems() == old(Elems()) + {entry}
      ensures Model() == S.PushFront(old(Model()), entry, entry.Data())
    {
      ghost var was := Model();
      ll := [entry] + ll;
      cache := cache[entry.key := entry];
      ModelIs(S.PushFront(was, entry, entry.Data()));
    }

    /** Evict until the list is within capacity; one round is enough. */
    method Trim()
      requires S.WellFormed(Model())
      modifies this, Elems()
      ensures Elems() <= old(Elems())
      ensures Model() == if |old(ll)| > maxEntries then S.EvictOne(old(Model())) else old(Model())
    {
      while |ll| > maxEntries
        invariant S.WellFormed(Model()) && Elems() <= old(Elems())
        invariant |ll| > maxEntries ==> Model() == old(Model())
        invariant |ll| <= maxEntries ==>
                    Model() == if |old(ll)| > maxEntries then S.EvictOne(old(Model())) else old(Model())
      {
        ghost var steps := EvictOne();
      }
    }

    /** List a new entry for a key that is not mapped, and evict down to capacity. */
    method Insert(key: Key, msg: Msg, expiry: Time, softExpiry: Time, storedTTL: Duration, authTTL: Duration)
      returns (entry: LruEntry)
      requires Valid() && key !in cache
      modifies this, Elems()
      ensures Valid() && fresh(entry) && Elems() <= old(Elems()) + {entry}
      ensures Model() == S.Insert(old(Model()), entry, S.Entry(key, msg, expiry, softExpiry, storedTTL, authTTL, true))
    {
      ghost var was := Model();
      entry := new LruEntry(key, msg, expiry, softExpiry, storedTTL, authTTL);
      ghost var d := entry.Data();
      ModelIs(was);
      R.InsertKeeps(was, entry, d);
      PushFront(entry);
      assert Model() == S.PushFront(was, entry, d);
      Trim();
    }

    /** Store a message with a positive TTL; `e` is the entry that was written. */
    method Write(key: Key, msg: Msg, ttl: Duration, storedTTL: Duration, authTTL: Duration, now: Time)
      returns (ghost e: LruEntry)
      requires Valid() && ttl > 0
      modifies this, Elems()
      ensures Valid() && (key in old(cache) || fresh(e)) && Elems() <= old(Elems()) + {e}
      ensures Model() == S.Put(old(Model()), e, key, Some(msg), ttl, storedTTL, authTTL, now)
    {
      var softExpiry := now + ttl;
      var gracePeriod := ttl;
      if gracePeriod > maxGracePeriod { gracePeriod := maxGracePeriod; }
      var expiry := softExpiry + gracePeriod;
      var stored := storedTTL;
      if stored <= 0 { stored := ttl; }
      ghost var d := S.MakeEntry(key, msg, ttl, storedTTL, authTTL, now, maxGracePeriod);
      if key in cache {
        e := cache[key];
        S.PutCases(Model(), e, key, Some(msg), ttl, storedTTL, authTTL, now, d);
        Overwrite(key, msg, expiry, softExpiry, stored, authTTL);
      } else {
        e := Insert(key, msg, expiry, softExpiry, stored, authTTL);
        S.PutCases(old(Model()), e, key, Some(msg), ttl, storedTTL, authTTL, now, d);
      }
    }

    /** Store with stored and authoritative TTL; `e` is the entry that was written, or null. */
    method SetWithStoredTTL(key: Key, msg: Option<Msg>, ttl: Duration, storedTTL: Duration, authTTL: Duration,
                            now: Time)
      returns (ghost e: LruEntry?)
      requires Valid()
      modifies this, Elems()
      ensures Valid()
      ensures e == null <==> msg.None? || ttl <= 0
      ensures e == null ==> Model() == old(Model())
      ensures e != null ==> (key in old(cache) || fresh(e)) && Elems() <= old(Elems()) + {e}
      ensures e != null ==> Model() == S.Put(old(Model()), e, key, msg, ttl, storedTTL, authTTL, now)
    {
      e := null;
      if msg.None? || ttl <= 0 { return; }
      e := Write(key, msg.value, ttl, storedTTL, authTTL, now);
    }

    method Set(key: Key, msg: Option<Msg>, ttl: Duration, now: Time) returns (ghost e: LruEntry?)
      requires Valid()
      modifies this, Elems()
      ensures Valid()
      ensures e == null <==> msg.None? || ttl <= 0
      ensures e == null ==> Model() == old(Model())
      ensures e != null ==> (key in old(cache) || fresh(e)) && Elems() <= old(Elems()) + {e}
      ensures e != null ==> Model() == S.Put(old(Model()), e, key, msg, ttl, ttl, 0, now)
    {
      e := SetWithStoredTTL(key, msg, ttl, ttl, 0, now);
    }

    method Delete(key: Key)
      requires Valid()
      modifies this
      ensures Valid() && Elems() <= old(Elems())
      ensures Model() == S.Delete(old(Model()), key)
    {
      R.StepKeepsWeak(Model(), R.OpDelete(key));
      if key in cache {
        RemoveElement(cache[key]);
      }
    }

    method Clear()
      requires Valid()
      modifies this
      ensures Valid() && Elems() == {}
      ensures Model() == S.Clear(old(Model()))
    {
      ll, cache, hand := [], map[], null;
    }

    /** The neighbour toward the tail, or null at the tail. */
    function NextOf(e: LruEntry): LruEntry?
      reads this
      requires e in ll
    {
      var i := S.IndexOf(ll, e);
      if i + 1 < |ll| then ll[i + 1] else null
    }

    lemma ModelIsClean(was: S.State<LruEntry>, now: Time)
      requires S.WellFormed(was) && was.cap == maxEntries && was.grace == maxGracePeriod && was.hand == HandOption()
      requires ll == S.Clean(was, now).ll && cache == S.Clean(was, now).cache
      requires forall x <- Elems() :: x in was.ent && was.ent[x] == x.Data()
      ensures Model() == S.Clean(was, now)
    {
      assert S.Clean(was, now).ent.Keys == Elems();
      ModelIs(S.Clean(was, now));
    }

    /** Walks the list from the front and drops every entry past its hard expiry. */
    method Sweep(now: Time) returns (removed: nat)
      requires Valid()
      modifies this`ll, this`cache
      ensures ll == S.Clean(old(Model()), now).ll && cache == S.Clean(old(Model()), now).cache
      ensures removed == |old(ll)| - |ll|
    {
      ghost var was := Model();
      S.SweepStarts(was, now);
      removed := 0;
      ghost var kept: seq<LruEntry> := [];
      ghost var todo: seq<LruEntry> := ll;
      var e := if ll == [] then null else ll[0];
      while e != null
        invariant e == if todo == [] then null else todo[0]
        invariant ll == kept + todo && S.Distinct(ll)
        invariant S.Sweeping(was, now, kept, todo, cache)
        invariant removed == |was.ll| - |ll|
        decreases |todo|
      {
        S.SweepHead(kept, todo);
        assert was.ent[todo[0]] == e.Data();
        var next := NextOf(e);
        if now > e.expiry {
          S.SweepRemoves(was, now, kept, todo, cache);
          RemoveElement(e);
          removed := removed + 1;
        } else {
          S.SweepKeeps(was, now, kept, todo, cache);
          kept := kept + [todo[0]];
        }
        e, todo := next, todo[1..];
      }
      assert ll == kept;
      S.SweepEnds(was, now, ll, cache);
    }

    /** Drops every entry past its hard expiry; the hand stays where it is. */
    method CleanExpired(now: Time) returns (removed: nat)
      requires Valid()
      modifies this`ll, this`cache
      ensures Valid() && Elems() <= old(Elems())
      ensures Model() == S.Clean(old(Model()), now)
      ensures removed == |old(ll)| - |ll|
    {
      R.CleanKeeps(Model(), now);
      removed := Sweep(now);
      ModelIsClean(old(Model()), now);
    }

    function Len(): nat
      reads this
    {
      |ll|
    }
  }
}
