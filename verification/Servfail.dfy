/** Backoff timers and SERVFAIL counts, kept in bounded maps. */
module Servfail {
  import opened Types

  const SERVFAIL_MAX_ENTRIES: nat := 10000

  datatype Tracker = Tracker(until: map<Key, Time>, count: map<Key, nat>)

  ghost function Count(s: Tracker, k: Key): nat {
    if k in s.count then s.count[k] else 0
  }

  /** Refreshes of `k` stop; a threshold that is not positive stops none. */
  ghost predicate AtThreshold(s: Tracker, threshold: int, k: Key) {
    threshold > 0 && Count(s, k) >= threshold
  }

  /** The backoff of `k` has not run out. */
  ghost predicate Waits(s: Tracker, k: Key, now: Time) {
    k in s.until && s.until[k] > now
  }

  ghost function Unexpired(until: map<Key, Time>, now: Time): map<Key, Time> {
    map k | k in until && until[k] >= now :: until[k]
  }

  ghost predicate WithinCaps(s: Tracker, now: Time) {
    |Unexpired(s.until, now)| <= SERVFAIL_MAX_ENTRIES && |s.count| <= SERVFAIL_MAX_ENTRIES
  }

  /** `t` may be what pruning makes of `s`: expired timers go; over the cap, any `victims` go from
      both maps; then, if there are still too many counts, those without a timer go. */
  ghost predicate PrunedBy(s: Tracker, now: Time, victims: set<Key>, t: Tracker) {
    var live := Unexpired(s.until, now);
    var left := s.count - victims;
    && victims <= live.Keys
    && |victims| == (if |live| > SERVFAIL_MAX_ENTRIES then |live| - SERVFAIL_MAX_ENTRIES else 0)
    && t.until == live - victims
    && t.count == if |left| > SERVFAIL_MAX_ENTRIES then (map k | k in left && k in t.until :: left[k]) else left
  }

  ghost predicate Pruned(s: Tracker, now: Time, t: Tracker) {
    exists victims :: PrunedBy(s, now, victims, t)
  }

  lemma SubsetSize<T>(a: set<T>, b: set<T>)
    requires a <= b
    ensures |a| <= |b|
  {
    if a != {} {
      var x :| x in a;
      SubsetSize(a - {x}, b - {x});
    }
  }

  /** Whatever order the maps are visited in, after pruning both hold at most the cap, and no timer
      that is left has run out. */
  lemma PrunedIsBounded(s: Tracker, now: Time, t: Tracker)
    requires Pruned(s, now, t)
    ensures |t.until| <= SERVFAIL_MAX_ENTRIES && |t.count| <= SERVFAIL_MAX_ENTRIES
    ensures forall k <- t.until :: k in s.until && t.until[k] == s.until[k] >= now
    ensures forall k <- t.count :: k in s.count && t.count[k] == s.count[k]
  {
    var victims :| PrunedBy(s, now, victims, t);
    var live := Unexpired(s.until, now);
    assert (live - victims).Keys == live.Keys - victims;
    assert |live.Keys - victims| == |live.Keys| - |victims|;
    var left := s.count - victims;
    if |left| > SERVFAIL_MAX_ENTRIES {
      SubsetSize(t.count.Keys, t.until.Keys);
    }
  }

  lemma NothingDropped<V>(m: map<Key, V>)
    ensures m - {} == m
  {
  }

  /** Below both caps, pruning drops exactly the timers that have run out, and no count. */
  lemma PrunedBelowCap(s: Tracker, now: Time, t: Tracker)
    requires Pruned(s, now, t) && WithinCaps(s, now)
    ensures t == Tracker(Unexpired(s.until, now), s.count)
    ensures forall k :: k in t.until <==> k in s.until && s.until[k] >= now
  {
    var victims :| PrunedBy(s, now, victims, t);
    assert victims == {};
    NothingDropped(s.count);
    NothingDropped(Unexpired(s.until, now));
  }

  // ---------- Which timers go ----------

  /** No timer that was dropped before it ran out would have lasted longer than one that was kept. */
  ghost predicate DropsOldest(s: Tracker, now: Time, t: Tracker) {
    forall k, x :: k in s.until && s.until[k] >= now && k !in t.until && x in t.until && x in s.until ==>
      s.until[k] <= s.until[x]
  }

  ghost predicate SameDeadlines(live: map<Key, Time>) {
    forall k, x :: k in live && x in live ==> live[k] == live[x]
  }

  /** A set of any size between the two. */
  lemma SetBetween<T>(a: set<T>, b: set<T>, n: nat) returns (r: set<T>)
    requires a <= b && |a| <= n <= |b|
    ensures a <= r <= b && |r| == n
    decreases n - |a|
  {
    if |a| == n {
      r := a;
    } else {
      assert |b - a| == |b| - |a|;
      var x :| x in b - a;
      r := SetBetween(a + {x}, b, n);
    }
  }

  /** Map order decides: pruning can drop any set of timers of the right size. */
  lemma AnyVictims(s: Tracker, now: Time, victims: set<Key>) returns (t: Tracker)
    requires victims <= Unexpired(s.until, now).Keys && |Unexpired(s.until, now)| > SERVFAIL_MAX_ENTRIES
    requires |victims| == |Unexpired(s.until, now)| - SERVFAIL_MAX_ENTRIES
    ensures Pruned(s, now, t) && t.until == Unexpired(s.until, now) - victims
  {
    t := PrunedOf(s, now, victims);
  }

  /** Pruning is sure to drop the oldest timers if and only if it drops none that has not run out, or all of those have
      the same deadline. */
  lemma DropsOldestIff(s: Tracker, now: Time)
    ensures (forall t :: Pruned(s, now, t) ==> DropsOldest(s, now, t)) <==>
              |Unexpired(s.until, now)| <= SERVFAIL_MAX_ENTRIES || SameDeadlines(Unexpired(s.until, now))
  {
    var live := Unexpired(s.until, now);
    if |live| <= SERVFAIL_MAX_ENTRIES || SameDeadlines(live) {
      forall t | Pruned(s, now, t) ensures DropsOldest(s, now, t) {
        OnlyOldest(s, now, t);
      }
    } else {
      var k, x :| k in live && x in live && live[k] > live[x];
      var victims := SetBetween({k}, live.Keys - {x}, |live| - SERVFAIL_MAX_ENTRIES);
      var t := AnyVictims(s, now, victims);
      assert k !in t.until && x in t.until;
    }
  }

  lemma OnlyOldest(s: Tracker, now: Time, t: Tracker)
    requires Pruned(s, now, t)
    requires |Unexpired(s.until, now)| <= SERVFAIL_MAX_ENTRIES || SameDeadlines(Unexpired(s.until, now))
    ensures DropsOldest(s, now, t)
  {
    var live := Unexpired(s.until, now);
    var victims :| PrunedBy(s, now, victims, t);
    forall k, x | k in s.until && s.until[k] >= now && k !in t.until && x in t.until && x in s.until
      ensures s.until[k] <= s.until[x]
    {
      assert k in live && x in live && k in victims;
    }
  }

  // ---------- Which counts stay ----------

  function Excess(n: int, cap: int): int {
    if n > cap then n - cap else 0
  }

  /** Pruning is sure to keep the count of `k`: with a timer that has not run out, if no such timer is in excess;
      else if there are few enough counts once the excess timers have gone, together with as few counts as can be.
      */
  ghost predicate KeepsCount(s: Tracker, now: Time, k: Key) {
    var live := Unexpired(s.until, now);
    var dropped := Excess(|live|, SERVFAIL_MAX_ENTRIES);
    if k in live then dropped == 0
    else |s.count| - Excess(dropped, |live.Keys - s.count.Keys|) <= SERVFAIL_MAX_ENTRIES
  }

  lemma DropSize<V>(m: map<Key, V>, dropped: set<Key>)
    ensures |m - dropped| == |m| - |m.Keys * dropped|
  {
    assert (m - dropped).Keys == m.Keys - dropped;
    assert m.Keys == (m.Keys - dropped) + m.Keys * dropped;
  }

  /** At least so many of a set of victims have a count. */
  lemma OverlapAtLeast(victims: set<Key>, live: set<Key>, counted: set<Key>)
    requires victims <= live
    ensures |counted * victims| >= Excess(|victims|, |live - counted|)
  {
    assert victims == (victims - counted) + counted * victims;
    SubsetSize(victims - counted, live - counted);
  }

  /** And there are victims of which no more have one. */
  lemma FewestCounted(live: set<Key>, counted: set<Key>, n: nat) returns (victims: set<Key>)
    requires n <= |live|
    ensures victims <= live && |victims| == n && |counted * victims| == Excess(n, |live - counted|)
  {
    var free := live - counted;
    if n <= |free| {
      victims := SetBetween({}, free, n);
      assert counted * victims == {};
    } else {
      SubsetSize(free, live);
      victims := SetBetween(free, live, n);
      assert victims == free + counted * victims;
    }
  }

  lemma LostWhenNotSure(s: Tracker, now: Time, k: Key) returns (t: Tracker)
    requires k in s.count && !KeepsCount(s, now, k)
    ensures Pruned(s, now, t) && k !in t.count
  {
    var live := Unexpired(s.until, now);
    var n := Excess(|live|, SERVFAIL_MAX_ENTRIES);
    var victims;
    if k in live {
      victims := SetBetween({k}, live.Keys, n);
    } else {
      victims := FewestCounted(live.Keys, s.count.Keys, n);
    }
    DropSize(s.count, victims);
    t := PrunedOf(s, now, victims);
  }

  /** What pruning makes of `s` when these are the victims. */
  lemma PrunedOf(s: Tracker, now: Time, victims: set<Key>) returns (t: Tracker)
    requires victims <= Unexpired(s.until, now).Keys
    requires |victims| == Excess(|Unexpired(s.until, now)|, SERVFAIL_MAX_ENTRIES)
    ensures PrunedBy(s, now, victims, t)
  {
    var left := s.count - victims;
    var until := Unexpired(s.until, now) - victims;
    t := Tracker(until, if |left| > SERVFAIL_MAX_ENTRIES then (map k | k in left && k in until :: left[k]) else left);
  }

  /** Pruning is sure to keep the count of a key if and only if that holds before it. */
  lemma KeepsCountIff(s: Tracker, now: Time, k: Key)
    requires k in s.count
    ensures (forall t :: Pruned(s, now, t) ==> k in t.count) <==> KeepsCount(s, now, k)
  {
    if KeepsCount(s, now, k) {
      forall t | Pruned(s, now, t) ensures k in t.count {
        var victims :| PrunedBy(s, now, victims, t);
        DropSize(s.count, victims);
        OverlapAtLeast(victims, Unexpired(s.until, now).Keys, s.count.Keys);
      }
    } else {
      var t := LostWhenNotSure(s, now, k);
    }
  }

  lemma KeptBelowCap(s: Tracker, now: Time, k: Key)
    requires WithinCaps(s, now) && k in s.count
    ensures KeepsCount(s, now, k)
  {
  }

  /** Below the caps, a backoff recorded at `now` lasts for exactly the backoff time. */
  lemma BackoffLasts(s: Tracker, k: Key, backoff: Duration, now: Time, t: Tracker, later: Time)
    requires backoff > 0 && now <= later
    requires Pruned(s.(until := s.until[k := now + backoff]), now, t)
    requires WithinCaps(s.(until := s.until[k := now + backoff]), now)
    ensures (k in t.until && t.until[k] > later) <==> later < now + backoff
    ensures t.count == s.count
  {
    PrunedBelowCap(s.(until := s.until[k := now + backoff]), now, t);
  }

  lemma MinusOneMore<V>(m: map<Key, V>, dropped: set<Key>, k: Key)
    ensures m - dropped - {k} == m - (dropped + {k})
  {
  }

  class ServfailTracker {
    const backoff: Duration
    const refreshThreshold: int
    var until: map<Key, Time>
    var count: map<Key, nat>

    constructor (backoff: Duration, refreshThreshold: int)
      ensures Model() == Tracker(map[], map[])
      ensures this.backoff == backoff && this.refreshThreshold == refreshThreshold
    {
      this.backoff, this.refreshThreshold := backoff, refreshThreshold;
      until, count := map[], map[];
    }

    ghost function Model(): Tracker
      reads this
    {
      Tracker(until, count)
    }

    method RecordBackoff(key: Key, now: Time)
      modifies this
      ensures Pruned(old(Model()).(until := old(until)[key := now + backoff]), now, Model())
      ensures |until| <= SERVFAIL_MAX_ENTRIES && |count| <= SERVFAIL_MAX_ENTRIES
    {
      until := until[key := now + backoff];
      PruneExpired(now);
    }

    function BackoffUntil(key: Key): Option<Time>
      reads this
    {
      if key in until then Some(until[key]) else None
    }

    predicate InBackoff(key: Key, now: Time): (r: bool)
      reads this
      ensures r <==> key in until && now < until[key]
      ensures r <==> Waits(Model(), key, now)
    {
      BackoffUntil(key).Some? && BackoffUntil(key).value > now
    }

    method IncrementCount(key: Key) returns (n: nat)
      modifies this`count
      ensures n == Count(old(Model()), key) + 1
      ensures forall k :: GetCount(k) == old(GetCount(k)) + if k == key then 1 else 0
      ensures ExceedsThreshold(key) <==> 0 < refreshThreshold <= old(GetCount(key)) + 1
      ensures count == old(count)[key := n]
    {
      count := count[key := if key in count then count[key] + 1 else 1];
      n := count[key];
    }

    function GetCount(key: Key): (n: nat)
      reads this
      ensures n == Count(Model(), key)
    {
      if key in count then count[key] else 0
    }

    method ClearCount(key: Key)
      modifies this`count
      ensures count == old(count) - {key}
      ensures forall k :: GetCount(k) == if k == key then 0 else old(GetCount(k))
      ensures !ExceedsThreshold(key)
    {
      count := count - {key};
    }

    predicate ExceedsThreshold(key: Key): (r: bool)
      reads this
      ensures r <==> AtThreshold(Model(), refreshThreshold, key)
    {
      refreshThreshold > 0 && GetCount(key) >= refreshThreshold
    }

    method DropExpired(now: Time)
      modifies this`until
      ensures until == Unexpired(old(until), now)
    {
      var todo := until.Keys;
      while todo != {}
        invariant todo <= until.Keys
        invariant forall k <- until :: k in old(until) && until[k] == old(until)[k] && (k in todo || until[k] >= now)
        invariant forall k <- old(until) :: k in until || old(until)[k] < now
      {
        var k :| k in todo;
        todo := todo - {k};
        if until[k] < now {
          until := until - {k};
        }
      }
    }

    /** Over the cap, drop timers in any order, and the counts that go with them. */
    method DropExcess() returns (ghost victims: set<Key>)
      modifies this
      ensures victims <= old(until).Keys
      ensures |victims| == if |old(until)| > SERVFAIL_MAX_ENTRIES then |old(until)| - SERVFAIL_MAX_ENTRIES else 0
      ensures until == old(until) - victims && count == old(count) - victims
    {
      victims := {};
      NothingDropped(until);
      NothingDropped(count);
      if |until| <= SERVFAIL_MAX_ENTRIES { return; }
      var excess := |until| - SERVFAIL_MAX_ENTRIES;
      var removed := 0;
      var todo := until.Keys;
      while todo != {} && removed < excess
        invariant removed == |victims| <= excess && |todo| + removed == |old(until)|
        invariant victims <= old(until).Keys && todo == old(until).Keys - victims
        invariant until == old(until) - victims && count == old(count) - victims
      {
        var k :| k in todo;
        MinusOneMore(old(until), victims, k);
        MinusOneMore(old(count), victims, k);
        todo := todo - {k};
        victims := victims + {k};
        until := until - {k};
        count := count - {k};
        removed := removed + 1;
      }
    }

    method DropOrphanCounts()
      modifies this`count
      ensures count == if |old(count)| > SERVFAIL_MAX_ENTRIES
                       then (map k | k in old(count) && k in until :: old(count)[k])
                       else old(count)
    {
      if |count| > SERVFAIL_MAX_ENTRIES {
        var todo := count.Keys;
        while todo != {}
          invariant todo <= count.Keys
          invariant forall k <- count :: k in old(count) && count[k] == old(count)[k] && (k in todo || k in until)
          invariant forall k <- old(count) :: k in count || k !in until
        {
          var k :| k in todo;
          todo := todo - {k};
          if k !in until {
            count := count - {k};
          }
        }
      }
    }

    method PruneExpired(now: Time)
      modifies this
      ensures Pruned(old(Model()), now, Model())
      ensures |until| <= SERVFAIL_MAX_ENTRIES && |count| <= SERVFAIL_MAX_ENTRIES
    {
      DropExpired(now);
      var victims := DropExcess();
      DropOrphanCounts();
      assert PrunedBy(old(Model()), now, victims, Model());
      PrunedIsBounded(old(Model()), now, Model());
    }
  }
}
