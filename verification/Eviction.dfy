/** Which keys go when the store holds more than its cap. */
module Eviction {
  import opened Types
  import opened Redis

  const EVICTION_CANDIDATE_BATCH: nat := 5000
  /** The zero time, in seconds since the epoch: what an unknown creation time sorts as. */
  const ZERO_TIME: int := -62135596800

  // ---------- Eviction order ----------

  datatype Candidate = Candidate(key: Key, createdAt: int, hitCount: int)

  /** Fewer hits first, then older first. */
  predicate Before(a: Candidate, b: Candidate) {
    a.hitCount < b.hitCount || (a.hitCount == b.hitCount && a.createdAt < b.createdAt)
  }

  /** The same candidates, in eviction order; equal ones may come either way. */
  ghost predicate SortedFrom(sorted: seq<Candidate>, cands: seq<Candidate>) {
    && |sorted| == |cands|
    && (forall c :: c in sorted <==> c in cands)
    && NoRepeats(sorted)
    && forall i, j :: 0 <= i < j < |sorted| ==> !Before(sorted[j], sorted[i])
  }

  /** Creation time and hits of a key, as far as they are known. */
  function CandidateOf(db: Db, k: Key, now: Time): Candidate {
    Candidate(k,
              if k in db.hash && now < db.hash[k].deadline then db.hash[k].createdAt else ZERO_TIME,
              if k in db.hits then db.hits[k] else 0)
  }

  /** `a` is evicted sooner than `b`. */
  ghost predicate Sooner(db: Db, now: Time, a: Key, b: Key) {
    Before(CandidateOf(db, a, now), CandidateOf(db, b, now))
  }

  /** The live keys that the cap counts. */
  ghost function LiveDns(db: Db, now: Time): set<Key> {
    set k | k in db.hash && Live(db, k, now) && "dns:" <= k
  }

  ghost function SetOf<T>(s: seq<T>): set<T> {
    set x | x in s
  }

  lemma {:induction false} SetOfSize<T>(s: seq<T>)
    requires NoRepeats(s)
    ensures |SetOf(s)| == |s|
  {
    if s != [] {
      SetOfSize(s[1..]);
      assert s == [s[0]] + s[1..];
      assert s[0] !in s[1..];
      assert SetOf(s) == {s[0]} + SetOf(s[1..]);
    }
  }

  /** The cap is on, and exceeded. */
  ghost predicate OverCap(db: Db, maxKeys: int, now: Time) {
    maxKeys > 0 && |LiveDns(db, now)| > maxKeys
  }

  /** The victims are as many of the sample as the cap asks for, and come before the rest of it. */
  ghost predicate Evicts(db: Db, maxKeys: int, now: Time, sample: seq<Key>, victims: seq<Key>) {
    && IsRange(db.index, None, EVICTION_CANDIDATE_BATCH, sample)
    && NoRepeats(victims) && (forall v <- victims :: v in sample)
    && |victims| == Min(|LiveDns(db, now)| - maxKeys, |sample|)
    && forall v <- victims, k <- sample :: k !in victims ==> !Sooner(db, now, k, v)
  }

  /** `v` has no more hits than `k`, and if it has as many it is no younger, as far as both are alive; a key without a
      hit count has no hits. */
  ghost predicate NoBetter(db: Db, now: Time, v: Key, k: Key) {
    var a := if v in db.hits then db.hits[v] else 0;
    var b := if k in db.hits then db.hits[k] else 0;
    && a <= b
    && (a == b && Live(db, v, now) && Live(db, k, now) ==> db.hash[v].createdAt <= db.hash[k].createdAt)
  }

  ghost predicate WorstGo(db: Db, now: Time, sample: seq<Key>, victims: seq<Key>) {
    forall v <- victims, k <- sample :: k !in victims ==> NoBetter(db, now, v, k)
  }

  /** The victims are the keys of the sample with the fewest hits, and among those with as many the oldest. */
  lemma VictimsAreWorst(db: Db, sample: seq<Key>, now: Time, victims: seq<Key>)
    requires forall v <- victims, k <- sample :: k !in victims ==> !Sooner(db, now, k, v)
    ensures WorstGo(db, now, sample, victims)
  {
    forall v <- victims, k <- sample | k !in victims ensures NoBetter(db, now, v, k) {
      assert !Sooner(db, now, k, v);
    }
  }

  /** Only keys that begin with `dns:` count toward the cap, and each that is alive counts once. */
  lemma CountedOnce(db: Db, k: Key, now: Time)
    ensures |LiveDns(db, now)| - |LiveDns(DeleteKey(db, k), now)|
         == if k in db.hash && now < db.hash[k].deadline && |k| >= 4 && k[..4] == "dns:" then 1 else 0
  {
    var all, left := LiveDns(db, now), LiveDns(DeleteKey(db, k), now);
    assert left == all - {k};
    assert "dns:" <= k <==> |k| >= 4 && k[..4] == "dns:";
  }

  /** What stays live is what was live and is no victim. */
  lemma EvictedLive(db: Db, victims: seq<Key>, now: Time)
    ensures LiveDns(DeleteKeys(db, victims), now) == LiveDns(db, now) - SetOf(victims)
  {
    DeleteKeysIs(db, victims);
  }

  lemma OverlapSize<T>(s: set<T>, t: set<T>)
    ensures |s - t| == |s| - |s * t| && |s * t| <= |t|
    ensures |s * t| == |t| <==> t <= s
  {
    assert t == s * t + (t - s);
    assert t <= s <==> t - s == {};
  }

  /** Deleting the victims lowers the live count by the number of them that were live, and never below the cap. */
  lemma EvictionCount(db: Db, maxKeys: int, now: Time, sample: seq<Key>, victims: seq<Key>)
    requires OverCap(db, maxKeys, now) && Evicts(db, maxKeys, now, sample, victims)
    ensures |LiveDns(DeleteKeys(db, victims), now)| == |LiveDns(db, now)| - |LiveDns(db, now) * SetOf(victims)|
    ensures |LiveDns(DeleteKeys(db, victims), now)| >= maxKeys
  {
    EvictedLive(db, victims, now);
    SetOfSize(victims);
    OverlapSize(LiveDns(db, now), SetOf(victims));
  }

  /** The count lands exactly on the cap if and only if every victim was live and the sample was large enough:
      a dead index entry among the victims is an eviction that frees nothing. */
  lemma EvictionLandsIff(db: Db, maxKeys: int, now: Time, sample: seq<Key>, victims: seq<Key>)
    requires OverCap(db, maxKeys, now) && Evicts(db, maxKeys, now, sample, victims)
    ensures |LiveDns(DeleteKeys(db, victims), now)| == maxKeys <==>
              |LiveDns(db, now)| - maxKeys <= |sample| && forall v <- victims :: v in LiveDns(db, now)
  {
    EvictionCount(db, maxKeys, now, sample, victims);
    SetOfSize(victims);
    OverlapSize(LiveDns(db, now), SetOf(victims));
    assert SetOf(victims) <= LiveDns(db, now) <==> forall v <- victims :: v in LiveDns(db, now);
  }

  // ---------- What can be known before the eviction ----------

  ghost function Ahead(db: Db, now: Time, sample: seq<Key>, x: Key): set<Key> {
    set k | k in sample && Sooner(db, now, k, x)
  }

  /** The sample is large enough, and before each dead key of it there are as many others as are to go. */
  ghost predicate SureToLand(db: Db, maxKeys: int, now: Time, sample: seq<Key>) {
    var over := |LiveDns(db, now)| - maxKeys;
    over <= |sample| && forall x <- sample :: x !in LiveDns(db, now) ==> |Ahead(db, now, sample, x)| >= over
  }

  /** No key outside `some` is sooner than one inside. */
  ghost predicate FirstOf(db: Db, now: Time, all: set<Key>, some: set<Key>) {
    some <= all && forall v <- some, k <- all :: k !in some ==> !Sooner(db, now, k, v)
  }

  lemma {:induction false} Soonest(db: Db, now: Time, keys: set<Key>) returns (y: Key)
    requires keys != {}
    ensures y in keys && forall k <- keys :: !Sooner(db, now, k, y)
  {
    var z :| z in keys;
    y := z;
    if keys != {z} {
      var x := Soonest(db, now, keys - {z});
      if Sooner(db, now, x, z) {
        y := x;
      }
      forall k <- keys ensures !Sooner(db, now, k, y) {
        assert k == z || k in keys - {z};
      }
    }
  }

  lemma {:induction false} FirstSome(db: Db, now: Time, all: set<Key>, some: set<Key>, n: nat) returns (r: set<Key>)
    requires FirstOf(db, now, all, some) && |some| <= n <= |all|
    ensures FirstOf(db, now, all, r) && some <= r && |r| == n
    decreases n - |some|
  {
    r := some;
    if |some| < n {
      assert all - some != {} by {
        assert all == some + (all - some);
      }
      var y := Soonest(db, now, all - some);
      r := FirstSome(db, now, all, some + {y}, n);
    }
  }

  lemma {:induction false} InSomeOrder(keys: set<Key>) returns (r: seq<Key>)
    ensures NoRepeats(r) && SetOf(r) == keys && |r| == |keys|
  {
    r := [];
    if keys != {} {
      var k :| k in keys;
      var rest := InSomeOrder(keys - {k});
      assert k !in rest by { assert k !in SetOf(rest); }
      r := [k] + rest;
      assert SetOf(r) == {k} + SetOf(rest);
    }
  }

  /** Victims that contain all of `some`, as long as they come first and are not too many. */
  lemma VictimsWith(db: Db, maxKeys: int, now: Time, sample: seq<Key>, some: set<Key>) returns (victims: seq<Key>)
    requires OverCap(db, maxKeys, now) && IsRange(db.index, None, EVICTION_CANDIDATE_BATCH, sample)
    requires FirstOf(db, now, SetOf(sample), some) && |some| <= Min(|LiveDns(db, now)| - maxKeys, |sample|)
    ensures Evicts(db, maxKeys, now, sample, victims) && forall k <- some :: k in victims
  {
    SetOfSize(sample);
    var chosen := FirstSome(db, now, SetOf(sample), some, Min(|LiveDns(db, now)| - maxKeys, |sample|));
    victims := InSomeOrder(chosen);
    forall v | v in victims ensures v in chosen && v in sample {
      assert v in SetOf(victims);
    }
    forall k | k in chosen ensures k in victims {
      assert k in SetOf(victims);
    }
  }

  /** A dead key with too few before it may be a victim. */
  lemma DeadVictim(db: Db, maxKeys: int, now: Time, sample: seq<Key>, x: Key) returns (victims: seq<Key>)
    requires OverCap(db, maxKeys, now) && IsRange(db.index, None, EVICTION_CANDIDATE_BATCH, sample)
    requires x in sample && |Ahead(db, now, sample, x)| < |LiveDns(db, now)| - maxKeys <= |sample|
    ensures Evicts(db, maxKeys, now, sample, victims) && x in victims
  {
    var some := Ahead(db, now, sample, x) + {x};
    assert FirstOf(db, now, SetOf(sample), some);
    victims := VictimsWith(db, maxKeys, now, sample, some);
  }

  /** A dead key with enough others before it is no victim. */
  lemma NoDeadVictim(db: Db, maxKeys: int, now: Time, sample: seq<Key>, victims: seq<Key>, x: Key)
    requires OverCap(db, maxKeys, now) && Evicts(db, maxKeys, now, sample, victims) && x in sample
    requires |Ahead(db, now, sample, x)| >= |LiveDns(db, now)| - maxKeys
    ensures x !in victims
  {
    if x in victims {
      var ahead := Ahead(db, now, sample, x);
      assert ahead + {x} <= SetOf(victims);
      SetOfSize(victims);
      OverlapSize(SetOf(victims), ahead + {x});
    }
  }

  /** The count is sure to land on the cap if and only if the sample, before anything is deleted, is large enough
      and has enough other keys before each dead one. */
  lemma EvictionSureIff(db: Db, maxKeys: int, now: Time, sample: seq<Key>)
    requires OverCap(db, maxKeys, now) && IsRange(db.index, None, EVICTION_CANDIDATE_BATCH, sample)
    ensures (forall victims :: Evicts(db, maxKeys, now, sample, victims) ==>
               |LiveDns(DeleteKeys(db, victims), now)| == maxKeys)
            <==> SureToLand(db, maxKeys, now, sample)
  {
    if SureToLand(db, maxKeys, now, sample) {
      forall victims | Evicts(db, maxKeys, now, sample, victims)
        ensures |LiveDns(DeleteKeys(db, victims), now)| == maxKeys
      {
        EvictionLandsIff(db, maxKeys, now, sample, victims);
        forall v <- victims ensures v in LiveDns(db, now) {
          if v !in LiveDns(db, now) {
            NoDeadVictim(db, maxKeys, now, sample, victims, v);
          }
        }
      }
    } else {
      var victims;
      if |LiveDns(db, now)| - maxKeys > |sample| {
        victims := VictimsWith(db, maxKeys, now, sample, {});
      } else {
        var x :| x in sample && x !in LiveDns(db, now)
                 && |Ahead(db, now, sample, x)| < |LiveDns(db, now)| - maxKeys;
        victims := DeadVictim(db, maxKeys, now, sample, x);
      }
      EvictionLandsIff(db, maxKeys, now, sample, victims);
    }
  }

  /** A dead key has the zero time as creation time: it goes sooner than a live one exactly if it has fewer hits, or as
      many and the live one was created after that. */
  lemma DeadGoesSoonerIff(db: Db, now: Time, x: Key, k: Key)
    requires !Live(db, x, now) && Live(db, k, now)
    ensures Sooner(db, now, x, k) <==>
              var a := if x in db.hits then db.hits[x] else 0;
              var b := if k in db.hits then db.hits[k] else 0;
              a < b || (a == b && ZERO_TIME < db.hash[k].createdAt)
  {
  }

  /** An eviction that frees nothing: two live keys, a cap of one, and a dead key in the index that has no hits. */
  lemma EvictionFreesNothing(x: Key, a: Key, b: Key, h: Hash) returns (db: Db)
    requires x != a && x != b && a != b && "dns:" <= a && "dns:" <= b && h.createdAt >= 0 && h.deadline > 0
    ensures OverCap(db, 1, 0) && Evicts(db, 1, 0, [x, a, b], [x])
    ensures LiveDns(DeleteKeys(db, [x]), 0) == LiveDns(db, 0) == {a, b}
  {
    db := Db(map[a := h, b := h], map[x := 0, a := 1, b := 2], map[], map[]);
    assert LiveDns(db, 0) == {a, b};
    assert IsRange(db.index, None, EVICTION_CANDIDATE_BATCH, [x, a, b]);
    DeleteKeysIs(db, [x]);
  }

  // ---------- Sorting ----------

  /** A prefix of the sorted candidates comes before every other candidate. */
  lemma VictimsFirst(db: Db, sample: seq<Key>, now: Time, cands: seq<Candidate>, sorted: seq<Candidate>,
                     victims: seq<Key>)
    requires NoRepeats(sample) && |cands| == |sample| && SortedFrom(sorted, cands)
    requires forall i :: 0 <= i < |sample| ==> cands[i] == CandidateOf(db, sample[i], now)
    requires |victims| <= |sorted| && forall i :: 0 <= i < |victims| ==> victims[i] == sorted[i].key
    ensures NoRepeats(victims) && forall v <- victims :: v in sample
    ensures forall v <- victims, k <- sample :: k !in victims ==> !Sooner(db, now, k, v)
  {
    forall j | 0 <= j < |sorted| ensures sorted[j].key in sample && sorted[j] == CandidateOf(db, sorted[j].key, now) {
      assert sorted[j] in cands;
      var i :| 0 <= i < |cands| && cands[i] == sorted[j];
    }
    forall v <- victims, k <- sample | k !in victims ensures !Sooner(db, now, k, v) {
      var i :| 0 <= i < |victims| && victims[i] == v;
      var p :| 0 <= p < |sample| && sample[p] == k;
      assert cands[p] in sorted;
      var j :| 0 <= j < |sorted| && sorted[j] == cands[p];
      assert j >= |victims|;
    }
  }
}
