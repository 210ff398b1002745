/** Does the expiry index cover the cache? Stores, deletions, expiry, reconciliation and sweeps, interleaved.

    Reconciliation and sweeps look a key up in one command and remove it from the index in a later one.
    `pending` holds the keys that were found absent and are still to be removed. `exposed` is history: the keys
    that lost their index entry while their hash was there. */
module ExpiryIndex {
  import opened Types
  import opened Redis
  import CacheKeys

  datatype World = World(now: Time, db: Db, pending: set<Key>, exposed: set<Key>)

  datatype Act =
    | Tick(d: Duration)
    | Store(k: Key, msg: Msg, ttl: Duration, authTTL: Duration, grace: Duration)
    | Delete(k: Key)
    | Check(k: Key)
    | CheckFails(k: Key)
    | Remove(ks: set<Key>)
    | RemoveUnparsable(k: Key)
    | ClearHash(k: Key)
    | ClearIndex

  predicate Parses(k: Key) {
    CacheKeys.ParseCacheKey(k).Some?
  }

  ghost predicate Can(w: World, act: Act) {
    match act
    case Tick(d) => d >= 0
    case Store(_, _, ttl, _, grace) => ttl > 0 && grace >= 0
    case Delete(_) => true
    case Check(k) => !Live(w.db, k, w.now)
    case CheckFails(_) => true
    case Remove(ks) => ks <= w.pending
    case RemoveUnparsable(k) => !Parses(k)
    case ClearHash(_) => true
    case ClearIndex => true
  }

  /** The keys of `ks` whose hash is there. */
  ghost function LiveOf(w: World, ks: set<Key>): set<Key> {
    set k | k in ks && Live(w.db, k, w.now)
  }

  ghost function Step(w: World, act: Act): World
    requires Can(w, act)
  {
    match act
    case Tick(d) => w.(now := w.now + d)
    case Store(k, msg, ttl, auth, grace) =>
      w.(db := SetIndexed(w.db, k, msg, ttl, auth, grace, w.now), exposed := w.exposed - {k})
    case Delete(k) => w.(db := DeleteKey(w.db, k), exposed := w.exposed - {k})
    case Check(k) => w.(pending := w.pending + {k})
    case CheckFails(k) => w.(pending := w.pending + {k})
    case Remove(ks) =>
      w.(db := w.db.(index := w.db.index - ks), pending := w.pending - ks, exposed := w.exposed + LiveOf(w, ks))
    case RemoveUnparsable(k) => w.(db := w.db.(index := w.db.index - {k}))
    case ClearHash(k) => w.(db := w.db.(hash := w.db.hash - {k}))
    case ClearIndex => w.(db := w.db.(index := map[]), exposed := w.exposed + LiveOf(w, w.db.hash.Keys))
  }

  /** The key is in the index, with its soft expiry as score. */
  ghost predicate Indexed(w: World, k: Key) {
    k in w.db.hash && k in w.db.index && w.db.index[k] == w.db.hash[k].softExpiry
  }

  /** A live key that parses is in the index unless it was exposed, and no exposed key is. */
  ghost predicate Covered(w: World) {
    && (forall k <- w.db.hash :: Live(w.db, k, w.now) && Parses(k) && k !in w.exposed ==> Indexed(w, k))
    && (forall k <- w.exposed :: k !in w.db.index)
  }

  lemma StepKeepsCovered(w: World, act: Act)
    requires Covered(w) && Can(w, act)
    ensures Covered(Step(w, act))
  {
    var v := Step(w, act);
    forall k <- v.db.hash | Live(v.db, k, v.now) && Parses(k) && k !in v.exposed ensures Indexed(v, k) {
      if !act.Store? || k != act.k {
        assert k in w.db.hash && Live(w.db, k, w.now);
      }
    }
  }

  ghost predicate CanRun(w: World, acts: seq<Act>)
    decreases |acts|
  {
    acts == [] || (Can(w, acts[0]) && CanRun(Step(w, acts[0]), acts[1..]))
  }

  ghost function Run(w: World, acts: seq<Act>): World
    requires CanRun(w, acts)
    decreases |acts|
  {
    if acts == [] then w else Run(Step(w, acts[0]), acts[1..])
  }

  lemma {:induction false} RunKeepsCovered(w: World, acts: seq<Act>)
    requires Covered(w) && CanRun(w, acts)
    ensures Covered(Run(w, acts))
    decreases |acts|
  {
    if acts != [] {
      StepKeepsCovered(w, acts[0]);
      RunKeepsCovered(Step(w, acts[0]), acts[1..]);
    }
  }

  // ---------- Which keys are exposed ----------

  /** The step takes `k` out of the index while its hash is there. */
  ghost predicate Exposes(w: World, act: Act, k: Key) {
    Live(w.db, k, w.now) &&
    match act
    case Remove(ks) => k in ks
    case ClearIndex => true
    case _ => false
  }

  /** Some step stores or deletes `k`. */
  ghost predicate Renewed(acts: seq<Act>, k: Key) {
    exists i :: 0 <= i < |acts| && match acts[i]
                                   case Store(x, _, _, _, _) => x == k
                                   case Delete(x) => x == k
                                   case _ => false
  }

  /** The `i`-th step of the run takes `k` out of the index while its hash is there. */
  ghost predicate ExposesAt(w: World, acts: seq<Act>, i: nat, k: Key)
    requires CanRun(w, acts) && i < |acts|
    decreases |acts|
  {
    if i == 0 then Exposes(w, acts[0], k) else ExposesAt(Step(w, acts[0]), acts[1..], i - 1, k)
  }

  /** Some step takes `k` out of the index while its hash is there, and no later one stores or deletes it. */
  ghost predicate ExposedLast(w: World, acts: seq<Act>, k: Key)
    requires CanRun(w, acts)
  {
    exists i :: 0 <= i < |acts| && ExposesAt(w, acts, i, k) && !Renewed(acts[i + 1..], k)
  }

  lemma RenewedCons(acts: seq<Act>, k: Key)
    requires acts != []
    ensures Renewed(acts, k) <==> Renewed([acts[0]], k) || Renewed(acts[1..], k)
  {
    forall i | 0 <= i < |acts| ensures acts[i] == if i == 0 then [acts[0]][0] else acts[1..][i - 1] {
    }
  }

  lemma ExposedLastCons(w: World, acts: seq<Act>, k: Key)
    requires CanRun(w, acts) && acts != []
    ensures ExposedLast(w, acts, k) <==>
              || (Exposes(w, acts[0], k) && !Renewed(acts[1..], k))
              || ExposedLast(Step(w, acts[0]), acts[1..], k)
  {
    var v := Step(w, acts[0]);
    if ExposedLast(w, acts, k) {
      var i :| 0 <= i < |acts| && ExposesAt(w, acts, i, k) && !Renewed(acts[i + 1..], k);
      if i > 0 {
        assert acts[1..][i..] == acts[i + 1..];
        assert ExposesAt(v, acts[1..], i - 1, k) && !Renewed(acts[1..][i - 1 + 1..], k);
      }
    }
    if Exposes(w, acts[0], k) && !Renewed(acts[1..], k) {
      assert ExposesAt(w, acts, 0, k) && !Renewed(acts[0 + 1..], k);
    }
    if ExposedLast(v, acts[1..], k) {
      var i :| 0 <= i < |acts[1..]| && ExposesAt(v, acts[1..], i, k) && !Renewed(acts[1..][i + 1..], k);
      assert acts[1..][i + 1..] == acts[i + 2..];
      assert ExposesAt(w, acts, i + 1, k) && !Renewed(acts[i + 1 + 1..], k);
    }
  }

  lemma {:induction false} ExposedIff(w: World, acts: seq<Act>, k: Key)
    requires CanRun(w, acts)
    ensures k in Run(w, acts).exposed <==> (k in w.exposed && !Renewed(acts, k)) || ExposedLast(w, acts, k)
    decreases |acts|
  {
    if acts != [] {
      ExposedIff(Step(w, acts[0]), acts[1..], k);
      RenewedCons(acts, k);
      ExposedLastCons(w, acts, k);
    }
  }

  /** In every run from an empty store, a live key that parses is missing from the index if and only if some step
      took it out while its hash was there, and no later one stored or deleted it. */
  lemma IndexedIff(w: World, acts: seq<Act>, k: Key) returns (v: World)
    requires w.db.hash == map[] && w.db.index == map[] && w.exposed == {} && CanRun(w, acts)
    ensures v == Run(w, acts)
    ensures Live(v.db, k, v.now) && Parses(k) ==> (Indexed(v, k) <==> !ExposedLast(w, acts, k))
    ensures ExposedLast(w, acts, k) ==> k !in v.db.index
  {
    RunKeepsCovered(w, acts);
    ExposedIff(w, acts, k);
    v := Run(w, acts);
  }

  // ---------- When no key is exposed ----------

  /** A key that waits for its removal is not there. */
  ghost predicate PendingDead(w: World) {
    forall k <- w.pending :: !Live(w.db, k, w.now)
  }

  /** The step does not store a key that waits for removal, no lookup fails, and the index is not cleared under
      a live key. */
  ghost predicate Orderly(w: World, act: Act) {
    && (act.Store? ==> act.k !in w.pending)
    && (act.CheckFails? ==> !Live(w.db, act.k, w.now))
    && (act.ClearIndex? ==> LiveOf(w, w.db.hash.Keys) == {})
  }

  ghost predicate AllOrderly(w: World, acts: seq<Act>)
    requires CanRun(w, acts)
    decreases |acts|
  {
    acts == [] || (Orderly(w, acts[0]) && AllOrderly(Step(w, acts[0]), acts[1..]))
  }

  lemma OrderlyStep(w: World, act: Act)
    requires Can(w, act) && Orderly(w, act) && PendingDead(w) && w.exposed == {}
    ensures PendingDead(Step(w, act)) && Step(w, act).exposed == {}
  {
    if act.Remove? {
      assert LiveOf(w, act.ks) == {};
    }
  }

  /** In an orderly run removals hit dead keys only, so every live key that parses is in the index. */
  lemma {:induction false} OrderlyRun(w: World, acts: seq<Act>)
    requires Covered(w) && PendingDead(w) && w.exposed == {} && CanRun(w, acts) && AllOrderly(w, acts)
    ensures var v := Run(w, acts);
            && v.exposed == {} && PendingDead(v)
            && forall k <- v.db.hash :: Live(v.db, k, v.now) && Parses(k) ==> Indexed(v, k)
    decreases |acts|
  {
    if acts != [] {
      OrderlyStep(w, acts[0]);
      StepKeepsCovered(w, acts[0]);
      OrderlyRun(Step(w, acts[0]), acts[1..]);
    }
  }

  /** The race, from an empty store: a key in the index is looked up when its hash has run out, stored again, and then
      removed from the index. It is live and not in the index. */
  lemma {:induction false} StoreRacesRemoval(k: Key, msg: Msg)
    requires Parses(k)
    ensures var w := World(0, Db(map[], map[], map[], map[]), {}, {});
            var put := Store(k, msg, SECOND, 0, SECOND);
            var acts := [put, Tick(2 * SECOND), Check(k), put, Remove({k})];
            && CanRun(w, acts)
            && Live(Run(w, acts).db, k, Run(w, acts).now) && k !in Run(w, acts).db.index
  {
    var w0 := World(0, Db(map[], map[], map[], map[]), {}, {});
    var put := Store(k, msg, SECOND, 0, SECOND);
    var acts := [put, Tick(2 * SECOND), Check(k), put, Remove({k})];
    var w1 := Step(w0, acts[0]);
    var w2 := Step(w1, acts[1]);
    var w3 := Step(w2, acts[2]);
    var w4 := Step(w3, acts[3]);
    var w5 := Step(w4, acts[4]);
    assert acts[1..] == [acts[1], acts[2], acts[3], acts[4]];
    RunOne(w4, acts, 4);
    RunOne(w3, acts, 3);
    RunOne(w2, acts, 2);
    RunOne(w1, acts, 1);
    RunOne(w0, acts, 0);
    assert acts[0..] == acts && acts[5..] == [];
    assert Run(w5, []) == w5;
  }

  lemma RunOne(w: World, acts: seq<Act>, i: nat)
    requires i < |acts| && Can(w, acts[i]) && CanRun(Step(w, acts[i]), acts[i + 1..])
    ensures CanRun(w, acts[i..]) && Run(w, acts[i..]) == Run(Step(w, acts[i]), acts[i + 1..])
  {
    assert acts[i..][1..] == acts[i + 1..];
  }

  // ---------- Candidates ----------

  /** ExpiryCandidates misses a due live key only when its limit is used up, by keys that are due no later. */
  lemma CandidatesMissOnlyByLimit(w: World, until: Time, limit: nat, r: seq<Key>, k: Key)
    requires Covered(w) && IsRange(w.db.index, Some(Unix(until)), limit, r)
    requires Live(w.db, k, w.now) && Parses(k) && k !in w.exposed
    requires w.db.hash[k].softExpiry <= Unix(until)
    ensures k in r || (|r| == limit && forall x <- r :: x in w.db.index && w.db.index[x] <= w.db.hash[k].softExpiry)
  {
    assert Indexed(w, k);
  }
}
