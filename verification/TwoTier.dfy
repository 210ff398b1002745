/** How long can a stored answer be served? Any number of in-memory caches (the shards of all instances)
    in front of one store, with promotions from the store that may be delayed and interleaved at will.

    A promotion is two calls with a clock reading each. `log` and `late` are history: what was stored, when and with
    which TTL, and the longest time that passed so far between the two readings of a promotion. */
module TwoTier {
  import opened Types
  import opened Sieve
  import opened SieveRuns
  import opened Redis

  /** A message that was stored for a key at `at` with `ttl`. */
  datatype Record = Record(key: Key, msg: Msg, at: Time, ttl: Duration)

  /** A hit in the store that is still to be promoted: what is left of its TTL, as of `at`. */
  datatype Promotion = Promotion(key: Key, msg: Msg, remaining: Duration, storedTTL: Duration, authTTL: Duration,
                                 at: Time)

  datatype World<!E> = World(now: Time, l0: map<nat, State<E>>, db: Db, seen: set<Promotion>, log: set<Record>,
                             late: Duration)

  datatype Act<E> =
    | Tick(d: Duration)
    | Store(c: nat, e: E, k: Key, msg: Msg, ttl: Duration, authTTL: Duration, toL1: bool)
    | ReadL1(k: Key)
    | Promote(c: nat, e: E, p: Promotion)
    | Local(c: nat, op: Op<E>)
    | DeleteL1(k: Key)

  // ---------- Reading the store ----------

  /** What getHash reports at `now`: the time left may be negative, and counts from whole seconds. */
  function L1Hit(h: Hash, now: Time): Hit {
    Hit(h.msg, h.softExpiry * SECOND - now, if h.storedTTL > 0 then h.storedTTL * SECOND else 0,
        if h.authTTL.Some? && h.authTTL.value > 0 then h.authTTL.value * SECOND else 0)
  }

  function PromotionOf(k: Key, hit: Hit, now: Time): Promotion {
    Promotion(k, hit.msg, hit.remaining, hit.storedTTL, hit.authTTL, now)
  }

  // ---------- Steps ----------

  ghost predicate CachesWeak<E>(l0: map<nat, State<E>>) {
    forall c <- l0 :: Weak(l0[c])
  }

  /** SetWithStoredTTL as a step of the cache. */
  ghost function PutOp<E>(e: E, k: Key, msg: Msg, ttl: Duration, storedTTL: Duration, authTTL: Duration,
                          now: Time): Op<E>
  {
    OpPut(e, k, Some(msg), ttl, storedTTL, authTTL, now)
  }

  ghost predicate Can<E>(w: World<E>, act: Act<E>) {
    match act
    case Tick(d) => d >= 0
    case Store(c, e, k, msg, ttl, auth, _) =>
      ttl > 0 && c in w.l0 && Enabled(w.l0[c], PutOp(e, k, msg, ttl, ttl, auth, w.now))
    case ReadL1(k) => Live(w.db, k, w.now)
    case Promote(c, e, p) =>
      p in w.seen && p.remaining > 0 && c in w.l0 &&
      Enabled(w.l0[c], PutOp(e, p.key, p.msg, p.remaining, p.storedTTL, p.authTTL, w.now))
    case Local(c, op) => c in w.l0 && !op.OpPut?
    case DeleteL1(_) => true
  }

  ghost function StepCache<E>(l0: map<nat, State<E>>, c: nat, op: Op<E>): map<nat, State<E>>
    requires CachesWeak(l0) && c in l0 && Enabled(l0[c], op)
  {
    l0[c := SieveRuns.Step(l0[c], op)]
  }

  ghost function Step<E>(w: World<E>, act: Act<E>): World<E>
    requires CachesWeak(w.l0) && Can(w, act)
  {
    match act
    case Tick(d) => w.(now := w.now + d)
    case Store(c, e, k, msg, ttl, auth, toL1) =>
      w.(l0 := StepCache(w.l0, c, PutOp(e, k, msg, ttl, ttl, auth, w.now)),
         db := if toL1 then SetIndexed(w.db, k, msg, ttl, auth, Min(ttl, w.l0[c].grace), w.now) else w.db,
         log := w.log + {Record(k, msg, w.now, ttl)})
    case ReadL1(k) => w.(seen := w.seen + {PromotionOf(k, L1Hit(w.db.hash[k], w.now), w.now)})
    case Promote(c, e, p) =>
      w.(l0 := StepCache(w.l0, c, PutOp(e, p.key, p.msg, p.remaining, p.storedTTL, p.authTTL, w.now)),
         late := if w.now - p.at > w.late then w.now - p.at else w.late)
    case Local(c, op) => w.(l0 := StepCache(w.l0, c, op))
    case DeleteL1(k) => w.(db := DeleteKey(w.db, k))
  }

  // ---------- The bound ----------

  /** The last instant at which a record may be served, when no cache has a grace period over `g`. */
  ghost function Latest(r: Record, g: Duration): Time {
    r.at + r.ttl + Min(r.ttl, g)
  }

  /** Some record accounts for this message: it expires no later than the record allows. */
  ghost predicate Backed(log: set<Record>, g: Duration, key: Key, msg: Msg, soft: Time, hard: Time) {
    exists r <- log :: r.key == key && r.msg == msg && soft <= r.at + r.ttl && hard <= Latest(r, g)
  }

  /** A copy in memory may outlast its record by as long as a promotion took. */
  ghost predicate EntryBacked(log: set<Record>, g: Duration, late: Duration, d: Entry) {
    Backed(log, g, d.key, d.msg, d.softExpiry - late, d.expiry - late)
  }

  ghost predicate CacheBacked<E>(s: State<E>, log: set<Record>, g: Duration, late: Duration)
    requires Weak(s)
  {
    s.grace <= g && forall e <- s.ll :: EntryBacked(log, g, late, s.ent[e])
  }

  ghost predicate HashBacked(log: set<Record>, g: Duration, k: Key, h: Hash) {
    Backed(log, g, k, h.msg, h.softExpiry * SECOND, h.deadline)
  }

  /** A promotion's TTL ends no later than its record's. */
  ghost predicate PromotionBacked(log: set<Record>, p: Promotion) {
    exists r <- log :: r.key == p.key && r.msg == p.msg && r.at <= p.at && p.at + p.remaining <= r.at + r.ttl
  }

  ghost predicate Bounded<E>(w: World<E>, g: Duration) {
    && CachesWeak(w.l0)
    && (forall c <- w.l0 :: CacheBacked(w.l0[c], w.log, g, w.late))
    && (forall k <- w.db.hash :: HashBacked(w.log, g, k, w.db.hash[k]))
    && (forall p <- w.seen :: PromotionBacked(w.log, p) && p.at <= w.now)
    && (forall r <- w.log :: r.at <= w.now)
    && w.late >= 0
  }

  /** An element holds what it held, but for its bit. */
  ghost predicate SameEntry<E>(s: State<E>, t: State<E>, e: E)
    requires WellFormed(s) && WellFormed(t) && e in t.ll
  {
    e in s.ll && t.ent[e] == s.ent[e].(visited := t.ent[e].visited)
  }

  /** An element holds what the Put wrote, but for its bit. */
  ghost predicate WrittenEntry<E>(s: State<E>, op: Op<E>, d: Entry) {
    op.OpPut? && op.msg.Some? && op.ttl > 0 && d.(visited := true) ==
      MakeEntry(op.k, op.msg.value, op.ttl, op.storedTTL, op.authTTL, op.now, s.grace)
  }

  lemma FullPutEntries<E>(s: State<E>, op: Op<E>, e: E)
    requires Weak(s) && Enabled(s, op) && op.OpPut? && Stores(op) && op.k !in s.cache && |s.ll| == s.cap
    requires e in SieveRuns.Step(s, op).ll
    ensures SameEntry(s, SieveRuns.Step(s, op), e) || WrittenEntry(s, op, SieveRuns.Step(s, op).ent[e])
  {
    var d := PutIs(s, op);
    var v, t := PutEvicts(s, op.e, d);
    WithoutElems(s.ll, v);
    assert t.ent[e] == (if e == op.e then d else s.ent[e]).(visited := t.ent[e].visited);
  }

  lemma PutEntries<E>(s: State<E>, op: Op<E>, e: E)
    requires Weak(s) && Enabled(s, op) && op.OpPut? && e in SieveRuns.Step(s, op).ll
    ensures SameEntry(s, SieveRuns.Step(s, op), e) || WrittenEntry(s, op, SieveRuns.Step(s, op).ent[e])
  {
    if Stores(op) && op.k !in s.cache && |s.ll| == s.cap {
      FullPutEntries(s, op, e);
    }
  }

  /** A step of a cache keeps what its elements hold, but for the bits, and the one element it may write. */
  lemma StepEntries<E>(s: State<E>, op: Op<E>, e: E)
    requires Weak(s) && Enabled(s, op) && e in SieveRuns.Step(s, op).ll
    ensures SameEntry(s, SieveRuns.Step(s, op), e) || WrittenEntry(s, op, SieveRuns.Step(s, op).ent[e])
  {
    if op.OpPut? {
      PutEntries(s, op, e);
    } else {
      OtherEntries(s, op, e);
    }
  }

  lemma OtherEntries<E>(s: State<E>, op: Op<E>, e: E)
    requires Weak(s) && Enabled(s, op) && !op.OpPut? && e in SieveRuns.Step(s, op).ll
    ensures SameEntry(s, SieveRuns.Step(s, op), e)
  {
    if op.OpDelete? && op.k in s.cache {
      WithoutElems(s.ll, s.cache[op.k]);
    } else if (op.OpGet? || op.OpDropExpired?) && op.k in s.cache {
      WithoutElems(s.ll, s.cache[op.k]);
    }
  }

  lemma BackedGrows(log: set<Record>, more: set<Record>, g: Duration, late: Duration, later: Duration, d: Entry)
    requires EntryBacked(log, g, late, d) && log <= more && late <= later
    ensures EntryBacked(more, g, later, d)
  {
  }

  /** A cache step keeps the bound when the element it may write is backed. */
  lemma CacheStepBacked<E>(s: State<E>, op: Op<E>, log: set<Record>, more: set<Record>, g: Duration,
                           late: Duration, later: Duration)
    requires Weak(s) && Enabled(s, op) && CacheBacked(s, log, g, late) && log <= more && late <= later
    requires op.OpPut? && op.msg.Some? && op.ttl > 0 ==>
               EntryBacked(more, g, later, MakeEntry(op.k, op.msg.value, op.ttl, op.storedTTL, op.authTTL, op.now,
                                                     s.grace))
    ensures Weak(SieveRuns.Step(s, op)) && CacheBacked(SieveRuns.Step(s, op), more, g, later)
  {
    StepKeepsWeak(s, op);
    var t := SieveRuns.Step(s, op);
    forall e <- t.ll ensures EntryBacked(more, g, later, t.ent[e]) {
      StepEntries(s, op, e);
      if SameEntry(s, t, e) {
        BackedGrows(log, more, g, late, later, s.ent[e]);
      }
    }
  }

  lemma StoreBacked<E>(w: World<E>, act: Act<E>, g: Duration)
    requires Bounded(w, g) && Can(w, act) && act.Store?
    ensures Bounded(Step(w, act), g)
  {
    var v := Step(w, act);
    var r := Record(act.k, act.msg, w.now, act.ttl);
    assert r in v.log && w.log <= v.log;
    var s := w.l0[act.c];
    var op := PutOp(act.e, act.k, act.msg, act.ttl, act.ttl, act.authTTL, w.now);
    assert EntryBacked(v.log, g, 0, MakeEntry(act.k, act.msg, act.ttl, act.ttl, act.authTTL, w.now, s.grace));
    CacheStepBacked(s, op, w.log, v.log, g, w.late, w.late);
    OthersBacked(w, v, act.c, g);
    forall k <- v.db.hash ensures HashBacked(v.log, g, k, v.db.hash[k]) {
      if k == act.k && act.toL1 {
        UnixBelow(w.now + act.ttl);
      } else {
        assert HashBacked(w.log, g, k, w.db.hash[k]);
      }
    }
  }

  lemma UnixBelow(t: Time)
    ensures Unix(t) * SECOND <= t
  {
  }

  /** The other caches are as they were, under a longer log. */
  lemma OthersBacked<E>(w: World<E>, v: World<E>, c: nat, g: Duration)
    requires Bounded(w, g) && w.log <= v.log && w.late <= v.late && v.l0.Keys == w.l0.Keys && CachesWeak(v.l0)
    requires forall x <- w.l0 :: x != c ==> v.l0[x] == w.l0[x]
    ensures forall x <- v.l0 :: x != c ==> CacheBacked(v.l0[x], v.log, g, v.late)
  {
    forall x <- v.l0 | x != c ensures CacheBacked(v.l0[x], v.log, g, v.late) {
      forall e <- v.l0[x].ll ensures EntryBacked(v.log, g, v.late, v.l0[x].ent[e]) {
        assert CacheBacked(w.l0[x], w.log, g, w.late);
        BackedGrows(w.log, v.log, g, w.late, v.late, w.l0[x].ent[e]);
      }
    }
  }

  lemma PromoteBacked<E>(w: World<E>, act: Act<E>, g: Duration)
    requires Bounded(w, g) && Can(w, act) && act.Promote?
    ensures Bounded(Step(w, act), g)
  {
    var v := Step(w, act);
    var s := w.l0[act.c];
    var p := act.p;
    assert PromotionBacked(w.log, p);
    PromotedEntry(w.log, g, p, w.now, v.late, s.grace);
    CacheStepBacked(s, PutOp(act.e, p.key, p.msg, p.remaining, p.storedTTL, p.authTTL, w.now), w.log, v.log, g,
                    w.late, v.late);
    OthersBacked(w, v, act.c, g);
  }

  /** What a promotion writes outlasts its record by no more than the promotion took. */
  lemma PromotedEntry(log: set<Record>, g: Duration, p: Promotion, now: Time, late: Duration, grace: Duration)
    requires PromotionBacked(log, p) && p.remaining > 0 && grace <= g && now - p.at <= late
    ensures EntryBacked(log, g, late, MakeEntry(p.key, p.msg, p.remaining, p.storedTTL, p.authTTL, now, grace))
  {
    var r :| r in log && r.key == p.key && r.msg == p.msg && r.at <= p.at && p.at + p.remaining <= r.at + r.ttl;
    assert Min(p.remaining, grace) <= Min(r.ttl, g);
  }

  lemma ReadBacked<E>(w: World<E>, act: Act<E>, g: Duration)
    requires Bounded(w, g) && Can(w, act) && act.ReadL1?
    ensures Bounded(Step(w, act), g)
  {
    var h := w.db.hash[act.k];
    assert HashBacked(w.log, g, act.k, h);
    assert PromotionBacked(w.log, PromotionOf(act.k, L1Hit(h, w.now), w.now));
  }

  lemma StepKeepsBounded<E>(w: World<E>, act: Act<E>, g: Duration)
    requires Bounded(w, g) && Can(w, act)
    ensures Bounded(Step(w, act), g)
  {
    match act
    case Tick(_) =>
    case Store(_, _, _, _, _, _, _) => StoreBacked(w, act, g);
    case ReadL1(_) => ReadBacked(w, act, g);
    case Promote(_, _, _) => PromoteBacked(w, act, g);
    case Local(c, op) => CacheStepBacked(w.l0[c], op, w.log, w.log, g, w.late, w.late);
    case DeleteL1(_) =>
  }

  ghost predicate CanRun<E>(w: World<E>, acts: seq<Act<E>>, g: Duration)
    requires Bounded(w, g)
    decreases |acts|
  {
    acts == [] || (Can(w, acts[0]) && (StepKeepsBounded(w, acts[0], g); CanRun(Step(w, acts[0]), acts[1..], g)))
  }

  /** Every run keeps the bound. */
  ghost function Run<E>(w: World<E>, acts: seq<Act<E>>, g: Duration): (v: World<E>)
    requires Bounded(w, g) && CanRun(w, acts, g)
    ensures Bounded(v, g)
    decreases |acts|
  {
    if acts == [] then w
    else
      StepKeepsBounded(w, acts[0], g);
      Run(Step(w, acts[0]), acts[1..], g)
  }

  /** A hit in memory was stored for that key no longer ago than its TTL and grace period, and the longest time a
      promotion took, allow; the time left it reports ends no later than the TTL did, give or take that time. */
  ghost predicate LocalInTime<E>(w: World<E>, g: Duration, c: nat, k: Key)
    requires CachesWeak(w.l0) && c in w.l0
  {
    Lookup(w.l0[c], k, w.now).Some? ==>
      var hit := Lookup(w.l0[c], k, w.now).value;
      exists r <- w.log :: r.key == k && r.msg == hit.msg && w.now <= Latest(r, g) + w.late
                           && (hit.remaining > 0 ==> w.now + hit.remaining <= r.at + r.ttl + w.late)
  }

  /** So is a hit in the store, with nothing to add. */
  ghost predicate SharedInTime<E>(w: World<E>, g: Duration, k: Key) {
    Live(w.db, k, w.now) ==>
      var hit := L1Hit(w.db.hash[k], w.now);
      exists r <- w.log :: r.key == k && r.msg == hit.msg && w.now < Latest(r, g)
                           && w.now + hit.remaining <= r.at + r.ttl
  }

  lemma NeverServedTooLate<E>(w: World<E>, g: Duration, c: nat, k: Key)
    requires Bounded(w, g)
    ensures SharedInTime(w, g, k) && (c in w.l0 ==> LocalInTime(w, g, c, k))
  {
    if c in w.l0 && Lookup(w.l0[c], k, w.now).Some? {
      var d := w.l0[c].ent[w.l0[c].cache[k]];
      assert CacheBacked(w.l0[c], w.log, g, w.late) && EntryBacked(w.log, g, w.late, d);
    }
    if Live(w.db, k, w.now) {
      assert HashBacked(w.log, g, k, w.db.hash[k]);
    }
  }

  /** Nothing stored yet: empty caches and an empty store. */
  ghost predicate Start<E>(w: World<E>, g: Duration): (r: bool)
    ensures r ==> Bounded(w, g)
  {
    && CachesWeak(w.l0) && (forall c <- w.l0 :: w.l0[c].ll == [] && w.l0[c].grace <= g)
    && w.db.hash == map[] && w.seen == {} && w.log == {} && w.late == 0
  }

  /** From the start, whatever the sequence of stores, deletions, expiries and promotions, both tiers answer in time. */
  lemma InTimeFromStart<E>(w: World<E>, acts: seq<Act<E>>, g: Duration, c: nat, k: Key) returns (v: World<E>)
    requires Start(w, g) && CanRun(w, acts, g)
    ensures v == Run(w, acts, g) && CachesWeak(v.l0)
    ensures SharedInTime(v, g, k) && (c in v.l0 ==> LocalInTime(v, g, c, k))
  {
    v := Run(w, acts, g);
    NeverServedTooLate(v, g, c, k);
  }

  /** No promotion takes longer than `d`. */
  ghost predicate Prompt<E>(w: World<E>, acts: seq<Act<E>>, g: Duration, d: Duration)
    requires Bounded(w, g) && CanRun(w, acts, g)
    decreases |acts|
  {
    acts == [] ||
    (&& (acts[0].Promote? ==> w.now - acts[0].p.at <= d)
     && (StepKeepsBounded(w, acts[0], g); Prompt(Step(w, acts[0]), acts[1..], g, d)))
  }

  /** In a run of prompt promotions the bound moves by no more than one takes: with one clock reading, not at all. */
  lemma {:induction false} PromptRun<E>(w: World<E>, acts: seq<Act<E>>, g: Duration, d: Duration)
    requires Bounded(w, g) && CanRun(w, acts, g) && w.late <= d && Prompt(w, acts, g, d)
    ensures Run(w, acts, g).late <= d
    decreases |acts|
  {
    if acts != [] {
      StepKeepsBounded(w, acts[0], g);
      PromptRun(Step(w, acts[0]), acts[1..], g, d);
    }
  }

  /** When a promoted copy outlasts its store. Of a store at `t`, looked up at `a` with time left and written at
      `b`: it stays fresh too long if and only if the write came later after the lookup than the fraction of a
      second that the store's soft expiry lost, and it is served too long if and only if it came later by more than
      what its grace period is short of the store's as well. */
  lemma PromotionOutlastsIff(db: Db, k: Key, msg: Msg, ttl: Duration, authTTL: Duration, grace: Duration, t: Time,
                             a: Time, b: Time, g: Duration)
    returns (hit: Hit, d: Entry)
    ensures hit == L1Hit(SetIndexed(db, k, msg, ttl, authTTL, grace, t).hash[k], a)
    ensures d == MakeEntry(k, hit.msg, hit.remaining, hit.storedTTL, hit.authTTL, b, g)
    ensures d.softExpiry > t + ttl <==> b - a > (t + ttl) % SECOND
    ensures d.expiry > t + ttl + Min(ttl, g) <==>
              b - a > (t + ttl) % SECOND + Min(ttl, g) - Min(hit.remaining, g)
  {
    hit := L1Hit(SetIndexed(db, k, msg, ttl, authTTL, grace, t).hash[k], a);
    d := MakeEntry(k, hit.msg, hit.remaining, hit.storedTTL, hit.authTTL, b, g);
    assert Unix(t + ttl) * SECOND == t + ttl - (t + ttl) % SECOND;
  }

  // ---------- A run that serves too long ----------

  lemma RunsOn<E>(w: World<E>, act: Act<E>, acts: seq<Act<E>>, g: Duration)
    requires Bounded(w, g) && Can(w, act) && Bounded(Step(w, act), g) && CanRun(Step(w, act), acts, g)
    ensures CanRun(w, [act] + acts, g) && Run(w, [act] + acts, g) == Run(Step(w, act), acts, g)
  {
    assert ([act] + acts)[1..] == acts;
  }

  /** Two caches and an empty store, at time 0. */
  ghost function TwoCaches(): (w: World<nat>)
    ensures Start(w, 10 * SECOND)
  {
    var s := Empty<nat>(1, 10 * SECOND);
    World(0, map[0 := s, 1 := s], Db(map[], map[], map[], map[]), {}, {}, 0)
  }

  /** An empty cache takes the entry. */
  lemma FirstPut(s: State<nat>, op: Op<nat>)
    requires s.cap == 1 && s == Empty<nat>(1, s.grace) && op.OpPut? && Stores(op)
    ensures Enabled(s, op) && Weak(SieveRuns.Step(s, op))
    ensures SieveRuns.Step(s, op) ==
              PushFront(s, op.e, MakeEntry(op.k, op.msg.value, op.ttl, op.storedTTL, op.authTTL, op.now, s.grace))
  {
    PutKeeps(s, op);
  }

  /** The first three steps: a store through one cache, a lookup of the store, a second of waiting. */
  ghost function Looked(k: Key, msg: Msg): (w: World<nat>)
    ensures Bounded(w, 10 * SECOND) && w.now == SECOND && w.log == {Record(k, msg, 0, 10 * SECOND)} && w.late == 0
    ensures 1 in w.l0 && w.l0[1] == Empty<nat>(1, 10 * SECOND)
    ensures Promotion(k, msg, 10 * SECOND, 10 * SECOND, 0, 0) in w.seen
    ensures w == Step(Step(LookedUp(k, msg), ReadL1(k)), Tick(SECOND))
  {
    var w := LookedUp(k, msg);
    var v := Step(w, ReadL1(k));
    StepKeepsBounded(w, ReadL1(k), 10 * SECOND);
    StepKeepsBounded(v, Tick(SECOND), 10 * SECOND);
    Step(v, Tick(SECOND))
  }

  ghost function LookedUp(k: Key, msg: Msg): (w: World<nat>)
    ensures Bounded(w, 10 * SECOND) && w.now == 0 && w.log == {Record(k, msg, 0, 10 * SECOND)} && w.late == 0
    ensures 1 in w.l0 && w.l0[1] == Empty<nat>(1, 10 * SECOND)
    ensures Live(w.db, k, 0) && L1Hit(w.db.hash[k], 0) == Hit(msg, 10 * SECOND, 10 * SECOND, 0)
    ensures Can(TwoCaches(), FirstStore(k, msg)) && w == Step(TwoCaches(), FirstStore(k, msg))
  {
    StepKeepsBounded(TwoCaches(), FirstStore(k, msg), 10 * SECOND);
    FirstRead(k, msg);
    Step(TwoCaches(), FirstStore(k, msg))
  }

  lemma FirstRead(k: Key, msg: Msg)
    ensures var db := SetIndexed(Db(map[], map[], map[], map[]), k, msg, 10 * SECOND, 0, 10 * SECOND, 0);
            Live(db, k, 0) && L1Hit(db.hash[k], 0) == Hit(msg, 10 * SECOND, 10 * SECOND, 0)
  {
  }

  function FirstStore(k: Key, msg: Msg): Act<nat> {
    Store(0, 0, k, msg, 10 * SECOND, 0, true)
  }

  /** The write of the promotion, and a wait of 19.5 seconds. */
  lemma WrittenLate(w: World<nat>, p: Promotion) returns (acts: seq<Act<nat>>, v: World<nat>)
    requires Bounded(w, 10 * SECOND) && 1 in w.l0 && w.l0[1] == Empty<nat>(1, 10 * SECOND)
    requires p in w.seen && p.remaining == 10 * SECOND
    ensures CanRun(w, acts, 10 * SECOND) && v == Run(w, acts, 10 * SECOND)
    ensures v.log == w.log && v.now == w.now + 20 * SECOND - SECOND / 2
    ensures 1 in v.l0 && CachesWeak(v.l0) && Lookup(v.l0[1], p.key, v.now).Some?
  {
    var g := 10 * SECOND;
    FirstPut(w.l0[1], PutOp(1, p.key, p.msg, p.remaining, p.storedTTL, p.authTTL, w.now));
    var act: Act<nat>, wait: Act<nat> := Promote(1, 1, p), Tick(20 * SECOND - SECOND / 2);
    StepKeepsBounded(w, act, g);
    var u := Step(w, act);
    StepKeepsBounded(u, wait, g);
    v := Step(u, wait);
    RunsOn(u, wait, [], g);
    RunsOn(w, act, [wait], g);
    acts := [act] + [wait];
  }

  /** A message is stored with a TTL of 10 s through one cache, and looked up at once through another, which writes it a
      second later: half a second after TTL and grace period of the store are over, that cache still serves it. */
  lemma ServedTooLong(k: Key, msg: Msg) returns (acts: seq<Act<nat>>, v: World<nat>)
    ensures CanRun(TwoCaches(), acts, 10 * SECOND) && v == Run(TwoCaches(), acts, 10 * SECOND)
    ensures v.log == {Record(k, msg, 0, 10 * SECOND)}
    ensures 1 in v.l0 && CachesWeak(v.l0) && Lookup(v.l0[1], k, v.now).Some?
    ensures v.now == Latest(Record(k, msg, 0, 10 * SECOND), 10 * SECOND) + SECOND / 2
  {
    acts, v := WrittenLate(Looked(k, msg), Promotion(k, msg, 10 * SECOND, 10 * SECOND, 0, 0));
    acts, v := FromLookup(k, msg, acts);
    acts, v := FromStart(k, msg, acts);
    HalfASecondLate(k, msg, v.now);
  }

  lemma HalfASecondLate(k: Key, msg: Msg, now: Time)
    requires now == SECOND + 20 * SECOND - SECOND / 2
    ensures now == Latest(Record(k, msg, 0, 10 * SECOND), 10 * SECOND) + SECOND / 2
  {
  }

  lemma FromLookup(k: Key, msg: Msg, rest: seq<Act<nat>>) returns (acts: seq<Act<nat>>, v: World<nat>)
    requires CanRun(Looked(k, msg), rest, 10 * SECOND)
    ensures CanRun(LookedUp(k, msg), acts, 10 * SECOND)
    ensures v == Run(LookedUp(k, msg), acts, 10 * SECOND) == Run(Looked(k, msg), rest, 10 * SECOND)
  {
    var u := LookedUp(k, msg);
    StepKeepsBounded(u, ReadL1(k), 10 * SECOND);
    RunsOn(Step(u, ReadL1(k)), Tick(SECOND), rest, 10 * SECOND);
    RunsOn(u, ReadL1(k), [Tick(SECOND)] + rest, 10 * SECOND);
    acts := [ReadL1(k)] + ([Tick(SECOND)] + rest);
    v := Run(u, acts, 10 * SECOND);
  }

  lemma FromStart(k: Key, msg: Msg, rest: seq<Act<nat>>) returns (acts: seq<Act<nat>>, v: World<nat>)
    requires CanRun(LookedUp(k, msg), rest, 10 * SECOND)
    ensures CanRun(TwoCaches(), acts, 10 * SECOND)
    ensures v == Run(TwoCaches(), acts, 10 * SECOND) == Run(LookedUp(k, msg), rest, 10 * SECOND)
  {
    RunsOn(TwoCaches(), FirstStore(k, msg), rest, 10 * SECOND);
    acts := [FirstStore(k, msg)] + rest;
    v := Run(TwoCaches(), acts, 10 * SECOND);
  }

  /** A store is read back from the shared tier for its TTL and grace period, and not after; the time left is at most
      what the TTL leaves, and less than a second short of it. */
  lemma StoreReadBack(db: Db, k: Key, msg: Msg, ttl: Duration, authTTL: Duration, grace: Duration, t: Time, now: Time)
    requires ttl > 0 && grace >= 0
    ensures var after := SetIndexed(db, k, msg, ttl, authTTL, grace, t);
            && (Live(after, k, now) <==> now < t + ttl + grace)
            && var hit := L1Hit(after.hash[k], now);
               hit.msg == msg && t + ttl - now - SECOND < hit.remaining <= t + ttl - now
               && hit.storedTTL <= ttl < hit.storedTTL + SECOND
  {
    UnixBelow(t + ttl);
    UnixBelow(ttl);
  }

  /** The authoritative TTL read back from the store is the one just stored, in whole seconds, except when
      none was given and the key's hash was still there with one: HSET leaves the old field in place. */
  lemma AuthTTLReadBackIff(db: Db, k: Key, msg: Msg, ttl: Duration, authTTL: Duration, grace: Duration, now: Time)
    requires ttl > 0 && grace >= 0 && authTTL >= 0
    ensures var after := SetIndexed(db, k, msg, ttl, authTTL, grace, now);
            && Live(after, k, now)
            && (L1Hit(after.hash[k], now).authTTL == Unix(authTTL) * SECOND <==>
                  authTTL > 0 || !(Live(db, k, now) && db.hash[k].authTTL.Some? && db.hash[k].authTTL.value > 0))
  {
  }
}
