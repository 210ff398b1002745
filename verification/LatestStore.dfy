/** Is a hit the latest store of its key? One instance that can reach the store, and whose lookups and promotions are
    one step; and a run in which they are two. */
module LatestStore {
  import opened Types
  import opened Sieve
  import opened SieveRuns
  import opened Redis
  import TwoTier

  /** `puts` and `stored` are history: the latest write of each key in memory, and the message of the latest
      store of each key since it was deleted. */
  datatype World<!E> = World(now: Time, l0: State<E>, db: Db, puts: map<Key, Latest>, stored: map<Key, Msg>)

  datatype Act<E> =
    | Tick(d: Duration)
    | Store(e: E, k: Key, msg: Msg, ttl: Duration, authTTL: Duration)
    | Ask(e: E, k: Key)
    | Delete(k: Key)
    | Local(op: Op<E>)

  ghost predicate Can<E>(w: World<E>, act: Act<E>) {
    match act
    case Tick(d) => d >= 0
    case Store(e, k, msg, ttl, auth) => ttl > 0 && Enabled(w.l0, TwoTier.PutOp(e, k, msg, ttl, ttl, auth, w.now))
    case Ask(e, k) => e !in w.l0.ent
    case Delete(_) => true
    case Local(op) => !op.OpPut?
  }

  /** One operation in memory. */
  ghost function Apply<E>(w: World<E>, op: Op<E>): (v: World<E>)
    requires Weak(w.l0) && Enabled(w.l0, op)
    ensures Weak(v.l0) && (forall x <- v.l0.ent :: x in w.l0.ent || (op.OpPut? && x == op.e))
    ensures v.now == w.now && v.db == w.db && v.stored == w.stored
  {
    StepKeepsWeak(w.l0, op);
    NoNewElement(w.l0, op);
    w.(l0 := SieveRuns.Step(w.l0, op), puts := StepLatest(w.puts, op))
  }

  lemma NoNewElement<E>(s: State<E>, op: Op<E>)
    requires Weak(s) && Enabled(s, op)
    ensures forall x <- SieveRuns.Step(s, op).ent :: x in s.ent || (op.OpPut? && x == op.e)
  {
    if op.OpPut? && Stores(op) && op.k !in s.cache && |s.ll| == s.cap {
      var d := PutIs(s, op);
      var v, t := PutEvicts(s, op.e, d);
    }
  }

  /** The promotion of what the store says, if it says anything. */
  ghost function Promotion<E>(w: World<E>, e: E, k: Key): Op<E>
    requires Live(w.db, k, w.now)
  {
    var hit := TwoTier.L1Hit(w.db.hash[k], w.now);
    TwoTier.PutOp(e, k, hit.msg, hit.remaining, hit.storedTTL, hit.authTTL, w.now)
  }

  ghost function Step<E>(w: World<E>, act: Act<E>): (v: World<E>)
    requires Weak(w.l0) && Can(w, act)
    ensures Weak(v.l0)
  {
    match act
    case Tick(d) => w.(now := w.now + d)
    case Store(e, k, msg, ttl, auth) =>
      var v := Apply(w, TwoTier.PutOp(e, k, msg, ttl, ttl, auth, w.now));
      v.(db := SetIndexed(w.db, k, msg, ttl, auth, Min(ttl, w.l0.grace), w.now), stored := w.stored[k := msg])
    case Ask(e, k) =>
      var v := Apply(w, OpGet(k, w.now));
      if Lookup(w.l0, k, w.now).Some? || !Live(w.db, k, w.now) then v else Apply(v, Promotion(v, e, k))
    case Delete(k) =>
      var v := Apply(w, OpDelete(k));
      v.(db := DeleteKey(w.db, k), stored := w.stored - {k})
    case Local(op) => Apply(w, op)
  }

  /** What GetWithTTL answers. */
  ghost function Answer<E>(w: World<E>, k: Key): Option<Hit>
    requires Weak(w.l0)
  {
    var local := Lookup(w.l0, k, w.now);
    if local.Some? then local else if Live(w.db, k, w.now) then Some(TwoTier.L1Hit(w.db.hash[k], w.now)) else None
  }

  // ---------- The invariant ----------

  ghost predicate UpToDate<E>(w: World<E>) {
    && Weak(w.l0) && Agrees(w.l0, w.puts)
    && (forall k <- w.puts :: k in w.stored && w.puts[k].msg == w.stored[k])
    && (forall k <- w.db.hash :: k in w.stored && w.db.hash[k].msg == w.stored[k])
  }

  lemma ApplyKeeps<E>(w: World<E>, op: Op<E>)
    requires UpToDate(w) && Enabled(w.l0, op) && (Stores(op) ==> op.k in w.stored && op.msg.value == w.stored[op.k])
    ensures UpToDate(Apply(w, op))
  {
    StepAgrees(w.l0, op, w.puts);
  }

  lemma StoreKeeps<E>(w: World<E>, act: Act<E>)
    requires UpToDate(w) && Can(w, act) && act.Store?
    ensures UpToDate(Step(w, act))
  {
    StepAgrees(w.l0, TwoTier.PutOp(act.e, act.k, act.msg, act.ttl, act.ttl, act.authTTL, w.now), w.puts);
  }

  lemma AskKeeps<E>(w: World<E>, act: Act<E>)
    requires UpToDate(w) && Can(w, act) && act.Ask?
    ensures UpToDate(Step(w, act))
  {
    var v := Apply(w, OpGet(act.k, w.now));
    ApplyKeeps(w, OpGet(act.k, w.now));
    if Lookup(w.l0, act.k, w.now).None? && Live(w.db, act.k, w.now) {
      ApplyKeeps(v, Promotion(v, act.e, act.k));
    }
  }

  lemma DeleteKeeps<E>(w: World<E>, act: Act<E>)
    requires UpToDate(w) && Can(w, act) && act.Delete?
    ensures UpToDate(Step(w, act))
  {
    StepAgrees(w.l0, OpDelete(act.k), w.puts);
  }

  lemma StepKeepsUpToDate<E>(w: World<E>, act: Act<E>)
    requires UpToDate(w) && Can(w, act)
    ensures UpToDate(Step(w, act))
  {
    match act
    case Tick(_) =>
    case Store(_, _, _, _, _) => StoreKeeps(w, act);
    case Ask(_, _) => AskKeeps(w, act);
    case Delete(_) => DeleteKeeps(w, act);
    case Local(op) => ApplyKeeps(w, op);
  }

  ghost predicate CanRun<E>(w: World<E>, acts: seq<Act<E>>)
    requires Weak(w.l0)
    decreases |acts|
  {
    acts == [] || (Can(w, acts[0]) && CanRun(Step(w, acts[0]), acts[1..]))
  }

  ghost function Run<E>(w: World<E>, acts: seq<Act<E>>): (v: World<E>)
    requires Weak(w.l0) && CanRun(w, acts)
    ensures Weak(v.l0)
    decreases |acts|
  {
    if acts == [] then w else Run(Step(w, acts[0]), acts[1..])
  }

  lemma {:induction false} RunKeepsUpToDate<E>(w: World<E>, acts: seq<Act<E>>)
    requires UpToDate(w) && CanRun(w, acts)
    ensures UpToDate(Run(w, acts))
    decreases |acts|
  {
    if acts != [] {
      StepKeepsUpToDate(w, acts[0]);
      RunKeepsUpToDate(Step(w, acts[0]), acts[1..]);
    }
  }

  /** In every run from empty tiers, whatever a lookup answers is the latest store of the key, and a deleted key has no
      answer until it is stored again. */
  lemma AnswerIsLatest<E>(cap: nat, grace: Duration, now: Time, acts: seq<Act<E>>, k: Key) returns (v: World<E>)
    requires cap >= 1
    requires CanRun(World(now, Empty<E>(cap, grace), Db(map[], map[], map[], map[]), map[], map[]), acts)
    ensures v == Run(World(now, Empty<E>(cap, grace), Db(map[], map[], map[], map[]), map[], map[]), acts)
    ensures match Answer(v, k)
            case None => true
            case Some(hit) => k in v.stored && hit.msg == v.stored[k]
  {
    var w := World(now, Empty<E>(cap, grace), Db(map[], map[], map[], map[]), map[], map[]);
    RunKeepsUpToDate(w, acts);
    v := Run(w, acts);
  }

  // ---------- Two steps ----------

  /** A lookup of the store, a newer store through the same cache, and then the write of the promotion: the older
      message is back, while the store has the newer one. */
  lemma PromotionBringsBackOld(w: TwoTier.World<nat>, g: Duration, c: nat, k: Key, newer: Msg, ttl: Duration)
    returns (acts: seq<TwoTier.Act<nat>>, v: TwoTier.World<nat>)
    requires TwoTier.Bounded(w, g) && c in w.l0 && w.l0[c] == Empty<nat>(1, g) && ttl > 0
    requires g >= 0 && Live(w.db, k, w.now) && TwoTier.L1Hit(w.db.hash[k], w.now).remaining > 0
    ensures TwoTier.CanRun(w, acts, g) && v == TwoTier.Run(w, acts, g)
    ensures k in v.db.hash && v.db.hash[k].msg == newer
    ensures c in v.l0 && Weak(v.l0[c]) && Lookup(v.l0[c], k, v.now).Some?
    ensures Lookup(v.l0[c], k, v.now).value.msg == w.db.hash[k].msg
  {
    var p := TwoTier.PromotionOf(k, TwoTier.L1Hit(w.db.hash[k], w.now), w.now);
    var ask: TwoTier.Act<nat> := TwoTier.ReadL1(k);
    var store: TwoTier.Act<nat> := TwoTier.Store(c, 0, k, newer, ttl, 0, true);
    var write: TwoTier.Act<nat> := TwoTier.Promote(c, 1, p);
    TwoTier.StepKeepsBounded(w, ask, g);
    var w1 := TwoTier.Step(w, ask);
    var w2 := StoredNewer(w1, store, g);
    v := WrittenBack(w2, write, g);
    acts := ThreeSteps(w, ask, w1, store, w2, write, v, g);
  }

  lemma ThreeSteps(w: TwoTier.World<nat>, a: TwoTier.Act<nat>, w1: TwoTier.World<nat>, b: TwoTier.Act<nat>,
                   w2: TwoTier.World<nat>, c: TwoTier.Act<nat>, v: TwoTier.World<nat>, g: Duration)
    returns (acts: seq<TwoTier.Act<nat>>)
    requires TwoTier.Bounded(w, g) && TwoTier.Bounded(w1, g) && TwoTier.Bounded(w2, g) && TwoTier.Bounded(v, g)
    requires TwoTier.Can(w, a) && w1 == TwoTier.Step(w, a) && TwoTier.Can(w1, b) && w2 == TwoTier.Step(w1, b)
    requires TwoTier.Can(w2, c) && v == TwoTier.Step(w2, c)
    ensures TwoTier.CanRun(w, acts, g) && v == TwoTier.Run(w, acts, g)
  {
    TwoTier.RunsOn(w2, c, [], g);
    TwoTier.RunsOn(w1, b, [c], g);
    TwoTier.RunsOn(w, a, [b] + [c], g);
    acts := [a] + ([b] + [c]);
  }

  /** From two empty caches: the second serves the older of two messages, although both were stored in turn and the
      store has the newer one. */
  lemma OldComesBack(k: Key, older: Msg, newer: Msg) returns (acts: seq<TwoTier.Act<nat>>, v: TwoTier.World<nat>)
    ensures TwoTier.CanRun(TwoTier.TwoCaches(), acts, 10 * SECOND)
    ensures v == TwoTier.Run(TwoTier.TwoCaches(), acts, 10 * SECOND)
    ensures k in v.db.hash && v.db.hash[k].msg == newer && 1 in v.l0 && Weak(v.l0[1])
    ensures Lookup(v.l0[1], k, v.now).Some? && Lookup(v.l0[1], k, v.now).value.msg == older
  {
    var w := TwoTier.LookedUp(k, older);
    acts, v := PromotionBringsBackOld(w, 10 * SECOND, 1, k, newer, 10 * SECOND);
    acts, v := TwoTier.FromStart(k, older, acts);
  }

  lemma StoredNewer(w: TwoTier.World<nat>, act: TwoTier.Act<nat>, g: Duration) returns (v: TwoTier.World<nat>)
    requires TwoTier.Bounded(w, g) && act.Store? && act.toL1 && act.ttl > 0
    requires act.c in w.l0 && w.l0[act.c] == Empty<nat>(1, g)
    ensures TwoTier.Can(w, act) && v == TwoTier.Step(w, act) && TwoTier.Bounded(v, g)
    ensures v.now == w.now && v.seen == w.seen && act.k in v.db.hash && v.db.hash[act.k].msg == act.msg
    ensures act.c in v.l0 && act.k in v.l0[act.c].cache && v.l0[act.c].grace == g
  {
    var op := TwoTier.PutOp(act.e, act.k, act.msg, act.ttl, act.ttl, act.authTTL, w.now);
    TwoTier.FirstPut(w.l0[act.c], op);
    TwoTier.StepKeepsBounded(w, act, g);
    v := TwoTier.Step(w, act);
  }

  lemma WrittenBack(w: TwoTier.World<nat>, act: TwoTier.Act<nat>, g: Duration) returns (v: TwoTier.World<nat>)
    requires TwoTier.Bounded(w, g) && act.Promote? && act.p in w.seen && act.p.remaining > 0 && g >= 0
    requires act.c in w.l0 && act.p.key in w.l0[act.c].cache && w.l0[act.c].grace == g
    ensures TwoTier.Can(w, act) && v == TwoTier.Step(w, act) && TwoTier.Bounded(v, g)
    ensures v.now == w.now && v.db == w.db
    ensures act.c in v.l0 && Weak(v.l0[act.c]) && Lookup(v.l0[act.c], act.p.key, v.now).Some?
    ensures Lookup(v.l0[act.c], act.p.key, v.now).value.msg == act.p.msg
  {
    var s := w.l0[act.c];
    var op := TwoTier.PutOp(act.e, act.p.key, act.p.msg, act.p.remaining, act.p.storedTTL, act.p.authTTL, w.now);
    var t := PutReadBack(s, op, w.now);
    TwoTier.StepKeepsBounded(w, act, g);
    v := TwoTier.Step(w, act);
    assert v.l0[act.c] == t;
  }
}
