/** What every run of the refresh protocol keeps. */
module RefreshProofs {
  import opened Types
  import opened Servfail
  import opened RefreshProtocol
  import Redis

  // ---------- Semaphore tokens ----------

  /** On each instance the semaphore counts exactly the attempts that hold a token, and never more
      than it has room for. */
  ghost predicate TokensMatch(w: World) {
    && (forall a <- w.attempts :: w.attempts[a].inst in w.insts)
    && forall i <- w.insts ::
         match w.insts[i].cfg.maxInflight
         case None => w.insts[i].sem == 0
         case Some(max) => w.insts[i].sem == |Holders(w, i)| <= max
  }

  lemma MoveHolders(w: World, a: nat, p: Phase, i: nat)
    requires a in w.attempts
    ensures Holders(Move(w, a, p), i) ==
            if w.attempts[a].inst != i then Holders(w, i)
            else if HoldsToken(p) then Holders(w, i) + {a} else Holders(w, i) - {a}
  {
  }

  lemma AddRemove(s: set<nat>, a: nat)
    ensures a in s ==> s + {a} == s && |s - {a}| == |s| - 1
    ensures a !in s ==> s - {a} == s && |s + {a}| == |s| + 1
  {
  }

  /** A step of attempt `a` to phase `p` that adds `n` tokens, and changes nothing else of the instances but
      trackers. */
  lemma MoveTokens(w: World, a: nat, p: Phase, n: int, v: World)
    requires TokensMatch(w) && At(w, a)
    requires v.attempts == Move(w, a, p).attempts && v.insts.Keys == w.insts.Keys
    requires n == (if HoldsToken(p) then 1 else 0) - (if HoldsToken(w.attempts[a].phase) then 1 else 0)
    requires n > 0 ==> !Full(w.insts[w.attempts[a].inst])
    requires forall i <- w.insts :: v.insts[i].cfg == w.insts[i].cfg
               && v.insts[i].sem == if i == w.attempts[a].inst then AddToken(w.insts[i], n).sem else w.insts[i].sem
    ensures TokensMatch(v)
  {
    forall i <- v.insts
      ensures match v.insts[i].cfg.maxInflight
              case None => v.insts[i].sem == 0
              case Some(max) => v.insts[i].sem == |Holders(v, i)| <= max
    {
      MoveHolders(w, a, p, i);
      assert Holders(v, i) == Holders(Move(w, a, p), i);
      if i == w.attempts[a].inst {
        assert a in Holders(w, i) <==> HoldsToken(w.attempts[a].phase);
        AddRemove(Holders(w, i), a);
      }
    }
  }

  lemma SameTokens(w: World, v: World)
    requires TokensMatch(w) && v.attempts == w.attempts && v.insts.Keys == w.insts.Keys
    requires forall i <- w.insts :: v.insts[i].cfg == w.insts[i].cfg && v.insts[i].sem == w.insts[i].sem
    ensures TokensMatch(v)
  {
    forall i <- w.insts ensures Holders(v, i) == Holders(w, i) {
    }
  }

  lemma MoveKeepsTokens(w: World, act: Act)
    requires TokensMatch(w) && Can(w, act)
    requires act.PassBackoff? || act.GiveUp? || act.TryLock? || act.Issue? || act.Reply? || act.Release?
    ensures TokensMatch(Step(w, act))
  {
    var v := Step(w, act);
    MoveTokens(w, act.a, v.attempts[act.a].phase, 0, v);
  }

  lemma BackoffKeepsTokens(w: World, act: Act)
    requires TokensMatch(w) && Can(w, act) && act.RecordBackoff?
    ensures TokensMatch(Step(w, act))
  {
    var v := Step(w, act);
    MoveTokens(w, act.a, v.attempts[act.a].phase, 0, v);
  }

  lemma OutcomeKeepsTokens(w: World, act: Act)
    requires TokensMatch(w) && Can(w, act) && act.RecordOutcome?
    ensures TokensMatch(Step(w, act))
  {
    var v := Step(w, act);
    MoveTokens(w, act.a, v.attempts[act.a].phase, 0, v);
  }

  lemma SemaphoreKeepsTokens(w: World, act: Act)
    requires TokensMatch(w) && Can(w, act) && (act.TakeToken? || act.GiveBack? || act.ReturnToken?)
    ensures TokensMatch(Step(w, act))
  {
    var v := Step(w, act);
    MoveTokens(w, act.a, v.attempts[act.a].phase, if act.TakeToken? then 1 else -1, v);
  }

  lemma BeginKeepsTokens(w: World, act: Act)
    requires TokensMatch(w) && Can(w, act) && act.Begin?
    ensures TokensMatch(Step(w, act))
  {
    var v := Step(w, act);
    forall j <- w.insts ensures Holders(v, j) == Holders(w, j) {
    }
  }

  lemma StepKeepsTokens(w: World, act: Act)
    requires TokensMatch(w) && Can(w, act)
    ensures TokensMatch(Step(w, act))
  {
    if act.Tick? || act.HandlerServfail? || act.Prune? || act.DropLock? {
      SameTokens(w, Step(w, act));
    } else if act.Begin? {
      BeginKeepsTokens(w, act);
    } else if act.TakeToken? || act.GiveBack? || act.ReturnToken? {
      SemaphoreKeepsTokens(w, act);
    } else if act.RecordBackoff? {
      BackoffKeepsTokens(w, act);
    } else if act.RecordOutcome? {
      OutcomeKeepsTokens(w, act);
    } else {
      MoveKeepsTokens(w, act);
    }
  }

  lemma {:induction false} RunKeepsTokens(w: World, acts: seq<Act>)
    requires TokensMatch(w) && CanRun(w, acts)
    ensures TokensMatch(Run(w, acts))
    decreases |acts|
  {
    if acts != [] {
      StepKeepsTokens(w, acts[0]);
      RunKeepsTokens(Step(w, acts[0]), acts[1..]);
    }
  }

  lemma InitTokens(w: World)
    requires Init(w)
    ensures TokensMatch(w)
  {
    forall i <- w.insts ensures Holders(w, i) == {} {
    }
  }

  lemma TokensOf(w: World, i: nat)
    requires TokensMatch(w) && i in w.insts && w.insts[i].cfg.maxInflight.Some?
    ensures w.insts[i].sem == |Holders(w, i)| <= w.insts[i].cfg.maxInflight.value
  {
  }

  /** In every interleaving from the start, each semaphore counts its token holders and stays within its size. */
  lemma TokensFromStart(w: World, acts: seq<Act>, i: nat) returns (v: World)
    requires Init(w) && CanRun(w, acts)
    ensures v == Run(w, acts)
    ensures i in v.insts && v.insts[i].cfg.maxInflight.Some? ==>
              v.insts[i].sem == |Holders(v, i)| <= v.insts[i].cfg.maxInflight.value
  {
    InitTokens(w);
    RunKeepsTokens(w, acts);
    v := Run(w, acts);
    if i in v.insts && v.insts[i].cfg.maxInflight.Some? {
      TokensOf(v, i);
    }
  }

  // ---------- One refresh of a key at a time ----------

  /** The lock of attempt `a`'s key is there, is its own, and has not run out. */
  ghost predicate Owns(w: World, a: nat)
    requires At(w, a) && InFlight(w.attempts[a].phase)
  {
    var x := w.attempts[a];
    && Live(w, x.key)
    && w.locks[x.key] == Lock(Some(a), x.phase.at + LockTTL(w.insts[x.inst].cfg))
  }

  ghost predicate Exclusive(w: World) {
    && (forall a <- w.attempts :: w.attempts[a].inst in w.insts)
    && forall a <- w.attempts ::
         InFlight(w.attempts[a].phase) && w.attempts[a].key !in w.tainted ==> Owns(w, a)
  }

  /** For an untainted key: one refresh in flight at most, and while it is, no other attempt can get the lock. */
  lemma ExclusiveMeans(w: World, k: Key)
    requires Exclusive(w) && k !in w.tainted
    ensures |Flying(w, k)| <= 1
    ensures Flying(w, k) != {} ==> Live(w, k)
    ensures forall a <- Flying(w, k) :: w.locks[k].owner == Some(a)
  {
    if a :| a in Flying(w, k) {
      assert Owns(w, a);
      forall b <- Flying(w, k) ensures b == a {
        assert Owns(w, b);
      }
      assert Flying(w, k) == {a};
    }
  }

  ghost predicate SameConfigs(w: World, v: World) {
    v.insts.Keys == w.insts.Keys && forall i <- w.insts :: v.insts[i].cfg == w.insts[i].cfg
  }

  /** A step that leaves the locks alone and neither starts nor ends a flight. */
  lemma QuietMove(w: World, a: nat, p: Phase, v: World)
    requires Exclusive(w) && At(w, a) && v.attempts == Move(w, a, p).attempts
    requires v.locks == w.locks && v.now == w.now && v.tainted == w.tainted && SameConfigs(w, v)
    requires InFlight(p) ==> InFlight(w.attempts[a].phase) && p.at == w.attempts[a].phase.at
    ensures Exclusive(v)
  {
    forall b <- v.attempts | InFlight(v.attempts[b].phase) && v.attempts[b].key !in v.tainted ensures Owns(v, b) {
      assert Owns(w, b);
    }
  }

  lemma QuietInsts(w: World, v: World)
    requires Exclusive(w) && v.attempts == w.attempts
    requires v.locks == w.locks && v.now == w.now && v.tainted == w.tainted && SameConfigs(w, v)
    ensures Exclusive(v)
  {
    forall b <- v.attempts | InFlight(v.attempts[b].phase) && v.attempts[b].key !in v.tainted ensures Owns(v, b) {
      assert Owns(w, b);
    }
  }

  lemma BeforeFlight(w: World, act: Act)
    requires Exclusive(w) && Can(w, act)
    requires act.PassBackoff? || act.GiveUp? || act.TakeToken? || act.GiveBack?
    ensures Exclusive(Step(w, act))
  {
    var v := Step(w, act);
    QuietMove(w, act.a, v.attempts[act.a].phase, v);
  }

  lemma DuringFlight(w: World, act: Act)
    requires Exclusive(w) && Can(w, act)
    requires act.Issue? || act.Reply? || act.RecordBackoff? || act.RecordOutcome? || act.ReturnToken?
    ensures Exclusive(Step(w, act))
  {
    var v := Step(w, act);
    QuietMove(w, act.a, v.attempts[act.a].phase, v);
  }

  lemma BeginKeepsExclusive(w: World, act: Act)
    requires Exclusive(w) && Can(w, act) && act.Begin?
    ensures Exclusive(Step(w, act))
  {
    var v := Step(w, act);
    forall b <- v.attempts | InFlight(v.attempts[b].phase) && v.attempts[b].key !in v.tainted ensures Owns(v, b) {
      assert Owns(w, b);
    }
  }

  lemma TickKeepsExclusive(w: World, act: Act)
    requires Exclusive(w) && Can(w, act) && act.Tick?
    ensures Exclusive(Step(w, act))
  {
    var v := Step(w, act);
    forall a <- v.attempts | InFlight(v.attempts[a].phase) && v.attempts[a].key !in v.tainted ensures Owns(v, a) {
      assert Owns(w, a);
      assert w.attempts[a].key !in Overrun(w, v.now);
    }
  }

  lemma TryLockKeepsExclusive(w: World, act: Act)
    requires Exclusive(w) && Can(w, act) && act.TryLock?
    ensures Exclusive(Step(w, act))
  {
    var v := Step(w, act);
    forall a <- v.attempts | InFlight(v.attempts[a].phase) && v.attempts[a].key !in v.tainted ensures Owns(v, a) {
      if a != act.a {
        assert Owns(w, a);
      }
    }
  }

  lemma ReleaseKeepsExclusive(w: World, act: Act)
    requires Exclusive(w) && Can(w, act) && act.Release?
    ensures Exclusive(Step(w, act))
  {
    var v := Step(w, act);
    var k := w.attempts[act.a].key;
    assert k !in w.tainted ==> Owns(w, act.a);
    forall b <- v.attempts | InFlight(v.attempts[b].phase) && v.attempts[b].key !in v.tainted ensures Owns(v, b) {
      assert b in Flying(Move(w, act.a, Done), v.attempts[b].key);
      assert v.attempts[b].key !in w.tainted;
      assert Owns(w, b);
    }
  }

  lemma DropKeepsExclusive(w: World, act: Act)
    requires Exclusive(w) && Can(w, act) && act.DropLock?
    ensures Exclusive(Step(w, act))
  {
    var v := Step(w, act);
    forall a <- v.attempts | InFlight(v.attempts[a].phase) && v.attempts[a].key !in v.tainted ensures Owns(v, a) {
      assert a in Flying(w, v.attempts[a].key);
      assert Owns(w, a);
    }
  }

  lemma StepKeepsExclusive(w: World, act: Act)
    requires Exclusive(w) && Can(w, act)
    ensures Exclusive(Step(w, act))
  {
    if act.Tick? {
      TickKeepsExclusive(w, act);
    } else if act.TryLock? {
      TryLockKeepsExclusive(w, act);
    } else if act.Release? {
      ReleaseKeepsExclusive(w, act);
    } else if act.DropLock? {
      DropKeepsExclusive(w, act);
    } else if act.Begin? {
      BeginKeepsExclusive(w, act);
    } else if act.HandlerServfail? || act.Prune? {
      QuietInsts(w, Step(w, act));
    } else if act.PassBackoff? || act.GiveUp? || act.TakeToken? || act.GiveBack? {
      BeforeFlight(w, act);
    } else {
      DuringFlight(w, act);
    }
  }

  /** In every run, of any number of instances: a key that is not tainted has at most one refresh in flight. */
  lemma {:induction false} RunKeepsExclusive(w: World, acts: seq<Act>)
    requires Exclusive(w) && CanRun(w, acts)
    ensures Exclusive(Run(w, acts))
    decreases |acts|
  {
    if acts != [] {
      StepKeepsExclusive(w, acts[0]);
      RunKeepsExclusive(Step(w, acts[0]), acts[1..]);
    }
  }

  /** While an untainted refresh is in flight, another attempt can get the lock after a wait of `d` exactly when
      the wait takes the lock past its TTL; then two refreshes of the key are in flight. */
  lemma SecondRefreshIff(w: World, a: nat, b: nat, d: Duration)
    requires Exclusive(w) && At(w, a) && At(w, b) && d >= 0
    requires InFlight(w.attempts[a].phase) && w.attempts[b].phase.Token? && w.attempts[a].key == w.attempts[b].key
    requires w.attempts[a].key !in w.tainted
    ensures var x := w.attempts[a]; var v := Step(w, Tick(d)); var again := TryLock(b, Acquired);
            && (Can(v, again) <==> w.now + d >= x.phase.at + LockTTL(w.insts[x.inst].cfg))
            && (Can(v, again) ==> {a, b} <= Flying(Step(v, again), x.key) && x.key in v.tainted)
  {
    assert Owns(w, a);
    var v := Step(w, Tick(d));
    if Can(v, TryLock(b, Acquired)) {
      assert a in v.attempts && At(w, a);
    }
  }

  /** Every refresh ends within its lock's TTL, and no lock is dropped under a refresh. */
  ghost predicate Disciplined(w: World, acts: seq<Act>)
    requires CanRun(w, acts)
    decreases |acts|
  {
    acts == [] ||
    (&& (acts[0].Tick? ==> Overrun(w, w.now + acts[0].d) == {})
     && (acts[0].DropLock? ==> Flying(w, acts[0].k) == {})
     && Disciplined(Step(w, acts[0]), acts[1..]))
  }

  lemma {:induction false} DisciplinedStaysClean(w: World, acts: seq<Act>)
    requires Exclusive(w) && w.tainted == {} && CanRun(w, acts) && Disciplined(w, acts)
    ensures Run(w, acts).tainted == {} && Exclusive(Run(w, acts))
    decreases |acts|
  {
    if acts != [] {
      StepKeepsExclusive(w, acts[0]);
      assert Step(w, acts[0]).tainted == {};
      DisciplinedStaysClean(Step(w, acts[0]), acts[1..]);
    }
  }

  /** In a disciplined run each key has one refresh in flight at most, and its lock is that refresh's own, so
      that each release deletes no other's lock. */
  lemma DisciplinedRun(w: World, acts: seq<Act>, k: Key)
    requires Init(w) && CanRun(w, acts) && Disciplined(w, acts)
    ensures var v := Run(w, acts);
            |Flying(v, k)| <= 1 && forall a <- Flying(v, k) :: k in v.locks && v.locks[k].owner == Some(a)
  {
    DisciplinedStaysClean(w, acts);
    ExclusiveMeans(Run(w, acts), k);
  }

  // ---------- The store's locks ----------

  /** The store holds the locks of the world, and knows nothing of owners. */
  ghost predicate SameLocks(w: World, db: Redis.Db) {
    db.locks == map k | k in w.locks :: w.locks[k].until
  }

  /** SETNX, DEL and DeleteCacheKey do to the locks of a world what they do to those of the store. */
  lemma LocksAreTheStores(w: World, db: Redis.Db, act: Act)
    requires SameLocks(w, db) && Can(w, act)
    ensures forall k :: Live(w, k) <==> Redis.LockHeld(db, k, w.now)
    ensures act.TryLock? && act.res.Acquired? ==>
              var k := w.attempts[act.a].key;
              && !Redis.LockHeld(db, k, w.now)
              && SameLocks(Step(w, act), Redis.SetLock(db, k, w.insts[w.attempts[act.a].inst].cfg.lockTTL, w.now))
    ensures act.TryLock? && act.res.Busy? ==>
              Redis.LockHeld(db, w.attempts[act.a].key, w.now) && SameLocks(Step(w, act), db)
    ensures act.Release? && act.deleted ==>
              SameLocks(Step(w, act), db.(locks := db.locks - {w.attempts[act.a].key}))
    ensures act.DropLock? ==> SameLocks(Step(w, act), Redis.DeleteKey(db, act.k))
  {
  }

  // ---------- An attempt goes forward only ----------

  function Rank(p: Phase): nat {
    match p
    case Passed => 0
    case Cleared => 1
    case Token => 2
    case Denied => 3
    case Locked(_) => 3
    case Asked(_) => 4
    case Replied(_, _) => 5
    case BackedOff(_) => 6
    case Recorded(_) => 7
    case Returned(_) => 8
    case Done => 9
  }

  ghost predicate GoesForward(w: World, v: World, a: nat)
    requires a in w.attempts
  {
    && a in v.attempts && v.attempts[a].inst == w.attempts[a].inst && v.attempts[a].key == w.attempts[a].key
    && (v.attempts[a].phase != w.attempts[a].phase ==> Rank(w.attempts[a].phase) < Rank(v.attempts[a].phase))
  }

  /** The step belongs to an attempt whose lock is not yet taken. */
  predicate Early(act: Act) {
    act.Begin? || act.PassBackoff? || act.GiveUp? || act.TakeToken? || act.TryLock? || act.GiveBack?
  }

  /** It belongs to one whose lock is taken. */
  predicate Late(act: Act) {
    act.Issue? || act.Reply? || act.ReturnToken? || act.Release?
  }

  /** It records an outcome. */
  predicate Records(act: Act) {
    act.RecordBackoff? || act.RecordOutcome?
  }

  lemma EarlyGoesForward(w: World, act: Act, a: nat)
    requires Can(w, act) && a in w.attempts && Early(act)
    ensures GoesForward(w, Step(w, act), a)
  {
  }

  lemma LateGoesForward(w: World, act: Act, a: nat)
    requires Can(w, act) && a in w.attempts && Late(act)
    ensures GoesForward(w, Step(w, act), a)
  {
  }

  lemma RecordGoesForward(w: World, act: Act, a: nat)
    requires Can(w, act) && a in w.attempts && Records(act)
    ensures GoesForward(w, Step(w, act), a)
  {
  }

  /** The clock, the trackers and a dropped lock move no attempt. */
  lemma OthersMoveNothing(w: World, act: Act)
    requires Can(w, act) && !Early(act) && !Late(act) && !Records(act)
    ensures Step(w, act).attempts == w.attempts
  {
  }

  /** A step moves at most one attempt, and never back; it holds a token from rank 2 to rank 7. */
  lemma StepGoesForward(w: World, act: Act, a: nat)
    requires Can(w, act) && a in w.attempts
    ensures GoesForward(w, Step(w, act), a)
    ensures HoldsToken(w.attempts[a].phase) <==> 2 <= Rank(w.attempts[a].phase) <= 7
  {
    if Early(act) {
      EarlyGoesForward(w, act, a);
    } else if Late(act) {
      LateGoesForward(w, act, a);
    } else if Records(act) {
      RecordGoesForward(w, act, a);
    } else {
      OthersMoveNothing(w, act);
    }
  }

  /** A token that was given back is never taken again by the same attempt. */
  lemma {:induction false} TokenReturnedOnce(w: World, acts: seq<Act>, a: nat)
    requires CanRun(w, acts) && a in w.attempts && Rank(w.attempts[a].phase) > 7
    ensures a in Run(w, acts).attempts && !HoldsToken(Run(w, acts).attempts[a].phase)
    decreases |acts|
  {
    if acts != [] {
      StepGoesForward(w, acts[0], a);
      TokenReturnedOnce(Step(w, acts[0]), acts[1..], a);
    } else {
      assert !HoldsToken(w.attempts[a].phase);
    }
  }

  // ---------- The SERVFAIL gate ----------

  /** The SERVFAIL outcomes recorded for `k` since the last accepted one. */
  ghost function Streak(log: seq<(Key, Outcome)>, k: Key): nat {
    if log == [] then 0
    else
      var last := log[|log| - 1];
      if last.0 == k && last.1.Accepted? then 0
      else Streak(log[..|log| - 1], k) + if last.0 == k && last.1.ServFail? then 1 else 0
  }

  ghost predicate CountsMatch(w: World) {
    forall i <- w.insts :: forall k: Key :: Count(w.insts[i].tracker, k) == Streak(w.insts[i].outcomes, k)
  }

  /** The step prunes no tracker that is over its cap. */
  ghost predicate BelowCap(w: World, act: Act)
    requires Can(w, act)
  {
    match act
    case RecordBackoff(a, _) => WithinCaps(Timed(w.insts[w.attempts[a].inst], w.attempts[a].key, w.now), w.now)
    case HandlerServfail(i, k, _) => WithinCaps(Timed(w.insts[i], k, w.now), w.now)
    case Prune(i, _) => WithinCaps(w.insts[i].tracker, w.now)
    case _ => true
  }

  lemma NoteKeepsCounts(inst: Inst, k: Key, got: Outcome, x: Key)
    requires Count(inst.tracker, x) == Streak(inst.outcomes, x)
    ensures Count(Note(inst, k, got).tracker, x) == Streak(Note(inst, k, got).outcomes, x)
  {
    assert (inst.outcomes + [(k, got)])[..|inst.outcomes|] == inst.outcomes;
  }

  /** A recorded SERVFAIL adds one to the count of its key, an accepted refresh clears it, and the others leave it. */
  lemma NoteCounts(inst: Inst, k: Key, got: Outcome, x: Key)
    ensures var n := Count(inst.tracker, x);
            Count(Note(inst, k, got).tracker, x) ==
              if x == k && got == ServFail then n + 1 else if x == k && got == Accepted then 0 else n
  {
  }

  /** What a backoff does to the counts: it may drop some, and drops none below the caps. */
  lemma BackoffCounts(inst: Inst, k: Key, now: Time, t: Tracker)
    requires BacksOff(inst, k, now, t)
    ensures forall x <- t.count :: x in inst.tracker.count && t.count[x] == inst.tracker.count[x]
    ensures WithinCaps(Timed(inst, k, now), now) ==> t.count == inst.tracker.count
  {
    PrunedIsBounded(Timed(inst, k, now), now, t);
    if WithinCaps(Timed(inst, k, now), now) {
      PrunedBelowCap(Timed(inst, k, now), now, t);
    }
  }

  lemma PruneCounts(inst: Inst, now: Time, t: Tracker)
    requires Pruned(inst.tracker, now, t)
    ensures forall x <- t.count :: x in inst.tracker.count && t.count[x] == inst.tracker.count[x]
    ensures WithinCaps(inst.tracker, now) ==> t.count == inst.tracker.count
  {
    PrunedIsBounded(inst.tracker, now, t);
    if WithinCaps(inst.tracker, now) {
      PrunedBelowCap(inst.tracker, now, t);
    }
  }

  /** Instance `i` has kept its configuration and log; some counts may be gone, none when `below`. */
  ghost predicate CountsKept(w: World, v: World, i: nat, below: bool)
    requires i in w.insts
  {
    && i in v.insts && v.insts[i].cfg == w.insts[i].cfg && v.insts[i].outcomes == w.insts[i].outcomes
    && (forall x <- v.insts[i].tracker.count ::
          x in w.insts[i].tracker.count && v.insts[i].tracker.count[x] == w.insts[i].tracker.count[x])
    && (below ==> v.insts[i].tracker.count == w.insts[i].tracker.count)
  }

  lemma OtherCounts(w: World, act: Act, i: nat)
    requires Can(w, act) && i in w.insts
    requires !act.RecordOutcome? && !act.RecordBackoff? && !act.HandlerServfail? && !act.Prune?
    ensures CountsKept(w, Step(w, act), i, BelowCap(w, act))
  {
    assert i in Step(w, act).insts && Step(w, act).insts[i].tracker == w.insts[i].tracker;
  }

  lemma RecordBackoffCounts(w: World, act: Act, i: nat)
    requires Can(w, act) && i in w.insts && act.RecordBackoff?
    ensures CountsKept(w, Step(w, act), i, BelowCap(w, act))
  {
    var j := w.attempts[act.a].inst;
    BackoffCounts(w.insts[j], w.attempts[act.a].key, w.now, act.t);
    assert Step(w, act).insts == w.insts[j := w.insts[j].(tracker := act.t)];
  }

  lemma HandlerCounts(w: World, act: Act, i: nat)
    requires Can(w, act) && i in w.insts && act.HandlerServfail?
    ensures CountsKept(w, Step(w, act), i, BelowCap(w, act))
  {
    BackoffCounts(w.insts[act.i], act.k, w.now, act.t);
    assert Step(w, act).insts == w.insts[act.i := w.insts[act.i].(tracker := act.t)];
  }

  lemma SweepCounts(w: World, act: Act, i: nat)
    requires Can(w, act) && i in w.insts && act.Prune?
    ensures CountsKept(w, Step(w, act), i, BelowCap(w, act))
  {
    PruneCounts(w.insts[act.i], w.now, act.t);
    assert Step(w, act).insts == w.insts[act.i := w.insts[act.i].(tracker := act.t)];
  }

  /** A step that records no outcome may drop counts of instance `i`, and drops none below the caps. */
  lemma StepCounts(w: World, act: Act, i: nat)
    requires Can(w, act) && i in w.insts && !act.RecordOutcome?
    ensures CountsKept(w, Step(w, act), i, BelowCap(w, act))
  {
    if act.RecordBackoff? {
      RecordBackoffCounts(w, act, i);
    } else if act.HandlerServfail? {
      HandlerCounts(w, act, i);
    } else if act.Prune? {
      SweepCounts(w, act, i);
    } else {
      OtherCounts(w, act, i);
    }
  }

  lemma StepKeepsCounts(w: World, act: Act)
    requires CountsMatch(w) && Can(w, act) && BelowCap(w, act)
    ensures CountsMatch(Step(w, act))
  {
    var v := Step(w, act);
    forall i <- v.insts, k: Key ensures Count(v.insts[i].tracker, k) == Streak(v.insts[i].outcomes, k) {
      if act.RecordOutcome? {
        var x := w.attempts[act.a];
        if i == x.inst {
          NoteKeepsCounts(w.insts[i], x.key, if x.phase.BackedOff? then ServFail else x.phase.got, k);
        }
      } else {
        StepCounts(w, act, i);
      }
    }
  }

  /** The outcome that an attempt records is the reply it got. A SERVFAIL is recorded as a backoff first, if backoff is
      on, and nothing else is. */
  lemma RecordsTheReply(w: World, a: nat, got: Outcome, t: Tracker)
    requires Can(w, Reply(a, got))
    ensures var x := w.attempts[a]; var u := Step(w, Reply(a, got));
            if got.ServFail? && w.insts[x.inst].cfg.backoff > 0 then
              && !Can(u, RecordOutcome(a))
              && (Can(u, RecordBackoff(a, t)) ==> Logs(Step(u, RecordBackoff(a, t)), a, w.insts[x.inst].outcomes, got))
            else
              !Can(u, RecordBackoff(a, t)) && Logs(u, a, w.insts[x.inst].outcomes, got)
  {
    var u := Step(w, Reply(a, got));
    if Can(u, RecordBackoff(a, t)) {
      assert Can(Step(u, RecordBackoff(a, t)), RecordOutcome(a));
    }
  }

  /** The attempt can record its outcome, and then the log of its instance is `log` with this one added. */
  ghost predicate Logs(w: World, a: nat, log: seq<(Key, Outcome)>, got: Outcome) {
    && Can(w, RecordOutcome(a))
    && var i := w.attempts[a].inst;
       && i in Step(w, RecordOutcome(a)).insts
       && Step(w, RecordOutcome(a)).insts[i].outcomes == log + [(w.attempts[a].key, got)]
  }

  ghost predicate AllBelowCap(w: World, acts: seq<Act>)
    requires CanRun(w, acts)
    decreases |acts|
  {
    acts == [] || (BelowCap(w, acts[0]) && AllBelowCap(Step(w, acts[0]), acts[1..]))
  }

  /** While no tracker passes its cap, each count is the number of SERVFAIL refreshes since the last accepted one. */
  lemma {:induction false} RunKeepsCounts(w: World, acts: seq<Act>)
    requires CountsMatch(w) && CanRun(w, acts) && AllBelowCap(w, acts)
    ensures CountsMatch(Run(w, acts))
    decreases |acts|
  {
    if acts != [] {
      StepKeepsCounts(w, acts[0]);
      RunKeepsCounts(Step(w, acts[0]), acts[1..]);
    }
  }

  lemma CountsFromStart(w: World, acts: seq<Act>)
    requires Init(w) && CanRun(w, acts) && AllBelowCap(w, acts)
    ensures CountsMatch(Run(w, acts))
  {
    RunKeepsCounts(w, acts);
  }

  /** The attempt will not ask upstream any more, nor change a count. */
  predicate Settled(p: Phase) {
    p.Denied? || p.Recorded? || p.Returned? || p.Done?
  }

  /** The count of `k` on instance `i` is at the threshold and no refresh of `k` is under way there. */
  ghost predicate Stopped(w: World, i: nat, k: Key) {
    i in w.insts && Exceeds(w.insts[i], k) && AllSettled(w, i, k)
  }

  ghost predicate AllSettled(w: World, i: nat, k: Key) {
    forall a <- w.attempts :: w.attempts[a].inst == i && w.attempts[a].key == k ==> Settled(w.attempts[a].phase)
  }

  /** Only pruning over the cap can lift the stop: it stays exactly as long as the count of the key is kept. */
  lemma StepKeepsStopped(w: World, act: Act, i: nat, k: Key)
    requires Stopped(w, i, k) && Can(w, act)
    ensures Stopped(Step(w, act), i, k) <==> k in Step(w, act).insts[i].tracker.count
    ensures BelowCap(w, act) ==> Stopped(Step(w, act), i, k)
    ensures act.Issue? ==> w.attempts[act.a].inst != i || w.attempts[act.a].key != k
  {
    var v := Step(w, act);
    if act.RecordOutcome? {
      assert w.attempts[act.a].inst != i || w.attempts[act.a].key != k;
    } else {
      StepCounts(w, act, i);
    }
    StoppedSettles(w, act, i, k);
  }

  lemma StoppedSettles(w: World, act: Act, i: nat, k: Key)
    requires Stopped(w, i, k) && Can(w, act)
    ensures AllSettled(Step(w, act), i, k)
  {
    if Early(act) {
      EarlySettles(w, act, i, k);
    } else if Late(act) {
      LateSettles(w, act, i, k);
    } else if Records(act) {
      RecordSettles(w, act, i, k);
    } else {
      OthersMoveNothing(w, act);
    }
  }

  lemma EarlySettles(w: World, act: Act, i: nat, k: Key)
    requires Stopped(w, i, k) && Can(w, act) && Early(act)
    ensures AllSettled(Step(w, act), i, k)
  {
  }

  lemma LateSettles(w: World, act: Act, i: nat, k: Key)
    requires Stopped(w, i, k) && Can(w, act) && Late(act)
    ensures AllSettled(Step(w, act), i, k)
  {
  }

  lemma RecordSettles(w: World, act: Act, i: nat, k: Key)
    requires Stopped(w, i, k) && Can(w, act) && Records(act)
    ensures AllSettled(Step(w, act), i, k)
  {
  }

  /** Once stopped, no later step of any run below the caps asks upstream to refresh `k` for instance
      `i`: not even a served query lifts the stop. */
  lemma {:induction false} StoppedForGood(w: World, acts: seq<Act>, i: nat, k: Key)
    requires Stopped(w, i, k) && CanRun(w, acts) && AllBelowCap(w, acts)
    ensures Stopped(Run(w, acts), i, k)
    ensures |w.issued| <= |Run(w, acts).issued|
    ensures forall n :: |w.issued| <= n < |Run(w, acts).issued| ==>
              var a := Run(w, acts).issued[n];
              a in Run(w, acts).attempts && (Run(w, acts).attempts[a].inst != i || Run(w, acts).attempts[a].key != k)
    decreases |acts|
  {
    if acts != [] {
      StepKeepsStopped(w, acts[0], i, k);
      var u := Step(w, acts[0]);
      StoppedForGood(u, acts[1..], i, k);
      if acts[0].Issue? {
        RunKeepsIssued(u, acts[1..], |w.issued|);
      }
    }
  }

  lemma {:induction false} RunKeepsIssued(w: World, acts: seq<Act>, n: nat)
    requires CanRun(w, acts) && n < |w.issued| && w.issued[n] in w.attempts
    ensures n < |Run(w, acts).issued| && Run(w, acts).issued[n] == w.issued[n]
    ensures var a := w.issued[n];
            && a in Run(w, acts).attempts
            && Run(w, acts).attempts[a].inst == w.attempts[a].inst && Run(w, acts).attempts[a].key == w.attempts[a].key
    decreases |acts|
  {
    if acts != [] {
      StepGoesForward(w, acts[0], w.issued[n]);
      RunKeepsIssued(Step(w, acts[0]), acts[1..], n);
    }
  }
}
