/** When the stop of a key that keeps failing is safe, and how it can be lifted. */
module StopProofs {
  import opened Types
  import opened Servfail
  import opened RefreshProtocol
  import opened RefreshProofs

  // ---------- One step ----------

  /** The instance whose tracker the step prunes, and the tracker as it is pruned. */
  ghost function Prunes(w: World, act: Act): Option<(nat, Tracker)>
    requires Can(w, act)
  {
    match act
    case RecordBackoff(a, _) =>
      Some((w.attempts[a].inst, Timed(w.insts[w.attempts[a].inst], w.attempts[a].key, w.now)))
    case HandlerServfail(i, k, _) => Some((i, Timed(w.insts[i], k, w.now)))
    case Prune(i, _) => Some((i, w.insts[i].tracker))
    case _ => None
  }

  /** The same step with another outcome of the pruning. */
  function WithTracker(act: Act, t: Tracker): Act {
    match act
    case RecordBackoff(a, _) => RecordBackoff(a, t)
    case HandlerServfail(i, k, _) => HandlerServfail(i, k, t)
    case Prune(i, _) => Prune(i, t)
    case _ => act
  }

  /** The step prunes no tracker of the instance, or one that is sure to keep the count of the key. */
  ghost predicate StopSafe(w: World, act: Act, i: nat, k: Key)
    requires Can(w, act)
  {
    match Prunes(w, act)
    case None => true
    case Some(p) => p.0 == i ==> KeepsCount(p.1, w.now, k)
  }

  lemma StepPrunes(w: World, act: Act, i: nat)
    requires Can(w, act) && Prunes(w, act).Some? && Prunes(w, act).value.0 == i
    ensures i in w.insts && Prunes(w, act).value.1.count == w.insts[i].tracker.count
    ensures forall t :: Can(w, WithTracker(act, t)) <==> Pruned(Prunes(w, act).value.1, w.now, t)
  {
  }

  lemma PrunedTracker(w: World, act: Act, t: Tracker)
    requires Can(w, act) && Prunes(w, act).Some? && Can(w, WithTracker(act, t))
    ensures var i := Prunes(w, act).value.0; var v := Step(w, WithTracker(act, t));
            i in v.insts && v.insts[i].tracker == t
  {
  }

  /** A step is sure to leave a stop in place, whatever order the maps are visited in, if and only if it is safe. */
  lemma StopSafeIff(w: World, act: Act, i: nat, k: Key)
    requires Stopped(w, i, k) && Can(w, act)
    ensures (forall t :: Can(w, WithTracker(act, t)) ==> Stopped(Step(w, WithTracker(act, t)), i, k))
       <==> StopSafe(w, act, i, k)
  {
    if Prunes(w, act).Some? && Prunes(w, act).value.0 == i {
      StepPrunes(w, act, i);
      var s := Prunes(w, act).value.1;
      KeepsCountIff(s, w.now, k);
      forall t | Can(w, WithTracker(act, t))
        ensures Stopped(Step(w, WithTracker(act, t)), i, k) <==> k in t.count
      {
        StepKeepsStopped(w, WithTracker(act, t), i, k);
        PrunedTracker(w, act, t);
      }
    } else {
      forall t | Can(w, WithTracker(act, t)) ensures Stopped(Step(w, WithTracker(act, t)), i, k) {
        StepKeepsStopped(w, WithTracker(act, t), i, k);
        OtherTracker(w, WithTracker(act, t), i, k);
      }
    }
  }

  /** A step that prunes no tracker of the instance leaves the count of a stopped key. */
  lemma OtherTracker(w: World, act: Act, i: nat, k: Key)
    requires Stopped(w, i, k) && Can(w, act) && (Prunes(w, act).Some? ==> Prunes(w, act).value.0 != i)
    ensures i in Step(w, act).insts && k in Step(w, act).insts[i].tracker.count
  {
  }

  lemma BelowCapIsSafe(w: World, act: Act, i: nat, k: Key)
    requires Stopped(w, i, k) && Can(w, act) && BelowCap(w, act)
    ensures StopSafe(w, act, i, k)
  {
    if Prunes(w, act).Some? && Prunes(w, act).value.0 == i {
      StepPrunes(w, act, i);
      KeptBelowCap(Prunes(w, act).value.1, w.now, k);
    }
  }

  // ---------- Whole runs ----------

  ghost predicate AllStopSafe(w: World, acts: seq<Act>, i: nat, k: Key)
    requires CanRun(w, acts)
    decreases |acts|
  {
    acts == [] || (StopSafe(w, acts[0], i, k) && AllStopSafe(Step(w, acts[0]), acts[1..], i, k))
  }

  /** The `n`-th upstream request was not for `k` on instance `i`. */
  ghost predicate IssuedForOther(v: World, n: nat, i: nat, k: Key)
    requires n < |v.issued|
  {
    var a := v.issued[n];
    a in v.attempts && (v.attempts[a].inst != i || v.attempts[a].key != k)
  }

  /** Once stopped, no later step of a run of safe steps asks upstream to refresh `k` for instance `i`: not even a
      served query lifts the stop. */
  lemma {:induction false} StoppedWhileSafe(w: World, acts: seq<Act>, i: nat, k: Key) returns (v: World)
    requires Stopped(w, i, k) && CanRun(w, acts) && AllStopSafe(w, acts, i, k)
    ensures v == Run(w, acts) && Stopped(v, i, k) && |w.issued| <= |v.issued|
    ensures forall n :: |w.issued| <= n < |v.issued| ==> IssuedForOther(v, n, i, k)
    decreases |acts|
  {
    v := w;
    if acts != [] {
      SafeStep(w, acts[0], i, k);
      var u := Step(w, acts[0]);
      v := StoppedWhileSafe(u, acts[1..], i, k);
      if acts[0].Issue? {
        RunKeepsIssued(u, acts[1..], |w.issued|);
      }
    }
  }

  lemma SafeStep(w: World, act: Act, i: nat, k: Key)
    requires Stopped(w, i, k) && Can(w, act) && StopSafe(w, act, i, k)
    ensures Stopped(Step(w, act), i, k)
    ensures |w.issued| <= |Step(w, act).issued|
    ensures act.Issue? ==> w.attempts[act.a].inst != i || w.attempts[act.a].key != k
    ensures Step(w, act).issued == if act.Issue? then w.issued + [act.a] else w.issued
  {
    StopSafeIff(w, act, i, k);
    StepKeepsStopped(w, act, i, k);
    if Prunes(w, act).Some? {
      assert WithTracker(act, act.t) == act;
    } else {
      assert WithTracker(act, Tracker(map[], map[])) == act;
    }
  }

  // ---------- Lifting a stop ----------

  /** A key that is not in the set. */
  lemma {:induction false} FreshKey(s: set<Key>) returns (k: Key)
    ensures k !in s && forall x <- s :: |x| < |k|
  {
    if s == {} {
      k := "";
    } else {
      var x :| x in s;
      var y := FreshKey(s - {x});
      k := (if |x| < |y| then y else x) + "x";
      forall z <- s ensures |z| < |k| {
        assert z == x || z in s - {x};
      }
    }
  }

  ghost function LiveTimers(w: World, i: nat): map<Key, Time>
    requires i in w.insts
  {
    Unexpired(w.insts[i].tracker.until, w.now)
  }

  /** The handler records a SERVFAIL of a query for `x`; what becomes of the tracker is up to map order. */
  lemma HandlerStep(w: World, i: nat, x: Key, t: Tracker)
    requires i in w.insts && w.insts[i].cfg.backoff > 0 && Pruned(Timed(w.insts[i], x, w.now), w.now, t)
    ensures Can(w, HandlerServfail(i, x, t))
    ensures var v := Step(w, HandlerServfail(i, x, t));
            v.now == w.now && v.insts.Keys == w.insts.Keys && v.insts[i] == w.insts[i].(tracker := t)
  {
  }

  lemma RunCons(w: World, act: Act, acts: seq<Act>)
    requires Can(w, act) && CanRun(Step(w, act), acts)
    ensures CanRun(w, [act] + acts) && Run(w, [act] + acts) == Run(Step(w, act), acts)
  {
    assert ([act] + acts)[1..] == acts;
  }

  /** One more failing query adds a timer, if the timers are within the cap; if they are at the cap, it can cost `k` its
      count. */
  lemma OneMoreTimer(w: World, i: nat, k: Key) returns (x: Key, t: Tracker)
    requires i in w.insts && w.insts[i].cfg.backoff > 0
    requires k in LiveTimers(w, i) && |LiveTimers(w, i)| <= SERVFAIL_MAX_ENTRIES
    ensures Pruned(Timed(w.insts[i], x, w.now), w.now, t)
    ensures if |LiveTimers(w, i)| == SERVFAIL_MAX_ENTRIES then k !in t.count
            else k in Unexpired(t.until, w.now) && |Unexpired(t.until, w.now)| == |LiveTimers(w, i)| + 1
  {
    x := FreshKey(w.insts[i].tracker.until.Keys);
    var s := Timed(w.insts[i], x, w.now);
    var live := Unexpired(s.until, w.now);
    assert live.Keys == LiveTimers(w, i).Keys + {x};
    if |LiveTimers(w, i)| == SERVFAIL_MAX_ENTRIES {
      t := PrunedOf(s, w.now, {k});
      assert PrunedBy(s, w.now, {k}, t);
    } else {
      t := PrunedOf(s, w.now, {});
      NothingDropped(live);
      assert Unexpired(t.until, w.now) == t.until;
    }
  }

  /** From a world in which `k` has a timer, enough failing queries for other keys cost it its count. */
  lemma {:induction false} CountCanBeLost(w: World, i: nat, k: Key) returns (acts: seq<Act>)
    requires i in w.insts && w.insts[i].cfg.backoff > 0
    requires k in LiveTimers(w, i) && |LiveTimers(w, i)| <= SERVFAIL_MAX_ENTRIES
    ensures CanRun(w, acts) && i in Run(w, acts).insts && k !in Run(w, acts).insts[i].tracker.count
    decreases SERVFAIL_MAX_ENTRIES - |LiveTimers(w, i)|
  {
    var x, t := OneMoreTimer(w, i, k);
    var act := HandlerServfail(i, x, t);
    HandlerStep(w, i, x, t);
    var v := Step(w, act);
    var rest: seq<Act> := [];
    if |LiveTimers(w, i)| < SERVFAIL_MAX_ENTRIES {
      rest := CountCanBeLost(v, i, k);
    }
    RunCons(w, act, rest);
    acts := [act] + rest;
  }

  /** With a backoff configured, every stop can be lifted: by failing queries alone, first for the key itself and
      then for as many others as the cap allows. */
  lemma StopCanBeLifted(w: World, i: nat, k: Key) returns (acts: seq<Act>)
    requires Stopped(w, i, k) && w.insts[i].cfg.backoff > 0
    ensures CanRun(w, acts) && !Stopped(Run(w, acts), i, k)
  {
    var s := Timed(w.insts[i], k, w.now);
    var t := SomeKeep(s, w.now, k);
    var act := HandlerServfail(i, k, t);
    HandlerStep(w, i, k, t);
    var rest := CountCanBeLost(Step(w, act), i, k);
    RunCons(w, act, rest);
    acts := [act] + rest;
  }

  /** Pruning can keep a timer that has not run out, and is then within the cap. */
  lemma SomeKeep(s: Tracker, now: Time, k: Key) returns (t: Tracker)
    requires k in Unexpired(s.until, now)
    ensures Pruned(s, now, t) && k in Unexpired(t.until, now) && |Unexpired(t.until, now)| <= SERVFAIL_MAX_ENTRIES
  {
    var live := Unexpired(s.until, now);
    assert |live.Keys - {k}| == |live| - 1;
    var victims := SetBetween({}, live.Keys - {k}, Excess(|live|, SERVFAIL_MAX_ENTRIES));
    t := PrunedOf(s, now, victims);
    KeptTimers(s, now, victims, t);
  }

  lemma KeptTimers(s: Tracker, now: Time, victims: set<Key>, t: Tracker)
    requires PrunedBy(s, now, victims, t)
    ensures Pruned(s, now, t) && t.until == Unexpired(s.until, now) - victims
    ensures Unexpired(t.until, now) == t.until && |t.until| <= SERVFAIL_MAX_ENTRIES
  {
    PrunedIsBounded(s, now, t);
  }
}
