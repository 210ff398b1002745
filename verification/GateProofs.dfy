/** Which refreshes scheduleRefresh lets through: none of the root zone, none over the semaphore's size, and none
    of a key in backoff, until the backoff has run out and no longer. */
module GateProofs {
  import opened Types
  import opened Servfail
  import opened RefreshProtocol
  import opened RefreshProofs

  // ---------- The root zone ----------

  ghost predicate NoRootZone(w: World) {
    forall a <- w.attempts :: !("dns::" <= w.attempts[a].key)
  }

  lemma StepKeepsNoRootZone(w: World, act: Act)
    requires NoRootZone(w) && Can(w, act)
    ensures NoRootZone(Step(w, act))
  {
    if Early(act) {
      EarlyKeepsNoRootZone(w, act);
    } else if Late(act) {
      forall a <- Step(w, act).attempts ensures a in w.attempts && Step(w, act).attempts[a].key == w.attempts[a].key {
      }
    } else if Records(act) {
      forall a <- Step(w, act).attempts ensures a in w.attempts && Step(w, act).attempts[a].key == w.attempts[a].key {
      }
    } else {
      OthersMoveNothing(w, act);
    }
  }

  lemma EarlyKeepsNoRootZone(w: World, act: Act)
    requires NoRootZone(w) && Can(w, act) && Early(act)
    ensures NoRootZone(Step(w, act))
  {
  }

  /** No run refreshes a key of the root zone. */
  lemma {:induction false} RunKeepsNoRootZone(w: World, acts: seq<Act>)
    requires NoRootZone(w) && CanRun(w, acts)
    ensures NoRootZone(Run(w, acts))
    decreases |acts|
  {
    if acts != [] {
      StepKeepsNoRootZone(w, acts[0]);
      RunKeepsNoRootZone(Step(w, acts[0]), acts[1..]);
    }
  }

  // ---------- The semaphore and the threshold ----------

  /** A refresh of a key begins exactly if it is not of the root zone and its SERVFAIL count is below the threshold, or
      there is none. */
  lemma BeginIff(w: World, a: nat, i: nat, k: Key)
    requires a !in w.attempts && i in w.insts
    ensures var inst := w.insts[i]; var n := if k in inst.tracker.count then inst.tracker.count[k] else 0;
            Can(w, Begin(a, i, k)) <==>
              !("dns::" <= k) && (inst.cfg.refreshThreshold <= 0 || n < inst.cfg.refreshThreshold)
  {
  }

  /** In any state that a run reaches from the start, an attempt that has come to the semaphore gets a token exactly if
      there is no limit or fewer attempts than that hold one; otherwise it ends. */
  lemma TokenIff(w: World, acts: seq<Act>, a: nat) returns (v: World)
    requires Init(w) && CanRun(w, acts)
    ensures v == Run(w, acts)
    ensures At(v, a) && v.attempts[a].phase.Cleared? ==>
              var max := v.insts[v.attempts[a].inst].cfg.maxInflight;
              && (Can(v, TakeToken(a)) <==> max.None? || |Holders(v, v.attempts[a].inst)| < max.value)
              && (Can(v, GiveUp(a)) <==> !Can(v, TakeToken(a)))
  {
    v := Run(w, acts);
    if At(v, a) {
      v := TokensFromStart(w, acts, v.attempts[a].inst);
    }
  }

  // ---------- The backoff gate ----------

  /** An attempt that has not passed the gate yet passes it if backoff is off, or its key has no timer, or the timer has
      run out; otherwise it ends. */
  lemma GateIff(w: World, a: nat)
    requires At(w, a) && w.attempts[a].phase.Passed?
    ensures var k := w.attempts[a].key; var inst := w.insts[w.attempts[a].inst];
            && (Can(w, PassBackoff(a)) <==>
                  inst.cfg.backoff <= 0 || k !in inst.tracker.until || inst.tracker.until[k] <= w.now)
            && (Can(w, GiveUp(a)) <==> !Can(w, PassBackoff(a)))
  {
  }

  /** The attempt is one of `k` on instance `i` that has come to the gate. */
  ghost predicate Arrived(w: World, a: nat, i: nat, k: Key) {
    a in w.attempts && w.attempts[a] == Attempt(i, k, Passed)
  }

  /** So it is with all attempts of a key that have come to the gate. */
  lemma GateOf(w: World, i: nat, k: Key)
    requires i in w.insts
    ensures var inst := w.insts[i];
            forall a :: Arrived(w, a, i, k) ==>
              && (Can(w, PassBackoff(a)) <==>
                    inst.cfg.backoff <= 0 || k !in inst.tracker.until || inst.tracker.until[k] <= w.now)
              && (Can(w, GiveUp(a)) <==> !Can(w, PassBackoff(a)))
  {
    forall a | Arrived(w, a, i, k)
      ensures At(w, a) && (Can(w, GiveUp(a)) <==> !Can(w, PassBackoff(a)))
    {
      GateIff(w, a);
    }
  }

  /** The step records a backoff for `k` on instance `i`. */
  ghost predicate RecordsTimer(w: World, act: Act, i: nat, k: Key)
    requires Can(w, act)
  {
    match act
    case RecordBackoff(a, _) => w.attempts[a].inst == i && w.attempts[a].key == k
    case HandlerServfail(j, x, _) => j == i && x == k
    case _ => false
  }

  // ---------- While it lasts ----------

  /** Before `d`, the key has a timer that ends no earlier; and one recorded now would end no earlier either. */
  ghost predicate Holding(inst: Inst, k: Key, d: Time, now: Time) {
    && inst.cfg.backoff > 0 && d <= now + inst.cfg.backoff
    && (now < d ==> k in inst.tracker.until && inst.tracker.until[k] >= d)
  }

  lemma TimedHolds(inst: Inst, x: Key, now: Time, t: Tracker, k: Key, d: Time)
    requires BacksOff(inst, x, now, t) && WithinCaps(Timed(inst, x, now), now)
    requires x == k || Holding(inst, k, d, now)
    requires d <= now + inst.cfg.backoff
    ensures Holding(inst.(tracker := t), k, d, now)
  {
    PrunedBelowCap(Timed(inst, x, now), now, t);
  }

  lemma PrunedHolds(inst: Inst, now: Time, t: Tracker, k: Key, d: Time)
    requires Pruned(inst.tracker, now, t) && WithinCaps(inst.tracker, now) && Holding(inst, k, d, now)
    ensures Holding(inst.(tracker := t), k, d, now)
  {
    PrunedBelowCap(inst.tracker, now, t);
  }

  ghost predicate Prunes(act: Act) {
    act.RecordBackoff? || act.HandlerServfail? || act.Prune?
  }

  /** What the steps that prune do to the instances. */
  lemma PrunedInsts(w: World, act: Act, i: nat)
    requires Can(w, act) && i in w.insts && Prunes(act)
    ensures Step(w, act).now == w.now && i in Step(w, act).insts
    ensures var j := if act.RecordBackoff? then w.attempts[act.a].inst else act.i;
            Step(w, act).insts[i] == if i == j then w.insts[i].(tracker := act.t) else w.insts[i]
  {
  }

  /** The other steps change no timer. */
  lemma OtherTimers(w: World, act: Act, i: nat)
    requires Can(w, act) && i in w.insts && !Prunes(act)
    ensures Step(w, act).now >= w.now && i in Step(w, act).insts
    ensures Step(w, act).insts[i].cfg == w.insts[i].cfg
    ensures Step(w, act).insts[i].tracker.until == w.insts[i].tracker.until
  {
  }

  lemma StepHolds(w: World, act: Act, i: nat, k: Key, d: Time)
    requires Can(w, act) && BelowCap(w, act) && i in w.insts && Holding(w.insts[i], k, d, w.now)
    ensures i in Step(w, act).insts && Holding(Step(w, act).insts[i], k, d, Step(w, act).now)
    ensures Step(w, act).now >= w.now
  {
    if Prunes(act) {
      PrunedInsts(w, act, i);
      match act
      case RecordBackoff(a, t) =>
        if w.attempts[a].inst == i { TimedHolds(w.insts[i], w.attempts[a].key, w.now, t, k, d); }
      case HandlerServfail(j, x, t) =>
        if j == i { TimedHolds(w.insts[i], x, w.now, t, k, d); }
      case Prune(j, t) =>
        if j == i { PrunedHolds(w.insts[i], w.now, t, k, d); }
      case _ =>
    } else {
      OtherTimers(w, act, i);
    }
  }

  /** Recording a backoff, below the caps, starts it. */
  lemma RecordingHolds(w: World, act: Act, i: nat, k: Key)
    requires Can(w, act) && BelowCap(w, act) && RecordsTimer(w, act, i, k)
    ensures i in w.insts && w.insts[i].cfg.backoff > 0
    ensures i in Step(w, act).insts && Step(w, act).now == w.now
    ensures Holding(Step(w, act).insts[i], k, w.now + w.insts[i].cfg.backoff, w.now)
  {
    PrunedInsts(w, act, i);
    TimedHolds(w.insts[i], k, w.now, act.t, k, w.now + w.insts[i].cfg.backoff);
  }

  /** An attempt of `k` on instance `i` that is under way: it has passed the gate. */
  ghost predicate PastGate(w: World, a: nat, i: nat, k: Key) {
    && a in w.attempts && w.attempts[a].inst == i && w.attempts[a].key == k
    && !w.attempts[a].phase.Passed? && !w.attempts[a].phase.Done?
  }

  lemma EarlyPassesNone(w: World, act: Act, i: nat, k: Key, a: nat)
    requires Can(w, act) && Early(act) && i in w.insts
    requires w.insts[i].cfg.backoff > 0 && Waits(w.insts[i].tracker, k, w.now)
    requires PastGate(Step(w, act), a, i, k)
    ensures PastGate(w, a, i, k)
  {
  }

  lemma LatePassesNone(w: World, act: Act, i: nat, k: Key, a: nat)
    requires Can(w, act) && Late(act) && PastGate(Step(w, act), a, i, k)
    ensures PastGate(w, a, i, k)
  {
  }

  lemma RecordPassesNone(w: World, act: Act, i: nat, k: Key, a: nat)
    requires Can(w, act) && Records(act) && PastGate(Step(w, act), a, i, k)
    ensures PastGate(w, a, i, k)
  {
  }

  lemma StepPassesNone(w: World, act: Act, i: nat, k: Key, a: nat)
    requires Can(w, act) && i in w.insts && w.insts[i].cfg.backoff > 0 && Waits(w.insts[i].tracker, k, w.now)
    requires PastGate(Step(w, act), a, i, k)
    ensures PastGate(w, a, i, k)
  {
    if Early(act) {
      EarlyPassesNone(w, act, i, k, a);
    } else if Late(act) {
      LatePassesNone(w, act, i, k, a);
    } else if Records(act) {
      RecordPassesNone(w, act, i, k, a);
    } else {
      OthersMoveNothing(w, act);
    }
  }

  /** As long as the clock is before `d` at the end of a run, every attempt of the key that is then past the gate
      was so at its start. */
  lemma {:induction false} RunHolds(w: World, acts: seq<Act>, i: nat, k: Key, d: Time) returns (v: World)
    requires CanRun(w, acts) && AllBelowCap(w, acts) && i in w.insts && Holding(w.insts[i], k, d, w.now)
    ensures v == Run(w, acts) && i in v.insts && Holding(v.insts[i], k, d, v.now) && w.now <= v.now
    ensures v.now < d ==> forall a :: PastGate(v, a, i, k) ==> PastGate(w, a, i, k)
    decreases |acts|
  {
    v := w;
    if acts != [] {
      StepHolds(w, acts[0], i, k, d);
      v := RunHolds(Step(w, acts[0]), acts[1..], i, k, d);
      if v.now < d {
        forall a | PastGate(v, a, i, k) ensures PastGate(w, a, i, k) {
          StepPassesNone(w, acts[0], i, k, a);
        }
      }
    }
  }

  // ---------- Once it is over ----------

  ghost predicate EndsBy(inst: Inst, k: Key, d: Time) {
    k in inst.tracker.until ==> inst.tracker.until[k] <= d
  }

  lemma StepEndsBy(w: World, act: Act, i: nat, k: Key, d: Time)
    requires Can(w, act) && !RecordsTimer(w, act, i, k) && i in w.insts && EndsBy(w.insts[i], k, d)
    ensures i in Step(w, act).insts && EndsBy(Step(w, act).insts[i], k, d)
  {
    if Prunes(act) {
      PrunedInsts(w, act, i);
      match act
      case RecordBackoff(a, t) =>
        var x := w.attempts[a];
        PrunedIsBounded(Timed(w.insts[x.inst], x.key, w.now), w.now, t);
      case HandlerServfail(j, x, t) => PrunedIsBounded(Timed(w.insts[j], x, w.now), w.now, t);
      case Prune(j, t) => PrunedIsBounded(w.insts[j].tracker, w.now, t);
      case _ =>
    } else {
      OtherTimers(w, act, i);
    }
  }

  /** No step of the run records a backoff for `k` on instance `i`. */
  ghost predicate NoNewTimer(w: World, acts: seq<Act>, i: nat, k: Key)
    requires CanRun(w, acts)
    decreases |acts|
  {
    acts == [] || (!RecordsTimer(w, acts[0], i, k) && NoNewTimer(Step(w, acts[0]), acts[1..], i, k))
  }

  lemma {:induction false} RunEndsBy(w: World, acts: seq<Act>, i: nat, k: Key, d: Time) returns (v: World)
    requires CanRun(w, acts) && NoNewTimer(w, acts, i, k) && i in w.insts && EndsBy(w.insts[i], k, d)
    ensures v == Run(w, acts) && i in v.insts && EndsBy(v.insts[i], k, d)
    decreases |acts|
  {
    v := w;
    if acts != [] {
      StepEndsBy(w, acts[0], i, k, d);
      v := RunEndsBy(Step(w, acts[0]), acts[1..], i, k, d);
    }
  }

  lemma RecordingEndsBy(w: World, act: Act, i: nat, k: Key)
    requires Can(w, act) && RecordsTimer(w, act, i, k)
    ensures i in w.insts && i in Step(w, act).insts
    ensures EndsBy(Step(w, act).insts[i], k, w.now + w.insts[i].cfg.backoff)
  {
    PrunedInsts(w, act, i);
    PrunedIsBounded(Timed(w.insts[i], k, w.now), w.now, act.t);
  }

  // ---------- Both ----------

  /** After a step that records a backoff for `k` on instance `i`, and in whatever run below the caps follows: before
      the backoff time is over no attempt of `k` gets past the gate there, and the ones that come to it give up. */
  lemma NoRefreshInBackoff(w: World, act: Act, acts: seq<Act>, i: nat, k: Key) returns (v: World)
    requires Can(w, act) && BelowCap(w, act) && RecordsTimer(w, act, i, k)
    requires CanRun(Step(w, act), acts) && AllBelowCap(Step(w, act), acts)
    ensures i in w.insts && v == Run(Step(w, act), acts)
    ensures v.now < w.now + w.insts[i].cfg.backoff ==>
              forall a :: PastGate(v, a, i, k) ==> PastGate(Step(w, act), a, i, k)
    ensures v.now < w.now + w.insts[i].cfg.backoff ==>
              forall a :: Arrived(v, a, i, k) ==> !Can(v, PassBackoff(a)) && Can(v, GiveUp(a))
  {
    RecordingHolds(w, act, i, k);
    v := RunHolds(Step(w, act), acts, i, k, w.now + w.insts[i].cfg.backoff);
    GateOf(v, i, k);
  }

  /** From the end of the backoff time on, unless a newer backoff was recorded, an attempt that comes to the gate can
      pass it; here the caps do not matter. */
  lemma RefreshAfterBackoff(w: World, act: Act, acts: seq<Act>, i: nat, k: Key) returns (v: World)
    requires Can(w, act) && RecordsTimer(w, act, i, k)
    requires CanRun(Step(w, act), acts) && NoNewTimer(Step(w, act), acts, i, k)
    ensures i in w.insts && v == Run(Step(w, act), acts)
    ensures v.now >= w.now + w.insts[i].cfg.backoff ==>
              forall a :: Arrived(v, a, i, k) ==> Can(v, PassBackoff(a)) && !Can(v, GiveUp(a))
  {
    RecordingEndsBy(w, act, i, k);
    v := RunEndsBy(Step(w, act), acts, i, k, w.now + w.insts[i].cfg.backoff);
    GateOf(v, i, k);
  }
}
