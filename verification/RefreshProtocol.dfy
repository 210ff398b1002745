/** The refresh protocol: any number of resolver instances, each with a semaphore and a SERVFAIL
    tracker, share one store whose lock per key runs out after its TTL.

    A world moves by atomic steps. An attempt is one call of scheduleRefresh together with the goroutine it
    may start; `owner` in a lock and `outcomes` in an instance are history, which no step looks at. */
module RefreshProtocol {
  import opened Types
  import opened Servfail
  import CacheKeys

  datatype Config = Config(maxInflight: Option<nat>, lockTTL: Duration, backoff: Duration, refreshThreshold: int)

  datatype Outcome = Failed | ServFail | Refused | Accepted

  /** The instance's SERVFAIL tracker and semaphore; `outcomes` lists the refresh outcomes it has recorded. */
  datatype Inst = Inst(cfg: Config, sem: nat, tracker: Tracker, outcomes: seq<(Key, Outcome)>)

  /** Where an attempt is. `at` is the time of its SETNX. */
  datatype Phase =
    | Passed                             // the SERVFAIL count is below the threshold
    | Cleared                            // and the key is not in backoff
    | Token                              // holds a semaphore token, lock not yet tried
    | Denied                             // no lock: the token goes back
    | Locked(at: Time)                   // holds the lock
    | Asked(at: Time)                    // the upstream request is out
    | Replied(at: Time, got: Outcome)
    | BackedOff(at: Time)                // SERVFAIL: backoff recorded, count not yet
    | Recorded(at: Time)
    | Returned(at: Time)                 // token given back, lock not yet released
    | Done

  datatype Attempt = Attempt(inst: nat, key: Key, phase: Phase)

  datatype Lock = Lock(owner: Option<nat>, until: Time)

  datatype World = World(now: Time, locks: map<Key, Lock>, insts: map<nat, Inst>, attempts: map<nat, Attempt>,
                         tainted: set<Key>, issued: seq<nat>)

  // ---------- Reading a world ----------

  function LockTTL(cfg: Config): (d: Duration)
    ensures d > 0 && (cfg.lockTTL > 0 ==> d == cfg.lockTTL)
  {
    if cfg.lockTTL <= 0 then DEFAULT_LOCK_TTL else cfg.lockTTL
  }

  predicate HoldsToken(p: Phase) {
    !(p.Passed? || p.Cleared? || p.Returned? || p.Done?)
  }

  /** Between its SETNX and its DEL. */
  predicate InFlight(p: Phase) {
    p.Locked? || p.Asked? || p.Replied? || p.BackedOff? || p.Recorded? || p.Returned?
  }

  ghost predicate Live(w: World, k: Key) {
    k in w.locks && w.now < w.locks[k].until
  }

  ghost function Flying(w: World, k: Key): set<nat> {
    set a | a in w.attempts && w.attempts[a].key == k && InFlight(w.attempts[a].phase)
  }

  ghost function Holders(w: World, i: nat): set<nat> {
    set a | a in w.attempts && w.attempts[a].inst == i && HoldsToken(w.attempts[a].phase)
  }

  ghost predicate Exceeds(inst: Inst, k: Key) {
    AtThreshold(inst.tracker, inst.cfg.refreshThreshold, k)
  }

  ghost predicate InBackoff(inst: Inst, k: Key, now: Time) {
    Waits(inst.tracker, k, now)
  }

  // ---------- Steps ----------

  /** What SETNX did: set the lock, found one, was not tried, or failed (and may have set it all the same). */
  datatype LockResult = Acquired | Busy | Unavailable | Error(set_: bool)

  datatype Act =
    | Tick(d: Duration)
    | Begin(a: nat, i: nat, k: Key)
    | PassBackoff(a: nat)
    | GiveUp(a: nat)
    | TakeToken(a: nat)
    | TryLock(a: nat, res: LockResult)
    | GiveBack(a: nat)
    | Issue(a: nat)
    | Reply(a: nat, got: Outcome)
    | RecordBackoff(a: nat, t: Tracker)
    | RecordOutcome(a: nat)
    | ReturnToken(a: nat)
    | Release(a: nat, deleted: bool)
    | HandlerServfail(i: nat, k: Key, t: Tracker)
    | Prune(i: nat, t: Tracker)
    | DropLock(k: Key)

  ghost predicate At(w: World, a: nat) {
    a in w.attempts && w.attempts[a].inst in w.insts
  }

  ghost predicate Full(inst: Inst) {
    inst.cfg.maxInflight.Some? && inst.sem >= inst.cfg.maxInflight.value
  }

  /** The tracker of `inst` with a fresh timer for `k`, before pruning. */
  ghost function Timed(inst: Inst, k: Key, now: Time): Tracker {
    inst.tracker.(until := inst.tracker.until[k := now + inst.cfg.backoff])
  }

  /** RecordBackoff on the tracker of `inst` may lead to `t`. */
  ghost predicate BacksOff(inst: Inst, k: Key, now: Time, t: Tracker) {
    inst.cfg.backoff > 0 && Pruned(Timed(inst, k, now), now, t)
  }

  ghost predicate Can(w: World, act: Act) {
    match act
    case Tick(d) => d >= 0
    case Begin(a, i, k) =>
      a !in w.attempts && i in w.insts && !CacheKeys.IsRootZoneCacheKey(k) && !Exceeds(w.insts[i], k)
    case PassBackoff(a) =>
      At(w, a) && w.attempts[a].phase.Passed? &&
      !(w.insts[w.attempts[a].inst].cfg.backoff > 0 && InBackoff(w.insts[w.attempts[a].inst], w.attempts[a].key, w.now))
    case GiveUp(a) =>
      At(w, a) &&
      ((w.attempts[a].phase.Passed? && w.insts[w.attempts[a].inst].cfg.backoff > 0
        && InBackoff(w.insts[w.attempts[a].inst], w.attempts[a].key, w.now))
       || (w.attempts[a].phase.Cleared? && Full(w.insts[w.attempts[a].inst])))
    case TakeToken(a) => At(w, a) && w.attempts[a].phase.Cleared? && !Full(w.insts[w.attempts[a].inst])
    case TryLock(a, res) =>
      At(w, a) && w.attempts[a].phase.Token? &&
      (match res
       case Acquired => !Live(w, w.attempts[a].key)
       case Busy => Live(w, w.attempts[a].key)
       case Unavailable => true
       case Error(set_) => set_ ==> !Live(w, w.attempts[a].key))
    case GiveBack(a) => At(w, a) && w.attempts[a].phase.Denied?
    case Issue(a) => At(w, a) && w.attempts[a].phase.Locked?
    case Reply(a, _) => At(w, a) && w.attempts[a].phase.Asked?
    case RecordBackoff(a, t) =>
      At(w, a) && w.attempts[a].phase.Replied? && w.attempts[a].phase.got.ServFail? &&
      BacksOff(w.insts[w.attempts[a].inst], w.attempts[a].key, w.now, t)
    case RecordOutcome(a) =>
      At(w, a) && (w.attempts[a].phase.BackedOff? ||
        (w.attempts[a].phase.Replied? &&
         (w.attempts[a].phase.got.ServFail? ==> w.insts[w.attempts[a].inst].cfg.backoff <= 0)))
    case ReturnToken(a) => At(w, a) && w.attempts[a].phase.Recorded?
    case Release(a, _) => At(w, a) && w.attempts[a].phase.Returned?
    case HandlerServfail(i, k, t) => i in w.insts && BacksOff(w.insts[i], k, w.now, t)
    case Prune(i, t) => i in w.insts && Pruned(w.insts[i].tracker, w.now, t)
    case DropLock(k) => true
  }

  ghost function Move(w: World, a: nat, p: Phase): World
    requires a in w.attempts
  {
    w.(attempts := w.attempts[a := w.attempts[a].(phase := p)])
  }

  ghost function SetInst(w: World, i: nat, inst: Inst): World {
    w.(insts := w.insts[i := inst])
  }

  /** Take (`n` = 1) or return (`n` = -1) a token, when there is a semaphore. */
  ghost function AddToken(inst: Inst, n: int): Inst {
    if inst.cfg.maxInflight.None? || inst.sem + n < 0 then inst else inst.(sem := inst.sem + n)
  }

  ghost function TryLockPhase(now: Time, res: LockResult): Phase {
    if res.Acquired? then Locked(now) else Denied
  }

  ghost function LocksAfter(w: World, a: nat, res: LockResult): map<Key, Lock>
    requires At(w, a)
  {
    var until := w.now + LockTTL(w.insts[w.attempts[a].inst].cfg);
    match res
    case Acquired => w.locks[w.attempts[a].key := Lock(Some(a), until)]
    case Error(true) => w.locks[w.attempts[a].key := Lock(None, until)]
    case _ => w.locks
  }

  /** What recording an outcome does to the counts. */
  ghost function Note(inst: Inst, k: Key, got: Outcome): Inst {
    var log := inst.outcomes + [(k, got)];
    match got
    case ServFail =>
      inst.(tracker := inst.tracker.(count := inst.tracker.count[k := Count(inst.tracker, k) + 1]), outcomes := log)
    case Accepted => inst.(tracker := inst.tracker.(count := inst.tracker.count - {k}), outcomes := log)
    case _ => inst.(outcomes := log)
  }

  /** Keys of attempts whose lock has run out under them at `now`. */
  ghost function Overrun(w: World, now: Time): set<Key> {
    set a | a in w.attempts && At(w, a) && InFlight(w.attempts[a].phase)
            && now >= w.attempts[a].phase.at + LockTTL(w.insts[w.attempts[a].inst].cfg) :: w.attempts[a].key
  }

  ghost function Step(w: World, act: Act): World
    requires Can(w, act)
  {
    match act
    case Tick(d) => w.(now := w.now + d, tainted := w.tainted + Overrun(w, w.now + d))
    case Begin(a, i, k) => w.(attempts := w.attempts[a := Attempt(i, k, Passed)])
    case PassBackoff(a) => Move(w, a, Cleared)
    case GiveUp(a) => Move(w, a, Done)
    case TakeToken(a) =>
      SetInst(Move(w, a, Token), w.attempts[a].inst, AddToken(w.insts[w.attempts[a].inst], 1))
    case TryLock(a, res) => Move(w, a, TryLockPhase(w.now, res)).(locks := LocksAfter(w, a, res))
    case GiveBack(a) =>
      SetInst(Move(w, a, Done), w.attempts[a].inst, AddToken(w.insts[w.attempts[a].inst], -1))
    case Issue(a) => Move(w, a, Asked(w.attempts[a].phase.at)).(issued := w.issued + [a])
    case Reply(a, got) => Move(w, a, Replied(w.attempts[a].phase.at, got))
    case RecordBackoff(a, t) =>
      SetInst(Move(w, a, BackedOff(w.attempts[a].phase.at)), w.attempts[a].inst,
              w.insts[w.attempts[a].inst].(tracker := t))
    case RecordOutcome(a) =>
      var p := w.attempts[a].phase;
      SetInst(Move(w, a, Recorded(p.at)), w.attempts[a].inst,
              Note(w.insts[w.attempts[a].inst], w.attempts[a].key, if p.BackedOff? then ServFail else p.got))
    case ReturnToken(a) =>
      SetInst(Move(w, a, Returned(w.attempts[a].phase.at)), w.attempts[a].inst,
              AddToken(w.insts[w.attempts[a].inst], -1))
    case Release(a, deleted) =>
      var k := w.attempts[a].key;
      var v := Move(w, a, Done);
      v.(locks := if deleted then w.locks - {k} else w.locks,
         tainted := if Flying(v, k) == {} then w.tainted - {k} else w.tainted)
    case HandlerServfail(i, k, t) => SetInst(w, i, w.insts[i].(tracker := t))
    case Prune(i, t) => SetInst(w, i, w.insts[i].(tracker := t))
    case DropLock(k) =>
      w.(locks := w.locks - {k}, tainted := if Flying(w, k) == {} then w.tainted else w.tainted + {k})
  }

  ghost predicate CanRun(w: World, acts: seq<Act>)
    decreases |acts|
  {
    acts == [] || (Can(w, acts[0]) && CanRun(Step(w, acts[0]), acts[1..]))
  }

  ghost function Run(w: World, acts: seq<Act>): World
    requires CanRun(w, acts)
    decreases |acts|
  {
    if acts == [] then w else Run(Step(w, acts[0]), acts[1..])
  }

  /** No attempt has begun, no semaphore token is out. */
  ghost predicate Init(w: World) {
    w.attempts == map[] && w.tainted == {} && w.issued == [] &&
    forall i <- w.insts ::
      w.insts[i].sem == 0 && w.insts[i].outcomes == [] && w.insts[i].tracker == Tracker(map[], map[])
  }
}
