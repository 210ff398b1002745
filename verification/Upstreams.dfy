/** Choosing upstream servers and trying them in turn. */
module Upstreams {
  import opened Types

  const WEIGHTED_MIN_LATENCY_MS: real := 1.0
  const WEIGHTED_EWMA_ALPHA: real := 0.2
  const INITIAL_LATENCY_MS: real := 50.0
  const COUNTER_WRAP: nat := 0x1_0000_0000_0000_0000

  datatype Upstream = Upstream(address: string, protocol: string)

  datatype Strategy = LoadBalance | Weighted | InOrder

  // ---------- Orders ----------

  ghost predicate InRange(order: seq<nat>, n: nat) {
    forall i :: 0 <= i < |order| ==> order[i] < n
  }

  ghost predicate NoRepeats(order: seq<nat>) {
    forall i, j :: 0 <= i < j < |order| ==> order[i] != order[j]
  }

  /** Every index below `n` occurs exactly once (see PermutationCovers). */
  ghost predicate Permutation(order: seq<nat>, n: nat) {
    |order| == n && InRange(order, n) && NoRepeats(order)
  }

  ghost function Below(n: nat): (r: set<nat>)
    ensures |r| == n && forall i: nat :: i in r <==> i < n
  {
    if n == 0 then {} else Below(n - 1) + {n - 1}
  }

  ghost function Elements(order: seq<nat>): (r: set<nat>)
    ensures forall i :: i in r <==> i in order
  {
    if order == [] then {} else Elements(order[1..]) + {order[0]}
  }

  lemma ElementsSize(order: seq<nat>)
    requires NoRepeats(order)
    ensures |Elements(order)| == |order|
  {
    if order != [] {
      ElementsSize(order[1..]);
      assert order[0] !in order[1..];
    }
  }

  lemma SubsetOfSameSize(a: set<nat>, b: set<nat>)
    requires a <= b && |a| == |b|
    ensures a == b
  {
    if a != {} {
      var x :| x in a;
      SubsetOfSameSize(a - {x}, b - {x});
    }
  }

  lemma PermutationCovers(order: seq<nat>, n: nat)
    requires Permutation(order, n)
    ensures forall i: nat :: i < n ==> i in order
  {
    ElementsSize(order);
    forall i <- Elements(order) ensures i in Below(n) {
      var j :| 0 <= j < |order| && order[j] == i;
    }
    SubsetOfSameSize(Elements(order), Below(n));
  }

  // ---------- Residues ----------

  lemma MulAtLeast(n: nat, k: int)
    requires k >= 1
    ensures n * k >= n
  {
    if k > 1 {
      MulAtLeast(n, k - 1);
      assert n * k == n * (k - 1) + n;
    }
  }

  lemma MulDiff(n: nat, a: int, b: int)
    ensures n * (a - b) == n * a - n * b
  {
  }

  lemma ModUnique(x: nat, n: nat, q: int, r: nat)
    requires n > 0 && x == n * q + r && r < n
    ensures x % n == r
  {
    var p := x / n;
    assert x == n * p + x % n;
    MulDiff(n, q, p);
    MulDiff(n, p, q);
    if q > p {
      MulAtLeast(n, q - p);
    } else if q < p {
      MulAtLeast(n, p - q);
    }
  }

  /** Going up by less than `n` changes a residue as expected. */
  lemma ModStep(x: nat, d: nat, n: nat)
    requires n > 0 && d < n
    ensures (x + d) % n == if x % n + d < n then x % n + d else x % n + d - n
  {
    if x % n + d < n {
      ModUnique(x + d, n, x / n, x % n + d);
    } else {
      assert n * (x / n + 1) == n * (x / n) + n;
      ModUnique(x + d, n, x / n + 1, x % n + d - n);
    }
  }

  // ---------- Round robin ----------

  /** The `i`-th upstream when the first is `start`. */
  function Turn(start: nat, i: nat, n: nat): (t: nat)
    requires start < n && i < n
    ensures t < n
  {
    if start + i < n then start + i else start + i - n
  }

  lemma TurnIsMod(start: nat, i: nat, n: nat)
    requires start < n && i < n
    ensures (start + i) % n == Turn(start, i, n)
  {
    ModUnique(start, n, 0, start);
    ModStep(start, i, n);
  }

  /** Where the call after counter value `c` starts: the counter is a 64-bit word. */
  function Start(c: nat, n: nat): (s: nat)
    requires n > 0
    ensures s < n
  {
    ((c + 1) % COUNTER_WRAP) % n
  }

  lemma StartsBeforeWrap(c: nat, d: nat, n: nat)
    requires 0 < d < n && c + d + 1 < COUNTER_WRAP
    ensures Start(c, n) != Start(c + d, n)
  {
    ModUnique(c + 1, COUNTER_WRAP, 0, c + 1);
    ModUnique(c + 1 + d, COUNTER_WRAP, 0, c + 1 + d);
    ModStep(c + 1, d, n);
  }

  /** The start `x` calls before the counter wraps, and `y` calls after the first one after the wrap. */
  ghost function StartBefore(x: nat, n: nat): nat
    requires 1 <= x < COUNTER_WRAP && n > 0
  {
    Start(COUNTER_WRAP - x - 1, n)
  }

  ghost function StartAfter(y: nat, n: nat): nat
    requires n > 0
  {
    Start(COUNTER_WRAP + y - 1, n)
  }

  lemma StartBeforeIs(x: nat, n: nat)
    requires 1 <= x < n < COUNTER_WRAP
    ensures var r := COUNTER_WRAP % n; StartBefore(x, n) == if r >= x then r - x else r - x + n
  {
    ModUnique(COUNTER_WRAP - x, COUNTER_WRAP, 0, COUNTER_WRAP - x);
    ModStep(COUNTER_WRAP - x, x, n);
  }

  lemma StartAfterIs(y: nat, n: nat)
    requires y < n < COUNTER_WRAP
    ensures StartAfter(y, n) == y
  {
    ModUnique(COUNTER_WRAP + y, COUNTER_WRAP, 1, y);
    ModUnique(y, n, 0, y);
  }

  /** Over `n` consecutive calls around the wrap, `t` before it and `n - t` after it, no start before equals
      one after exactly when `n` divides the counter's range. */
  lemma StartsAroundWrapIff(t: nat, n: nat)
    requires 1 <= t < n < COUNTER_WRAP
    ensures (forall x: nat, y: nat :: 1 <= x <= t && y < n - t ==> StartBefore(x, n) != StartAfter(y, n))
        <==> COUNTER_WRAP % n == 0
  {
    var r := COUNTER_WRAP % n;
    forall x: nat, y: nat | 1 <= x <= t && y < n - t
      ensures StartBefore(x, n) == StartAfter(y, n) <==> y == if r >= x then r - x else r - x + n
    {
      StartBeforeIs(x, n);
      StartAfterIs(y, n);
    }
    if r != 0 {
      // A start that comes on both sides of the wrap.
      var y: nat := if r - 1 < n - t then r - 1 else n - t - 1;
      var x: nat := r - y;
      assert StartBefore(x, n) == StartAfter(y, n);
    }
  }

  // ---------- Scores ----------

  function Score(latency: map<string, real>, u: Upstream): real {
    if u.address in latency && latency[u.address] > 0.0 then latency[u.address] else WEIGHTED_MIN_LATENCY_MS
  }

  ghost predicate Ascending(order: seq<nat>, upstreams: seq<Upstream>, latency: map<string, real>)
    requires InRange(order, |upstreams|)
  {
    forall i, j :: 0 <= i < j < |order| ==> Score(latency, upstreams[order[i]]) <= Score(latency, upstreams[order[j]])
  }

  /** In an ascending order no upstream comes before one of lower latency; one without a positive latency counts as a
      millisecond. */
  lemma AscendingMeans(order: seq<nat>, upstreams: seq<Upstream>, latency: map<string, real>, i: nat, j: nat)
    requires InRange(order, |upstreams|) && Ascending(order, upstreams, latency) && i < j < |order|
    ensures var a, b := upstreams[order[i]].address, upstreams[order[j]].address;
            var x := if a in latency && latency[a] > 0.0 then latency[a] else 1.0;
            x <= if b in latency && latency[b] > 0.0 then latency[b] else 1.0
  {
  }

  datatype Scored = Scored(idx: nat, score: real)

  ghost predicate ScoresOf(scores: seq<Scored>, upstreams: seq<Upstream>, latency: map<string, real>) {
    && |scores| == |upstreams|
    && (forall i :: 0 <= i < |scores| ==>
          scores[i].idx < |upstreams| && scores[i].score == Score(latency, upstreams[scores[i].idx]))
    && forall i, j :: 0 <= i < j < |scores| ==> scores[i].idx != scores[j].idx
  }

  /** The first `n` scores are ascending, and none after them is lower. */
  ghost predicate SortedUpTo(scores: seq<Scored>, n: nat)
    requires n <= |scores|
  {
    forall i, j :: 0 <= i < n && i < j < |scores| ==> scores[i].score <= scores[j].score
  }

  ghost function Swapped(scores: seq<Scored>, i: nat, j: nat): (r: seq<Scored>)
    requires i < j < |scores|
    ensures |r| == |scores|
  {
    scores[i := scores[j]][j := scores[i]]
  }

  /** Swapping a lower score to the front of the unsorted part. */
  lemma SwapKeeps(scores: seq<Scored>, i: nat, j: nat, upstreams: seq<Upstream>, latency: map<string, real>)
    requires i < j < |scores| && ScoresOf(scores, upstreams, latency) && SortedUpTo(scores, i)
    ensures ScoresOf(Swapped(scores, i, j), upstreams, latency) && SortedUpTo(Swapped(scores, i, j), i)
  {
  }

  // ---------- Trying upstreams ----------

  /** What one upstream does: an error, no response, or a reply, which may be a SERVFAIL or truncated; then
      `tcpOk` says whether the retry over TCP succeeds. */
  datatype Reaction = Error | NoResponse | Reply(servfail: bool, truncated: bool, tcpOk: bool, elapsed: Duration)

  datatype Verdict = Failed | Silent | FailedOverTCP | Answered

  function Judge(u: Upstream, r: Reaction): Verdict {
    match r
    case Error => Failed
    case NoResponse => Silent
    case Reply(servfail, truncated, tcpOk, _) =>
      if servfail then Answered
      else if truncated && u.protocol !in ["tcp", "tls", "https", "quic"]
      then if tcpOk then Answered else FailedOverTCP
      else Answered
  }

  /** The backoff timers after a verdict; `d` is the configured backoff. */
  function TimersAfter(b: map<string, Time>, u: Upstream, v: Verdict, d: Duration, now: Time): map<string, Time> {
    if d <= 0 then b
    else
      match v
      case Failed => b[u.address := now + d]
      case Silent => b
      case FailedOverTCP => b[u.address := now + d]
      case Answered => b - {u.address}
  }

  function InBackoff(b: map<string, Time>, u: Upstream, d: Duration, now: Time): bool {
    d > 0 && u.address in b && b[u.address] > now
  }

  datatype Run = Run(winner: Option<nat>, timers: map<string, Time>)

  ghost predicate Sized(order: seq<nat>, ups: seq<Upstream>, reactions: seq<Reaction>, nows: seq<Time>) {
    InRange(order, |ups|) && |reactions| == |ups| && |nows| == |order|
  }

  /** The upstreams in `order`, tried one after the other; `nows[j]` is the clock at the j-th of them. */
  ghost function Walk(order: seq<nat>, ups: seq<Upstream>, reactions: seq<Reaction>, nows: seq<Time>,
                      b: map<string, Time>, d: Duration): Run
    requires Sized(order, ups, reactions, nows)
    decreases |order|
  {
    if order == [] then Run(None, b)
    else
      var u := ups[order[0]];
      if InBackoff(b, u, d, nows[0]) then Walk(order[1..], ups, reactions, nows[1..], b, d)
      else
        var v := Judge(u, reactions[order[0]]);
        var after := TimersAfter(b, u, v, d, nows[0]);
        if v.Answered? then Run(Some(order[0]), after)
        else Walk(order[1..], ups, reactions, nows[1..], after, d)
  }

  /** The reaction brings an answer: it is a SERVFAIL or complete, came over a stream, or is complete over TCP. */
  ghost predicate Answers(u: Upstream, r: Reaction) {
    && r.Reply?
    && (r.servfail || !r.truncated || r.tcpOk
        || u.protocol == "tcp" || u.protocol == "tls" || u.protocol == "https" || u.protocol == "quic")
  }

  /** A walk over one upstream. In backoff it is not asked, and its timer stays. Otherwise it wins exactly if it replies
      with a SERVFAIL, untruncated, over a stream, or with a retry over TCP that succeeds. Its timer is then cleared; it
      is set after an error and after a retry that failed, and stays without a response. With backoff off no timer
      changes. */
  lemma OneUpstream(u: Upstream, r: Reaction, now: Time, b: map<string, Time>, d: Duration)
    ensures var run := Walk([0], [u], [r], [now], b, d);
            var asked := d <= 0 || u.address !in b || b[u.address] <= now;
            var stream := u.protocol in {"tcp", "tls", "https", "quic"};
            && (run.winner == Some(0) <==>
                  asked && r.Reply? && (r.servfail || !r.truncated || stream || r.tcpOk))
            && (run.winner == None || run.winner == Some(0))
            && (run.timers != b ==> d > 0 && asked)
            && (d > 0 && asked && run.winner == Some(0) ==> run.timers == b - {u.address})
            && (d > 0 && asked && (r.Error? || (r.Reply? && r.truncated && !r.servfail && !stream && !r.tcpOk)) ==>
                  run.timers == b[u.address := now + d])
            && (r.NoResponse? ==> run.timers == b)
  {
    assert [0][1..] == [] && [now][1..] == [];
  }

  /** At its turn, by the timers at the outset, the j-th upstream would be asked and would answer. */
  ghost predicate Works(order: seq<nat>, ups: seq<Upstream>, reactions: seq<Reaction>, nows: seq<Time>,
                        b: map<string, Time>, d: Duration, j: nat)
    requires Sized(order, ups, reactions, nows) && j < |order|
  {
    var u := ups[order[j]];
    && (d <= 0 || u.address !in b || b[u.address] <= nows[j])
    && Answers(u, reactions[order[j]])
  }

  ghost predicate DistinctAddresses(order: seq<nat>, ups: seq<Upstream>)
    requires InRange(order, |ups|)
  {
    forall i, j :: 0 <= i < j < |order| ==> ups[order[i]].address != ups[order[j]].address
  }

  /** The first upstream in `order` that works is the one whose answer comes back; none does, and the
      exchange fails, exactly when none works. */
  ghost predicate FirstThatWorks(winner: Option<nat>, order: seq<nat>, ups: seq<Upstream>, reactions: seq<Reaction>,
                                 nows: seq<Time>, b: map<string, Time>, d: Duration)
    requires Sized(order, ups, reactions, nows)
  {
    match winner
    case None => forall j :: 0 <= j < |order| ==> !Works(order, ups, reactions, nows, b, d, j)
    case Some(w) =>
      exists j :: 0 <= j < |order| && order[j] == w && Works(order, ups, reactions, nows, b, d, j)
                  && forall i :: 0 <= i < j ==> !Works(order, ups, reactions, nows, b, d, i)
  }

  ghost predicate SameBut(b: map<string, Time>, after: map<string, Time>, address: string) {
    forall x :: x != address ==> (x in after <==> x in b) && (x in b ==> after[x] == b[x])
  }

  /** Trying one upstream does not touch the timers of other addresses. */
  lemma WorksShift(order: seq<nat>, ups: seq<Upstream>, reactions: seq<Reaction>, nows: seq<Time>,
                   b: map<string, Time>, after: map<string, Time>, d: Duration, j: nat)
    requires Sized(order, ups, reactions, nows) && DistinctAddresses(order, ups) && j + 1 < |order|
    requires SameBut(b, after, ups[order[0]].address)
    ensures Works(order[1..], ups, reactions, nows[1..], after, d, j) == Works(order, ups, reactions, nows, b, d, j + 1)
  {
    assert ups[order[0]].address != ups[order[j + 1]].address;
  }

  /** When the head does not work, the first that works is the first of the tail. */
  lemma FirstAfterHead(winner: Option<nat>, order: seq<nat>, ups: seq<Upstream>, reactions: seq<Reaction>,
                       nows: seq<Time>, b: map<string, Time>, after: map<string, Time>, d: Duration)
    requires Sized(order, ups, reactions, nows) && order != [] && !Works(order, ups, reactions, nows, b, d, 0)
    requires forall j: nat :: j + 1 < |order| ==>
               Works(order[1..], ups, reactions, nows[1..], after, d, j)
               == Works(order, ups, reactions, nows, b, d, j + 1)
    requires FirstThatWorks(winner, order[1..], ups, reactions, nows[1..], after, d)
    ensures FirstThatWorks(winner, order, ups, reactions, nows, b, d)
  {
    if winner.Some? {
      var j :| 0 <= j < |order[1..]| && order[1..][j] == winner.value
               && Works(order[1..], ups, reactions, nows[1..], after, d, j)
               && forall i :: 0 <= i < j ==> !Works(order[1..], ups, reactions, nows[1..], after, d, i);
      assert order[j + 1] == winner.value && Works(order, ups, reactions, nows, b, d, j + 1);
      forall i | 0 <= i < j + 1 ensures !Works(order, ups, reactions, nows, b, d, i) {
        if i > 0 {
          assert !Works(order[1..], ups, reactions, nows[1..], after, d, i - 1);
        }
      }
    } else {
      forall j | 0 <= j < |order| ensures !Works(order, ups, reactions, nows, b, d, j) {
        if j > 0 {
          assert !Works(order[1..], ups, reactions, nows[1..], after, d, j - 1);
        }
      }
    }
  }

  lemma FirstShift(winner: Option<nat>, order: seq<nat>, ups: seq<Upstream>, reactions: seq<Reaction>, nows: seq<Time>,
                   b: map<string, Time>, after: map<string, Time>, d: Duration)
    requires Sized(order, ups, reactions, nows) && DistinctAddresses(order, ups) && order != []
    requires SameBut(b, after, ups[order[0]].address)
    requires !Works(order, ups, reactions, nows, b, d, 0)
    requires FirstThatWorks(winner, order[1..], ups, reactions, nows[1..], after, d)
    ensures FirstThatWorks(winner, order, ups, reactions, nows, b, d)
  {
    forall j: nat | j + 1 < |order|
      ensures Works(order[1..], ups, reactions, nows[1..], after, d, j)
           == Works(order, ups, reactions, nows, b, d, j + 1)
    {
      WorksShift(order, ups, reactions, nows, b, after, d, j);
    }
    FirstAfterHead(winner, order, ups, reactions, nows, b, after, d);
  }

  /** Without backoff no timer is ever looked at. */
  lemma {:induction false} WalkWithoutBackoff(order: seq<nat>, ups: seq<Upstream>, reactions: seq<Reaction>,
                                              nows: seq<Time>, b: map<string, Time>, d: Duration)
    requires Sized(order, ups, reactions, nows) && d <= 0
    ensures var run := Walk(order, ups, reactions, nows, b, d);
            run.timers == b && FirstThatWorks(run.winner, order, ups, reactions, nows, b, d)
    decreases |order|
  {
    if order != [] {
      var u := ups[order[0]];
      if Judge(u, reactions[order[0]]).Answered? {
        assert Works(order, ups, reactions, nows, b, d, 0);
      } else {
        WalkWithoutBackoff(order[1..], ups, reactions, nows[1..], b, d);
        forall j: nat | j + 1 < |order|
          ensures Works(order[1..], ups, reactions, nows[1..], b, d, j)
               == Works(order, ups, reactions, nows, b, d, j + 1)
        {
        }
        FirstAfterHead(Walk(order, ups, reactions, nows, b, d).winner, order, ups, reactions, nows, b, b, d);
      }
    }
  }

  /** With distinct addresses or no backoff, who answers depends only on the timers at the outset. */
  lemma {:induction false} WalkFindsFirst(order: seq<nat>, ups: seq<Upstream>, reactions: seq<Reaction>,
                                          nows: seq<Time>, b: map<string, Time>, d: Duration)
    requires Sized(order, ups, reactions, nows) && (d <= 0 || DistinctAddresses(order, ups))
    ensures FirstThatWorks(Walk(order, ups, reactions, nows, b, d).winner, order, ups, reactions, nows, b, d)
    decreases |order|
  {
    if d <= 0 {
      WalkWithoutBackoff(order, ups, reactions, nows, b, d);
    } else if order != [] {
      var u := ups[order[0]];
      var v := Judge(u, reactions[order[0]]);
      if InBackoff(b, u, d, nows[0]) {
        WalkFindsFirst(order[1..], ups, reactions, nows[1..], b, d);
        FirstShift(Walk(order, ups, reactions, nows, b, d).winner, order, ups, reactions, nows, b, b, d);
      } else if v.Answered? {
        assert Works(order, ups, reactions, nows, b, d, 0);
      } else {
        var after := TimersAfter(b, u, v, d, nows[0]);
        WalkFindsFirst(order[1..], ups, reactions, nows[1..], after, d);
        FirstShift(Walk(order, ups, reactions, nows, b, d).winner, order, ups, reactions, nows, b, after, d);
      }
    }
  }

  ghost function TimerOf(b: map<string, Time>, address: string): Option<Time> {
    if address in b then Some(b[address]) else None
  }

  /** An upstream before the j-th of the order works, so that the j-th is not reached. */
  ghost predicate AnsweredBefore(order: seq<nat>, ups: seq<Upstream>, reactions: seq<Reaction>, nows: seq<Time>,
                                 b: map<string, Time>, d: Duration, j: nat)
    requires Sized(order, ups, reactions, nows) && j < |order|
  {
    exists i :: 0 <= i < j && Works(order, ups, reactions, nows, b, d, i)
  }

  /** What should become of the timer of the j-th upstream of the order. */
  ghost function TimerDue(order: seq<nat>, ups: seq<Upstream>, reactions: seq<Reaction>, nows: seq<Time>,
                          b: map<string, Time>, d: Duration, j: nat): Option<Time>
    requires Sized(order, ups, reactions, nows) && j < |order|
  {
    var u := ups[order[j]];
    if d <= 0 || AnsweredBefore(order, ups, reactions, nows, b, d, j) || (u.address in b && b[u.address] > nows[j])
    then TimerOf(b, u.address)
    else if Answers(u, reactions[order[j]]) then None
    else if reactions[order[j]] == NoResponse then TimerOf(b, u.address)
    else Some(nows[j] + d)
  }

  /** An exchange leaves the timers of other addresses alone. */
  lemma {:induction false} WalkOthers(order: seq<nat>, ups: seq<Upstream>, reactions: seq<Reaction>, nows: seq<Time>,
                                      b: map<string, Time>, d: Duration, address: string)
    requires Sized(order, ups, reactions, nows) && forall j :: 0 <= j < |order| ==> ups[order[j]].address != address
    ensures TimerOf(Walk(order, ups, reactions, nows, b, d).timers, address) == TimerOf(b, address)
    decreases |order|
  {
    if order != [] {
      var u := ups[order[0]];
      if InBackoff(b, u, d, nows[0]) {
        WalkOthers(order[1..], ups, reactions, nows[1..], b, d, address);
      } else {
        var after := TimersAfter(b, u, Judge(u, reactions[order[0]]), d, nows[0]);
        WalkOthers(order[1..], ups, reactions, nows[1..], after, d, address);
      }
    }
  }

  lemma TimerDueShift(order: seq<nat>, ups: seq<Upstream>, reactions: seq<Reaction>, nows: seq<Time>,
                      b: map<string, Time>, after: map<string, Time>, d: Duration, j: nat)
    requires Sized(order, ups, reactions, nows) && DistinctAddresses(order, ups) && 0 < j < |order|
    requires SameBut(b, after, ups[order[0]].address) && !Works(order, ups, reactions, nows, b, d, 0)
    ensures TimerDue(order[1..], ups, reactions, nows[1..], after, d, j - 1)
         == TimerDue(order, ups, reactions, nows, b, d, j)
  {
    forall i: nat | i + 1 < |order|
      ensures Works(order[1..], ups, reactions, nows[1..], after, d, i)
           == Works(order, ups, reactions, nows, b, d, i + 1)
    {
      WorksShift(order, ups, reactions, nows, b, after, d, i);
    }
    if AnsweredBefore(order, ups, reactions, nows, b, d, j) {
      var i :| 0 <= i < j && Works(order, ups, reactions, nows, b, d, i);
      assert Works(order[1..], ups, reactions, nows[1..], after, d, i - 1);
    }
  }

  /** With distinct addresses or no backoff, the timers after an exchange: set for each upstream that was tried and
      failed, cleared for the one that answered, and as before for those in backoff, silent or not reached. */
  lemma {:induction false} WalkTimers(order: seq<nat>, ups: seq<Upstream>, reactions: seq<Reaction>, nows: seq<Time>,
                                      b: map<string, Time>, d: Duration, j: nat)
    requires Sized(order, ups, reactions, nows) && (d <= 0 || DistinctAddresses(order, ups)) && j < |order|
    ensures TimerOf(Walk(order, ups, reactions, nows, b, d).timers, ups[order[j]].address)
         == TimerDue(order, ups, reactions, nows, b, d, j)
    decreases |order|
  {
    var u := ups[order[0]];
    var v := Judge(u, reactions[order[0]]);
    var after := if InBackoff(b, u, d, nows[0]) then b else TimersAfter(b, u, v, d, nows[0]);
    if d <= 0 {
      WalkWithoutBackoff(order, ups, reactions, nows, b, d);
    } else if Works(order, ups, reactions, nows, b, d, 0) {
      if j > 0 { assert AnsweredBefore(order, ups, reactions, nows, b, d, j); }
    } else if j == 0 {
      WalkOthers(order[1..], ups, reactions, nows[1..], after, d, u.address);
    } else {
      WalkTimers(order[1..], ups, reactions, nows[1..], after, d, j - 1);
      TimerDueShift(order, ups, reactions, nows, b, after, d, j);
    }
  }

  // ---------- Latencies ----------

  /** The moving average after one more measurement, in milliseconds: a fifth of the way goes. */
  function Average(old_: real, ms: real): (avg: real)
    ensures old_ <= ms ==> old_ <= avg <= ms
    ensures ms <= old_ ==> ms <= avg <= old_
    ensures 5.0 * (avg - ms) == 4.0 * (old_ - ms)
  {
    WEIGHTED_EWMA_ALPHA * ms + (1.0 - WEIGHTED_EWMA_ALPHA) * old_
  }

  function Milliseconds(elapsed: Duration): (ms: real)
    ensures elapsed >= 1_000_000 ==> ms * 1_000_000.0 == elapsed as real
    ensures elapsed < 1_000_000 ==> ms == 1.0
  {
    var ms := elapsed as real / 1_000_000.0;
    if ms < WEIGHTED_MIN_LATENCY_MS then WEIGHTED_MIN_LATENCY_MS else ms
  }

  ghost function Measured(lat: map<string, real>, u: Upstream, r: Reaction): map<string, real> {
    if r.Reply? && u.address in lat then lat[u.address := Average(lat[u.address], Milliseconds(r.elapsed))] else lat
  }

  /** The latencies after the upstreams in `order` were tried as in Walk. */
  ghost function Learned(order: seq<nat>, ups: seq<Upstream>, reactions: seq<Reaction>, nows: seq<Time>,
                         b: map<string, Time>, d: Duration, lat: map<string, real>): map<string, real>
    requires Sized(order, ups, reactions, nows)
    decreases |order|
  {
    if order == [] then lat
    else
      var u := ups[order[0]];
      if InBackoff(b, u, d, nows[0]) then Learned(order[1..], ups, reactions, nows[1..], b, d, lat)
      else
        var v := Judge(u, reactions[order[0]]);
        var more := Measured(lat, u, reactions[order[0]]);
        if v.Answered? then more
        else Learned(order[1..], ups, reactions, nows[1..], TimersAfter(b, u, v, d, nows[0]), d, more)
  }

  lemma {:induction false} LearnedOthers(order: seq<nat>, ups: seq<Upstream>, reactions: seq<Reaction>,
                                         nows: seq<Time>, b: map<string, Time>, d: Duration, lat: map<string, real>,
                                         address: string)
    requires Sized(order, ups, reactions, nows) && address in lat
    requires forall j :: 0 <= j < |order| ==> ups[order[j]].address != address
    ensures var after := Learned(order, ups, reactions, nows, b, d, lat);
            address in after && after[address] == lat[address]
    decreases |order|
  {
    if order != [] {
      var u := ups[order[0]];
      if InBackoff(b, u, d, nows[0]) {
        LearnedOthers(order[1..], ups, reactions, nows[1..], b, d, lat, address);
      } else {
        var after := TimersAfter(b, u, Judge(u, reactions[order[0]]), d, nows[0]);
        LearnedOthers(order[1..], ups, reactions, nows[1..], after, d, Measured(lat, u, reactions[order[0]]), address);
      }
    }
  }

  /** The upstream is asked in its turn and replies: only then is there something to measure. */
  ghost predicate Replies(order: seq<nat>, ups: seq<Upstream>, reactions: seq<Reaction>, nows: seq<Time>,
                          b: map<string, Time>, d: Duration, j: nat)
    requires Sized(order, ups, reactions, nows) && j < |order|
  {
    var u := ups[order[j]];
    && !AnsweredBefore(order, ups, reactions, nows, b, d, j)
    && (d <= 0 || u.address !in b || b[u.address] <= nows[j])
    && reactions[order[j]].Reply?
  }

  lemma RepliesShift(order: seq<nat>, ups: seq<Upstream>, reactions: seq<Reaction>, nows: seq<Time>,
                     b: map<string, Time>, after: map<string, Time>, d: Duration, j: nat)
    requires Sized(order, ups, reactions, nows) && DistinctAddresses(order, ups) && 0 < j < |order|
    requires SameBut(b, after, ups[order[0]].address) && !Works(order, ups, reactions, nows, b, d, 0)
    ensures Replies(order[1..], ups, reactions, nows[1..], after, d, j - 1)
         == Replies(order, ups, reactions, nows, b, d, j)
  {
    forall i: nat | i + 1 < |order|
      ensures Works(order[1..], ups, reactions, nows[1..], after, d, i)
           == Works(order, ups, reactions, nows, b, d, i + 1)
    {
      WorksShift(order, ups, reactions, nows, b, after, d, i);
    }
    if AnsweredBefore(order, ups, reactions, nows, b, d, j) {
      var i :| 0 <= i < j && Works(order, ups, reactions, nows, b, d, i);
      assert Works(order[1..], ups, reactions, nows[1..], after, d, i - 1);
    }
    assert ups[order[0]].address != ups[order[j]].address;
  }

  /** With distinct addresses an exchange measures exactly the upstreams that are asked and reply, whether the reply is
      taken or not; the other averages stay. */
  lemma {:induction false} LearnedIs(order: seq<nat>, ups: seq<Upstream>, reactions: seq<Reaction>, nows: seq<Time>,
                                     b: map<string, Time>, d: Duration, lat: map<string, real>, j: nat)
    requires Sized(order, ups, reactions, nows) && DistinctAddresses(order, ups) && j < |order|
    requires ups[order[j]].address in lat
    ensures var after := Learned(order, ups, reactions, nows, b, d, lat);
            var a := ups[order[j]].address; var r := reactions[order[j]];
            && a in after
            && after[a] == if Replies(order, ups, reactions, nows, b, d, j)
                           then Average(lat[a], Milliseconds(r.elapsed)) else lat[a]
    decreases |order|
  {
    var u := ups[order[0]];
    var r := reactions[order[0]];
    var waits := InBackoff(b, u, d, nows[0]);
    var after := if waits then b else TimersAfter(b, u, Judge(u, r), d, nows[0]);
    var more := if waits then lat else Measured(lat, u, r);
    if Works(order, ups, reactions, nows, b, d, 0) {
      if j > 0 {
        assert AnsweredBefore(order, ups, reactions, nows, b, d, j);
        assert ups[order[0]].address != ups[order[j]].address;
      }
    } else if j == 0 {
      LearnedOthers(order[1..], ups, reactions, nows[1..], after, d, more, u.address);
    } else {
      assert ups[order[0]].address != ups[order[j]].address;
      LearnedIs(order[1..], ups, reactions, nows[1..], after, d, more, j - 1);
      RepliesShift(order, ups, reactions, nows, b, after, d, j);
    }
  }

  // ---------- Shared addresses ----------

  /** Whatever the upstreams do, and whenever they are reached, the first that works by the timers at the outset
      answers. */
  ghost predicate AnswersFirst(order: seq<nat>, ups: seq<Upstream>, d: Duration)
    requires InRange(order, |ups|)
  {
    forall reactions: seq<Reaction>, nows: seq<Time>, b: map<string, Time> | Sized(order, ups, reactions, nows) ::
      FirstThatWorks(Walk(order, ups, reactions, nows, b, d).winner, order, ups, reactions, nows, b, d)
  }

  /** Likewise, each upstream's timer ends up as its own try leaves it. */
  ghost predicate TimersAsDue(order: seq<nat>, ups: seq<Upstream>, d: Duration)
    requires InRange(order, |ups|)
  {
    forall reactions: seq<Reaction>, nows: seq<Time>, b: map<string, Time>, j: nat
      | Sized(order, ups, reactions, nows) && j < |order| ::
      TimerOf(Walk(order, ups, reactions, nows, b, d).timers, ups[order[j]].address)
      == TimerDue(order, ups, reactions, nows, b, d, j)
  }

  /** At time 0, only upstream `w` would answer; but each of its places in the order comes after a failure at its
      address, or while that address is in backoff. */
  ghost predicate Blocked(order: seq<nat>, ups: seq<Upstream>, reactions: seq<Reaction>, nows: seq<Time>,
                          b: map<string, Time>, w: nat)
    requires Sized(order, ups, reactions, nows) && w < |ups|
  {
    && (forall k :: 0 <= k < |order| ==> nows[k] == 0 && (order[k] == w || reactions[order[k]] == Error))
    && forall k :: 0 <= k < |order| && order[k] == w ==>
         || (ups[w].address in b && b[ups[w].address] > 0)
         || exists i :: 0 <= i < k && ups[order[i]].address == ups[w].address
  }

  /** Then nobody answers, and every address of the order has a timer. */
  lemma {:induction false} BlockedWalk(order: seq<nat>, ups: seq<Upstream>, reactions: seq<Reaction>, nows: seq<Time>,
                                       b: map<string, Time>, d: Duration, w: nat)
    requires Sized(order, ups, reactions, nows) && d > 0 && w < |ups|
    requires Blocked(order, ups, reactions, nows, b, w)
    ensures var run := Walk(order, ups, reactions, nows, b, d);
            && run.winner == None && b.Keys <= run.timers.Keys
            && forall k :: 0 <= k < |order| ==> ups[order[k]].address in run.timers
    decreases |order|
  {
    if order != [] {
      var u := ups[order[0]];
      var after := if InBackoff(b, u, d, nows[0]) then b else b[u.address := d];
      assert u.address in after && after[u.address] > 0;
      forall k | 0 <= k < |order[1..]| && order[1..][k] == w
        ensures || (ups[w].address in after && after[ups[w].address] > 0)
                || exists i :: 0 <= i < k && ups[order[1..][i]].address == ups[w].address
      {
        if !(ups[w].address in b && b[ups[w].address] > 0) {
          var i :| 0 <= i < k + 1 && ups[order[i]].address == ups[w].address;
          if i > 0 {
            assert ups[order[1..][i - 1]].address == ups[w].address;
          }
        }
      }
      BlockedWalk(order[1..], ups, reactions, nows[1..], after, d, w);
      forall k | 0 <= k < |order|
        ensures ups[order[k]].address in Walk(order[1..], ups, reactions, nows[1..], after, d).timers
      {
        assert k > 0 ==> order[k] == order[1..][k - 1];
      }
    }
  }

  /** Two upstreams with one address share a timer: when all fail but the second of them, it is skipped. */
  lemma SharedAddressIsSkipped(order: seq<nat>, ups: seq<Upstream>, d: Duration, i: nat, j: nat)
    returns (reactions: seq<Reaction>, nows: seq<Time>)
    requires InRange(order, |ups|) && NoRepeats(order) && d > 0
    requires i < j < |order| && ups[order[i]].address == ups[order[j]].address
    ensures Sized(order, ups, reactions, nows)
    ensures Walk(order, ups, reactions, nows, map[], d).winner == None
    ensures Works(order, ups, reactions, nows, map[], d, j)
    ensures TimerOf(Walk(order, ups, reactions, nows, map[], d).timers, ups[order[j]].address) != None
    ensures TimerDue(order, ups, reactions, nows, map[], d, j) == None
  {
    var w := order[j];
    reactions := seq(|ups|, k => if k == w then Reply(false, false, true, 0) else Error);
    nows := seq(|order|, _ => 0);
    assert forall k :: 0 <= k < |order| && order[k] == w ==> k == j;
    BlockedWalk(order, ups, reactions, nows, map[], d, w);
    forall k | 0 <= k < j ensures !Works(order, ups, reactions, nows, map[], d, k) {
      assert order[k] != w;
    }
  }

  /** In the order of a permutation the addresses are distinct exactly when the configured ones are. */
  lemma DistinctAsConfigured(order: seq<nat>, ups: seq<Upstream>)
    requires Permutation(order, |ups|)
    ensures DistinctAddresses(order, ups) <==> forall i, j :: 0 <= i < j < |ups| ==> ups[i].address != ups[j].address
  {
    PermutationCovers(order, |ups|);
    if DistinctAddresses(order, ups) {
      forall i: nat, j: nat | i < j < |ups| ensures ups[i].address != ups[j].address {
        assert i in order && j in order;
        var p :| 0 <= p < |order| && order[p] == i;
        var q :| 0 <= q < |order| && order[q] == j;
        assert p < q ==> ups[order[p]].address != ups[order[q]].address;
        assert q < p ==> ups[order[q]].address != ups[order[p]].address;
      }
    } else {
      var p, q :| 0 <= p < q < |order| && ups[order[p]].address == ups[order[q]].address;
      assert order[p] != order[q];
    }
  }

  /** The first upstream that works is the one that answers, in every exchange, if and only if there is no backoff or
      the addresses are distinct. */
  lemma AnswersFirstIff(order: seq<nat>, ups: seq<Upstream>, d: Duration)
    requires InRange(order, |ups|) && NoRepeats(order)
    ensures AnswersFirst(order, ups, d) <==> d <= 0 || DistinctAddresses(order, ups)
  {
    if d <= 0 || DistinctAddresses(order, ups) {
      forall reactions: seq<Reaction>, nows: seq<Time>, b: map<string, Time> | Sized(order, ups, reactions, nows)
        ensures FirstThatWorks(Walk(order, ups, reactions, nows, b, d).winner, order, ups, reactions, nows, b, d)
      {
        WalkFindsFirst(order, ups, reactions, nows, b, d);
      }
    } else {
      var i, j :| 0 <= i < j < |order| && ups[order[i]].address == ups[order[j]].address;
      var reactions, nows := SharedAddressIsSkipped(order, ups, d, i, j);
      assert !FirstThatWorks(None, order, ups, reactions, nows, map[], d);
    }
  }

  /** So it is with the timers. */
  lemma TimersAsDueIff(order: seq<nat>, ups: seq<Upstream>, d: Duration)
    requires InRange(order, |ups|) && NoRepeats(order)
    ensures TimersAsDue(order, ups, d) <==> d <= 0 || DistinctAddresses(order, ups)
  {
    if d <= 0 || DistinctAddresses(order, ups) {
      forall reactions: seq<Reaction>, nows: seq<Time>, b: map<string, Time>, j: nat
        | Sized(order, ups, reactions, nows) && j < |order|
        ensures TimerOf(Walk(order, ups, reactions, nows, b, d).timers, ups[order[j]].address)
             == TimerDue(order, ups, reactions, nows, b, d, j)
      {
        WalkTimers(order, ups, reactions, nows, b, d, j);
      }
    } else {
      var i, j :| 0 <= i < j < |order| && ups[order[i]].address == ups[order[j]].address;
      var reactions, nows := SharedAddressIsSkipped(order, ups, d, i, j);
    }
  }

  // ---------- The manager object ----------

  /** Every known latency is at least the minimum, so the score of a known upstream is its latency. */
  ghost predicate LatenciesOk(latency: map<string, real>) {
    forall a <- latency :: latency[a] >= WEIGHTED_MIN_LATENCY_MS
  }

  class UpstreamManager {
    var servers: seq<Upstream>
    var strategy: Strategy
    var backoff: Duration
    var backoffUntil: map<string, Time>
    var loadBalanceNext: nat
    var weightedLatency: map<string, real>

    ghost predicate Valid()
      reads this
    {
      loadBalanceNext < COUNTER_WRAP && LatenciesOk(weightedLatency)
    }

    constructor (servers: seq<Upstream>, strategy: Strategy, backoff: Duration)
      ensures Valid() && this.servers == servers && this.strategy == strategy && this.backoff == backoff
      ensures backoffUntil == map[] && loadBalanceNext == 0
      ensures weightedLatency ==
              if strategy.Weighted? then (map u | u in servers :: u.address := INITIAL_LATENCY_MS) else map[]
    {
      this.servers, this.strategy, this.backoff := servers, strategy, backoff;
      backoffUntil, loadBalanceNext := map[], 0;
      weightedLatency :=
        if strategy.Weighted? then (map u | u in servers :: u.address := INITIAL_LATENCY_MS) else map[];
    }

    /** The order in which to try the upstreams. */
    method Order(upstreams: seq<Upstream>) returns (order: seq<nat>)
      requires Valid()
      modifies this`loadBalanceNext
      ensures Valid() && Permutation(order, |upstreams|)
      ensures strategy.LoadBalance? && upstreams != [] ==>
                && loadBalanceNext == (old(loadBalanceNext) + 1) % COUNTER_WRAP
                && order[0] == loadBalanceNext % |upstreams|
                && forall i :: 0 <= i < |order| ==>
                     order[i] == Turn(Start(old(loadBalanceNext), |upstreams|), i, |upstreams|)
      ensures !(strategy.LoadBalance? && upstreams != []) ==> loadBalanceNext == old(loadBalanceNext)
      ensures strategy.Weighted? ==> Ascending(order, upstreams, weightedLatency)
      ensures strategy.InOrder? ==> forall i :: 0 <= i < |order| ==> order[i] == i
    {
      match strategy
      case LoadBalance =>
        var n := |upstreams|;
        if n == 0 { return []; }
        loadBalanceNext := (loadBalanceNext + 1) % COUNTER_WRAP;
        var start := loadBalanceNext % n;
        order := [];
        for i := 0 to n
          invariant loadBalanceNext == (old(loadBalanceNext) + 1) % COUNTER_WRAP
          invariant |order| == i
          invariant forall j :: 0 <= j < i ==> order[j] == Turn(start, j, n)
        {
          TurnIsMod(start, i, n);
          order := order + [(start + i) % n];
        }
      case Weighted =>
        order := WeightedOrder(upstreams);
      case InOrder =>
        order := [];
        for i := 0 to |upstreams|
          invariant loadBalanceNext == old(loadBalanceNext)
          invariant |order| == i && forall j :: 0 <= j < i ==> order[j] == j
        {
          order := order + [i];
        }
    }

    /** Exchange sort of the indices by score. */
    method WeightedOrder(upstreams: seq<Upstream>) returns (order: seq<nat>)
      ensures Permutation(order, |upstreams|) && Ascending(order, upstreams, weightedLatency)
    {
      var n := |upstreams|;
      var latency := weightedLatency;
      var scores := new Scored[n](i requires 0 <= i < n => Scored(i, Score(latency, upstreams[i])));
      var i := 0;
      while i < n - 1
        invariant 0 <= i <= n && (n > 0 ==> i <= n - 1)
        invariant ScoresOf(scores[..], upstreams, weightedLatency) && SortedUpTo(scores[..], i)
      {
        SortFrom(scores, i, upstreams);
        i := i + 1;
      }
      order := seq(n, j requires 0 <= j < n reads scores => scores[j].idx);
    }

    /** Brings the lowest of the scores from `i` on to place `i`. */
    method SortFrom(scores: array<Scored>, i: nat, upstreams: seq<Upstream>)
      requires i < scores.Length && ScoresOf(scores[..], upstreams, weightedLatency) && SortedUpTo(scores[..], i)
      modifies scores
      ensures ScoresOf(scores[..], upstreams, weightedLatency) && SortedUpTo(scores[..], i + 1)
    {
      var j := i + 1;
      while j < scores.Length
        invariant i < j <= scores.Length
        invariant ScoresOf(scores[..], upstreams, weightedLatency) && SortedUpTo(scores[..], i)
        invariant forall k :: i < k < j ==> scores[i].score <= scores[k].score
      {
        if scores[j].score < scores[i].score {
          ghost var was := scores[..];
          SwapKeeps(was, i, j, upstreams, weightedLatency);
          scores[i], scores[j] := scores[j], scores[i];
          assert scores[..] == Swapped(was, i, j);
        }
        j := j + 1;
      }
    }

    method UpdateWeightedLatency(address: string, elapsed: Duration)
      requires Valid()
      modifies this`weightedLatency
      ensures Valid()
      ensures weightedLatency == if address in old(weightedLatency)
                then old(weightedLatency)[address := Average(old(weightedLatency)[address], Milliseconds(elapsed))]
                else old(weightedLatency)
    {
      if address in weightedLatency {
        weightedLatency := weightedLatency[address := Average(weightedLatency[address], Milliseconds(elapsed))];
      }
    }

    /** Tries the servers in order until one answers; `reactions[i]` is what server `i` would do and
        `nows[j]` the clock when the j-th of the order is reached. */
    method Exchange(reactions: seq<Reaction>, nows: seq<Time>) returns (winner: Option<nat>, order: seq<nat>)
      requires Valid() && |reactions| == |servers| && |nows| == |servers|
      modifies this`backoffUntil, this`loadBalanceNext, this`weightedLatency
      ensures Valid() && Permutation(order, |servers|) && Sized(order, servers, reactions, nows)
      ensures Walk(order, servers, reactions, nows, old(backoffUntil), backoff) == Run(winner, backoffUntil)
      ensures weightedLatency == if strategy.Weighted?
                then Learned(order, servers, reactions, nows, old(backoffUntil), backoff, old(weightedLatency))
                else old(weightedLatency)
    {
      if servers == [] { return None, []; }
      order := Order(servers);
      for j := 0 to |order|
        invariant Valid()
        invariant strategy.Weighted? ==>
                    Learned(order, servers, reactions, nows, old(backoffUntil), backoff, old(weightedLatency))
                    == Learned(order[j..], servers, reactions, nows[j..], backoffUntil, backoff, weightedLatency)
        invariant !strategy.Weighted? ==> weightedLatency == old(weightedLatency)
        invariant Sized(order, servers, reactions, nows) && Sized(order[j..], servers, reactions, nows[j..])
        invariant Walk(order, servers, reactions, nows, old(backoffUntil), backoff)
               == Walk(order[j..], servers, reactions, nows[j..], backoffUntil, backoff)
      {
        var idx := order[j];
        var u := servers[idx];
        assert order[j..][1..] == order[j + 1..] && nows[j..][1..] == nows[j + 1..];
        if InBackoff(backoffUntil, u, backoff, nows[j]) { continue; }
        var r := reactions[idx];
        var v := Judge(u, r);
        if r.Reply? && strategy.Weighted? {
          UpdateWeightedLatency(u.address, r.elapsed);
        }
        backoffUntil := TimersAfter(backoffUntil, u, v, backoff, nows[j]);
        if v.Answered? {
          return Some(idx), order;
        }
      }
      winner := None;
    }

    /** New servers and strategy: timers of addresses that are gone are dropped, the others kept; under the weighted
        strategy the latencies are those of the new servers, kept where known. */
    method ApplyConfig(servers: seq<Upstream>, strategy: Strategy, backoff: Duration)
      requires Valid()
      modifies this
      ensures Valid() && this.servers == servers && this.strategy == strategy && this.backoff == backoff
      ensures loadBalanceNext == old(loadBalanceNext)
      ensures forall a :: a in backoffUntil <==> a in old(backoffUntil) && exists u <- servers :: u.address == a
      ensures forall a <- backoffUntil :: backoffUntil[a] == old(backoffUntil)[a]
      ensures strategy.Weighted? ==>
                (forall a :: a in weightedLatency <==> exists u <- servers :: u.address == a)
                && forall a <- weightedLatency :: weightedLatency[a] ==
                     if a in old(weightedLatency) then old(weightedLatency)[a] else INITIAL_LATENCY_MS
      ensures !strategy.Weighted? ==> weightedLatency == old(weightedLatency)
    {
      this.servers, this.strategy, this.backoff := servers, strategy, backoff;
      backoffUntil := map a | a in backoffUntil && exists u <- servers :: u.address == a :: backoffUntil[a];
      if strategy.Weighted? {
        weightedLatency := map u | u in servers :: u.address :=
          if u.address in weightedLatency then weightedLatency[u.address] else INITIAL_LATENCY_MS;
      }
    }
  }
}
