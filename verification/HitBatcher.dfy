/** Hit counts batched into pipelined increments, with a future per waiting caller. */
module HitBatcher {
  import opened Types

  const MAX_BATCH_SIZE: nat := 100

  /** Pending increments of one key and the futures that wait for its new count. */
  datatype Entry<F> = Entry(delta: nat, window: Duration, futures: seq<F>)

  type Batch<F> = map<Key, Entry<F>>

  // ---------- Adding ----------

  /** One more hit of `k`, with its futures; the window is that of the first hit of the batch. */
  function Add<F>(m: Batch<F>, k: Key, window: Duration, futures: seq<F>): Batch<F> {
    var e := if k in m then m[k] else Entry(0, window, []);
    m[k := e.(delta := e.delta + 1, futures := e.futures + futures)]
  }

  ghost function Delta<F>(m: Batch<F>, k: Key): nat {
    if k in m then m[k].delta else 0
  }

  ghost function Waiting<F>(m: Batch<F>, k: Key): multiset<F> {
    if k in m then multiset(m[k].futures) else multiset{}
  }

  // ---------- Adders and flushers, interleaved ----------

  /** A future that was closed, with the count it was sent, if any. */
  datatype Close<F> = Close(key: Key, future: F, value: Option<int>)

  /** `detached` holds the batches that flushers have taken away and not yet submitted. The rest is history: how
      many hits each key was given, how much of that reached the pipeline, the futures handed out and those closed.
      */
  datatype State<F> = State(pending: Batch<F>, detached: seq<Batch<F>>,
                            added: map<Key, nat>, submitted: map<Key, nat>,
                            made: map<Key, multiset<F>>, closes: seq<Close<F>>)

  datatype Op<F> =
    | AddHit(k: Key, window: Duration, future: F)
    | AddHitFireAndForget(k: Key, window: Duration)
    | Detach
    | Exec(i: nat, counts: Option<map<Key, int>>, order: seq<Key>)

  ghost function At<T>(m: map<Key, T>, k: Key, zero: T): T {
    if k in m then m[k] else zero
  }

  ghost function Made<F>(s: State<F>, k: Key): multiset<F> {
    At(s.made, k, multiset{})
  }

  /** The keys of a batch in the order in which the flusher met them. */
  ghost predicate Visits<F>(m: Batch<F>, order: seq<Key>) {
    && (forall k :: k in order <==> k in m)
    && forall i, j :: 0 <= i < j < |order| ==> order[i] != order[j]
  }

  ghost predicate Can<F>(s: State<F>, op: Op<F>) {
    match op
    case AddHit(k, _, f) => forall x <- s.made :: f !in s.made[x]
    case AddHitFireAndForget(_, _) => true
    case Detach => true
    case Exec(i, counts, order) => i < |s.detached| && Visits(s.detached[i], order)
  }

  /** The futures of one entry, closed in turn: after an error without a value. */
  ghost function CloseAll<F>(k: Key, futures: seq<F>, value: Option<int>): (r: seq<Close<F>>)
    ensures |r| == |futures|
  {
    seq(|futures|, i requires 0 <= i < |futures| => Close(k, futures[i], value))
  }

  ghost function CloseBatch<F>(m: Batch<F>, order: seq<Key>, counts: Option<map<Key, int>>): seq<Close<F>>
    requires forall k <- order :: k in m
  {
    if order == [] then []
    else
      var k := order[0];
      var value := if counts.Some? then Some(At(counts.value, k, 0)) else None;
      CloseAll(k, m[k].futures, value) + CloseBatch(m, order[1..], counts)
  }

  ghost function Submit<F>(submitted: map<Key, nat>, m: Batch<F>): map<Key, nat> {
    map k | k in submitted.Keys + m.Keys :: At(submitted, k, 0) + Delta(m, k)
  }

  ghost function Step<F>(s: State<F>, op: Op<F>): State<F>
    requires Can(s, op)
  {
    match op
    case AddHit(k, window, f) =>
      s.(pending := Add(s.pending, k, window, [f]), added := s.added[k := At(s.added, k, 0) + 1],
         made := s.made[k := Made(s, k) + multiset{f}])
    case AddHitFireAndForget(k, window) =>
      s.(pending := Add(s.pending, k, window, []), added := s.added[k := At(s.added, k, 0) + 1])
    case Detach => s.(pending := map[], detached := s.detached + [s.pending])
    case Exec(i, counts, order) =>
      s.(detached := s.detached[..i] + s.detached[i + 1..],
         submitted := Submit(s.submitted, s.detached[i]),
         closes := s.closes + CloseBatch(s.detached[i], order, counts))
  }

  // ---------- Conservation ----------

  ghost function SumDelta<F>(ms: seq<Batch<F>>, k: Key): nat {
    if ms == [] then 0 else Delta(ms[0], k) + SumDelta(ms[1..], k)
  }

  ghost function SumWaiting<F>(ms: seq<Batch<F>>, k: Key): multiset<F> {
    if ms == [] then multiset{} else Waiting(ms[0], k) + SumWaiting(ms[1..], k)
  }

  /** The futures of `k` that were closed. */
  ghost function Closed<F>(closes: seq<Close<F>>, k: Key): multiset<F> {
    if closes == [] then multiset{}
    else (if closes[0].key == k then multiset{closes[0].future} else multiset{}) + Closed(closes[1..], k)
  }

  ghost predicate HitsBalance<F>(s: State<F>, k: Key) {
    At(s.added, k, 0) == Delta(s.pending, k) + SumDelta(s.detached, k) + At(s.submitted, k, 0)
  }

  ghost predicate FuturesBalance<F>(s: State<F>, k: Key) {
    Made(s, k) == Waiting(s.pending, k) + SumWaiting(s.detached, k) + Closed(s.closes, k)
  }

  /** No future was handed out twice. */
  ghost predicate OwnFutures<F>(made: map<Key, multiset<F>>) {
    forall k <- made :: forall f <- made[k] :: made[k][f] == 1 && forall x <- made :: x != k ==> f !in made[x]
  }

  /** Nothing is lost or counted twice: each hit is pending, detached or submitted, and each future
      is waiting in one place or has been closed, once. */
  ghost predicate Conserved<F>(s: State<F>) {
    && (forall k: Key :: HitsBalance(s, k))
    && (forall k: Key :: FuturesBalance(s, k))
    && OwnFutures(s.made)
  }

  lemma {:induction false} SumConcat<F>(a: seq<Batch<F>>, b: seq<Batch<F>>, k: Key)
    ensures SumDelta(a + b, k) == SumDelta(a, k) + SumDelta(b, k)
    ensures SumWaiting(a + b, k) == SumWaiting(a, k) + SumWaiting(b, k)
  {
    if a == [] {
      assert a + b == b;
    } else {
      assert (a + b)[1..] == a[1..] + b;
      SumConcat(a[1..], b, k);
    }
  }

  lemma SumAppend<F>(ms: seq<Batch<F>>, m: Batch<F>, k: Key)
    ensures SumDelta(ms + [m], k) == SumDelta(ms, k) + Delta(m, k)
    ensures SumWaiting(ms + [m], k) == SumWaiting(ms, k) + Waiting(m, k)
  {
    SumConcat(ms, [m], k);
    assert [m][1..] == [];
  }

  lemma SumHead<F>(ms: seq<Batch<F>>, i: nat, k: Key)
    requires i < |ms|
    ensures SumDelta(ms[i..], k) == Delta(ms[i], k) + SumDelta(ms[i + 1..], k)
    ensures SumWaiting(ms[i..], k) == Waiting(ms[i], k) + SumWaiting(ms[i + 1..], k)
  {
    assert ms[i..][1..] == ms[i + 1..];
  }

  lemma SwapLast<F>(a: multiset<F>, b: multiset<F>, c: multiset<F>)
    ensures a + (b + c) == a + c + b
  {
  }

  lemma SumTakeOut<F>(ms: seq<Batch<F>>, i: nat, k: Key)
    requires i < |ms|
    ensures SumDelta(ms, k) == SumDelta(ms[..i] + ms[i + 1..], k) + Delta(ms[i], k)
    ensures SumWaiting(ms, k) == SumWaiting(ms[..i] + ms[i + 1..], k) + Waiting(ms[i], k)
  {
    SumHead(ms, i, k);
    SumConcat(ms[..i], ms[i + 1..], k);
    SumConcat(ms[..i], ms[i..], k);
    assert ms[..i] + ms[i..] == ms;
    SwapLast(SumWaiting(ms[..i], k), Waiting(ms[i], k), SumWaiting(ms[i + 1..], k));
  }

  lemma ClosedAppend<F>(a: seq<Close<F>>, b: seq<Close<F>>, k: Key)
    ensures Closed(a + b, k) == Closed(a, k) + Closed(b, k)
  {
    if a == [] {
      assert a + b == b;
    } else {
      assert (a + b)[1..] == a[1..] + b;
      ClosedAppend(a[1..], b, k);
    }
  }

  lemma ClosedAll<F>(key: Key, futures: seq<F>, value: Option<int>, k: Key)
    ensures Closed(CloseAll(key, futures, value), k) == if key == k then multiset(futures) else multiset{}
  {
    if futures != [] {
      assert CloseAll(key, futures, value)[1..] == CloseAll(key, futures[1..], value);
      ClosedAll(key, futures[1..], value, k);
      assert futures == [futures[0]] + futures[1..];
    }
  }

  lemma ClosedBatch<F>(m: Batch<F>, order: seq<Key>, counts: Option<map<Key, int>>, k: Key)
    requires forall x <- order :: x in m
    requires forall i, j :: 0 <= i < j < |order| ==> order[i] != order[j]
    ensures Closed(CloseBatch(m, order, counts), k) == if k in order then multiset(m[k].futures) else multiset{}
  {
    if order != [] {
      var x := order[0];
      var value := if counts.Some? then Some(At(counts.value, x, 0)) else None;
      ClosedBatch(m, order[1..], counts, k);
      ClosedAll(x, m[x].futures, value, k);
      ClosedAppend(CloseAll(x, m[x].futures, value), CloseBatch(m, order[1..], counts), k);
      assert k in order <==> k == x || k in order[1..];
    }
  }

  /** A close of a batch is that of a future of its key, with the new count of the key, or without a value when the
      pipeline failed. */
  lemma {:induction false} ClosedWith<F>(m: Batch<F>, order: seq<Key>, counts: Option<map<Key, int>>, c: Close<F>)
    requires (forall x <- order :: x in m) && c in CloseBatch(m, order, counts)
    ensures c.key in order && c.future in m[c.key].futures
    ensures counts.None? ==> c.value == None
    ensures counts.Some? && c.key in counts.value ==> c.value == Some(counts.value[c.key])
  {
    if c !in CloseBatch(m, order[1..], counts) {
      var k := order[0];
      var value := if counts.Some? then Some(At(counts.value, k, 0)) else None;
      assert c in CloseAll(k, m[k].futures, value);
    } else {
      ClosedWith(m, order[1..], counts, c);
    }
  }

  lemma AddCounts<F>(m: Batch<F>, key: Key, window: Duration, futures: seq<F>, k: Key)
    ensures Delta(Add(m, key, window, futures), k) == Delta(m, k) + if k == key then 1 else 0
    ensures Waiting(Add(m, key, window, futures), k)
         == Waiting(m, k) + if k == key then multiset(futures) else multiset{}
  {
  }

  lemma ExecKeepsHits<F>(s: State<F>, op: Op<F>, k: Key)
    requires HitsBalance(s, k) && Can(s, op) && op.Exec?
    ensures HitsBalance(Step(s, op), k)
  {
    SumTakeOut(s.detached, op.i, k);
    assert At(Submit(s.submitted, s.detached[op.i]), k, 0) == At(s.submitted, k, 0) + Delta(s.detached[op.i], k);
  }

  lemma StepKeepsHits<F>(s: State<F>, op: Op<F>, k: Key)
    requires HitsBalance(s, k) && Can(s, op)
    ensures HitsBalance(Step(s, op), k)
  {
    match op
    case AddHit(key, window, f) => AddCounts(s.pending, key, window, [f], k);
    case AddHitFireAndForget(key, window) => AddCounts(s.pending, key, window, [], k);
    case Detach => SumAppend(s.detached, s.pending, k);
    case Exec(_, _, _) => ExecKeepsHits(s, op, k);
  }

  lemma ExecCloses<F>(s: State<F>, op: Op<F>, k: Key)
    requires Can(s, op) && op.Exec?
    ensures Closed(Step(s, op).closes, k) == Closed(s.closes, k) + Waiting(s.detached[op.i], k)
  {
    var m := s.detached[op.i];
    ClosedBatch(m, op.order, op.counts, k);
    ClosedAppend(s.closes, CloseBatch(m, op.order, op.counts), k);
  }

  lemma MoveOver<F>(made: multiset<F>, pending: multiset<F>, all: multiset<F>, rest: multiset<F>, m: multiset<F>,
                    closed: multiset<F>)
    requires made == pending + all + closed && all == rest + m
    ensures made == pending + rest + (closed + m)
  {
  }

  lemma ExecKeepsFutures<F>(s: State<F>, op: Op<F>, k: Key)
    requires FuturesBalance(s, k) && Can(s, op) && op.Exec?
    ensures FuturesBalance(Step(s, op), k)
  {
    var t := Step(s, op);
    ExecCloses(s, op, k);
    SumTakeOut(s.detached, op.i, k);
    MoveOver(Made(s, k), Waiting(s.pending, k), SumWaiting(s.detached, k), SumWaiting(t.detached, k),
             Waiting(s.detached[op.i], k), Closed(s.closes, k));
  }

  lemma AddKeepsFutures<F>(s: State<F>, op: Op<F>, k: Key)
    requires FuturesBalance(s, k) && Can(s, op) && op.AddHit?
    ensures FuturesBalance(Step(s, op), k)
  {
    AddCounts(s.pending, op.k, op.window, [op.future], k);
    assert multiset([op.future]) == multiset{op.future};
  }

  lemma DetachKeepsFutures<F>(s: State<F>, op: Op<F>, k: Key)
    requires FuturesBalance(s, k) && op.Detach?
    ensures FuturesBalance(Step(s, op), k)
  {
    SumAppend(s.detached, s.pending, k);
  }

  lemma StepKeepsFutures<F>(s: State<F>, op: Op<F>, k: Key)
    requires FuturesBalance(s, k) && Can(s, op)
    ensures FuturesBalance(Step(s, op), k)
  {
    match op
    case AddHit(_, _, _) => AddKeepsFutures(s, op, k);
    case AddHitFireAndForget(key, window) => AddCounts(s.pending, key, window, [], k);
    case Detach => DetachKeepsFutures(s, op, k);
    case Exec(_, _, _) => ExecKeepsFutures(s, op, k);
  }

  lemma StepKeepsOwnFutures<F>(s: State<F>, op: Op<F>)
    requires OwnFutures(s.made) && Can(s, op)
    ensures OwnFutures(Step(s, op).made)
  {
  }

  lemma StepKeepsConserved<F>(s: State<F>, op: Op<F>)
    requires Conserved(s) && Can(s, op)
    ensures Conserved(Step(s, op))
  {
    var t := Step(s, op);
    forall k: Key ensures HitsBalance(t, k) {
      StepKeepsHits(s, op, k);
    }
    forall k: Key ensures FuturesBalance(t, k) {
      StepKeepsFutures(s, op, k);
    }
    StepKeepsOwnFutures(s, op);
  }

  // ---------- Hits and sweep hits ----------

  /** The request hits, and the sweep hits, for which nobody waits. */
  datatype Both<F> = Both(hits: State<F>, sweeps: State<F>)

  datatype Act<F> =
    | OnHits(op: Op<F>)
    | AddSweepHit(k: Key, window: Duration)
    | FlushAll
    | ExecSweeps(i: nat, order: seq<Key>)

  ghost predicate CanAct<F>(b: Both<F>, act: Act<F>) {
    match act
    case OnHits(op) => !op.Detach? && Can(b.hits, op)
    case AddSweepHit(_, _) => true
    case FlushAll => true
    case ExecSweeps(i, order) => Can(b.sweeps, Exec(i, None, order))
  }

  /** A flush takes both batches away in one step, unless both are empty. */
  ghost function StepBoth<F>(b: Both<F>, act: Act<F>): Both<F>
    requires CanAct(b, act)
  {
    match act
    case OnHits(op) => b.(hits := Step(b.hits, op))
    case AddSweepHit(k, window) => b.(sweeps := Step(b.sweeps, AddHitFireAndForget(k, window)))
    case FlushAll =>
      if b.hits.pending == map[] && b.sweeps.pending == map[] then b
      else Both(Step(b.hits, Detach), Step(b.sweeps, Detach))
    case ExecSweeps(i, order) => b.(sweeps := Step(b.sweeps, Exec(i, None, order)))
  }

  ghost predicate BothConserved<F>(b: Both<F>) {
    Conserved(b.hits) && Conserved(b.sweeps) && b.sweeps.made == map[]
  }

  lemma StepKeepsBoth<F>(b: Both<F>, act: Act<F>)
    requires BothConserved(b) && CanAct(b, act)
    ensures BothConserved(StepBoth(b, act))
  {
    match act
    case OnHits(op) => StepKeepsConserved(b.hits, op);
    case AddSweepHit(k, window) => StepKeepsConserved(b.sweeps, AddHitFireAndForget(k, window));
    case FlushAll =>
      StepKeepsConserved(b.hits, Detach);
      StepKeepsConserved(b.sweeps, Detach);
    case ExecSweeps(i, order) => StepKeepsConserved(b.sweeps, Exec(i, None, order));
  }

  ghost predicate CanRun<F>(b: Both<F>, acts: seq<Act<F>>)
    decreases |acts|
  {
    acts == [] || (CanAct(b, acts[0]) && CanRun(StepBoth(b, acts[0]), acts[1..]))
  }

  ghost function Run<F>(b: Both<F>, acts: seq<Act<F>>): Both<F>
    requires CanRun(b, acts)
    decreases |acts|
  {
    if acts == [] then b else Run(StepBoth(b, acts[0]), acts[1..])
  }

  lemma {:induction false} RunKeepsConserved<F>(b: Both<F>, acts: seq<Act<F>>)
    requires BothConserved(b) && CanRun(b, acts)
    ensures BothConserved(Run(b, acts))
    decreases |acts|
  {
    if acts != [] {
      StepKeepsBoth(b, acts[0]);
      RunKeepsConserved(StepBoth(b, acts[0]), acts[1..]);
    }
  }

  /** A future is closed at most once; once nothing is pending or detached, every hit was submitted and
      every future closed. */
  lemma ConservedMeans<F>(s: State<F>, k: Key, f: F)
    requires Conserved(s)
    ensures Closed(s.closes, k)[f] <= 1
    ensures s.pending == map[] && s.detached == [] ==>
              At(s.submitted, k, 0) == At(s.added, k, 0) && Closed(s.closes, k) == Made(s, k)
  {
    assert HitsBalance(s, k) && FuturesBalance(s, k);
    assert Closed(s.closes, k)[f] <= Made(s, k)[f];
  }

  ghost function Start<F>(): State<F> {
    State(map[], [], map[], map[], map[], [])
  }

  lemma StartConserved<F>()
    ensures Conserved(Start<F>())
  {
    forall x: Key ensures HitsBalance(Start<F>(), x) && FuturesBalance(Start<F>(), x) {
    }
  }

  /** In every interleaving of adders and flushers, each hit and each sweep hit of a key is pending, detached or
      submitted; a future is closed only if it was handed out for that key, and at most once. */
  lemma HitsFromStart<F>(acts: seq<Act<F>>, k: Key, f: F) returns (b: Both<F>)
    requires CanRun(Both(Start<F>(), Start<F>()), acts)
    ensures b == Run(Both(Start<F>(), Start<F>()), acts)
    ensures HitsBalance(b.hits, k) && HitsBalance(b.sweeps, k)
    ensures Closed(b.hits.closes, k)[f] <= Made(b.hits, k)[f] <= 1
  {
    b := Both(Start(), Start());
    StartConserved<F>();
    RunKeepsConserved(b, acts);
    b := Run(b, acts);
    assert FuturesBalance(b.hits, k);
  }

  // ---------- The batcher object ----------

  /** A channel with room for one value. Closing it twice would be a run-time panic. */
  class Future {
    var value: Option<int>
    var closed: bool

    constructor ()
      ensures !closed && value == None
    {
      value, closed := None, false;
    }

    method Send(count: int)
      requires !closed
      modifies this`value
      ensures value == if old(value).None? then Some(count) else old(value)
    {
      if value.None? { value := Some(count); }
    }

    method Close()
      requires !closed
      modifies this`closed
      ensures closed
    {
      closed := true;
    }
  }

  ghost function Futures(entries: Batch<Future>): set<Future> {
    set k, f | k in entries && f in entries[k].futures :: f
  }

  /** The futures of the entries are open and unsent, and none occurs twice. */
  ghost predicate Open(entries: Batch<Future>)
    reads Futures(entries)
  {
    && (forall f <- Futures(entries) :: !f.closed && f.value == None)
    && Separate(entries)
  }

  /** No future waits for two keys, or twice for one. */
  ghost predicate Separate(entries: Batch<Future>) {
    && (forall k <- entries :: forall i, j :: 0 <= i < j < |entries[k].futures| ==>
          entries[k].futures[i] != entries[k].futures[j])
    && (forall k, x :: k in entries && x in entries && k != x ==>
          forall f <- entries[k].futures :: f !in entries[x].futures)
  }

  ghost predicate Unanswered(futures: seq<Future>)
    reads futures
  {
    forall f <- futures :: !f.closed && f.value == None
  }

  ghost predicate Answered(futures: seq<Future>, answer: Option<int>)
    reads futures
  {
    forall f <- futures :: f.closed && f.value == answer
  }

  /** What each waiting caller sees: the new count of its key, or a closed channel after an error. */
  ghost function Answer(counts: Option<map<Key, int>>, k: Key): Option<int> {
    if counts.Some? then Some(At(counts.value, k, 0)) else None
  }

  /** One hit of `k` came in and nothing else changed; `more` wait for it. A key that was there keeps its window. */
  ghost predicate OneMore<F>(was: Batch<F>, m: Batch<F>, k: Key, window: Duration, more: multiset<F>) {
    && (forall x: Key ::
          && Delta(m, x) == Delta(was, x) + (if x == k then 1 else 0)
          && Waiting(m, x) == Waiting(was, x) + (if x == k then more else multiset{}))
    && m.Keys == was.Keys + {k}
    && forall x <- m :: m[x].window == if x in was then was[x].window else window
  }

  lemma AddIsOneMore<F>(m: Batch<F>, key: Key, window: Duration, futures: seq<F>, more: multiset<F>)
    requires multiset(futures) == more
    ensures OneMore(m, Add(m, key, window, futures), key, window, more)
  {
    forall x: Key ensures Delta(Add(m, key, window, futures), x) == Delta(m, x) + (if x == key then 1 else 0)
                       && Waiting(Add(m, key, window, futures), x)
                          == Waiting(m, x) + (if x == key then more else multiset{})
    {
      AddCounts(m, key, window, futures, x);
    }
  }

  /** A new caller with an open channel of its own may join the batch. */
  lemma OpenWithOneMore(entries: Batch<Future>, key: Key, window: Duration, future: Future)
    requires Open(entries) && future !in Futures(entries) && !future.closed && future.value == None
    ensures Open(Add(entries, key, window, [future]))
  {
    var m := Add(entries, key, window, [future]);
    forall f <- Futures(m) ensures f == future || f in Futures(entries) {
      var k :| k in m && f in m[k].futures;
    }
    SeparateWithOneMore(entries, key, window, future);
  }

  /** One more hit for which nobody waits changes nothing for those who do. */
  lemma OpenWithNoneMore(entries: Batch<Future>, key: Key, window: Duration)
    requires Open(entries)
    ensures Futures(Add(entries, key, window, [])) == Futures(entries) && Open(Add(entries, key, window, []))
  {
    var m := Add(entries, key, window, []);
    forall f <- Futures(m) ensures f in Futures(entries) {
      var k :| k in m && f in m[k].futures;
    }
    forall f <- Futures(entries) ensures f in Futures(m) {
      var k :| k in entries && f in entries[k].futures;
      assert k in m && f in m[k].futures;
    }
  }

  lemma SeparateWithOneMore(entries: Batch<Future>, key: Key, window: Duration, future: Future)
    requires Separate(entries) && future !in Futures(entries)
    ensures Separate(Add(entries, key, window, [future]))
  {
    assert forall k <- entries :: forall f <- entries[k].futures :: f in Futures(entries);
  }

  class Batcher {
    var hitPending: Batch<Future>
    var sweepPending: Batch<Future>

    /** Whoever waits for a hit has an open channel of its own; nobody waits for a sweep hit. */
    ghost predicate Valid()
      reads this, Futures(hitPending)
    {
      Open(hitPending) && forall k <- sweepPending :: sweepPending[k].futures == []
    }

    constructor ()
      ensures Valid() && hitPending == map[] && sweepPending == map[]
    {
      hitPending, sweepPending := map[], map[];
    }

    method AddHit(redisKey: Key, window: Duration) returns (future: Future, shouldFlush: bool)
      requires Valid()
      modifies this`hitPending
      ensures Valid() && fresh(future) && !future.closed && future.value == None
      ensures hitPending == Add(old(hitPending), redisKey, window, [future])
      ensures OneMore(old(hitPending), hitPending, redisKey, window, multiset{future})
      ensures shouldFlush <==> |hitPending| >= MAX_BATCH_SIZE
    {
      future := new Future();
      AddIsOneMore(hitPending, redisKey, window, [future], multiset{future});
      OpenWithOneMore(hitPending, redisKey, window, future);
      hitPending := Add(hitPending, redisKey, window, [future]);
      shouldFlush := |hitPending| >= MAX_BATCH_SIZE;
    }

    method AddHitFireAndForget(redisKey: Key, window: Duration) returns (shouldFlush: bool)
      requires Valid()
      modifies this`hitPending
      ensures Valid() && hitPending == Add(old(hitPending), redisKey, window, [])
      ensures OneMore(old(hitPending), hitPending, redisKey, window, multiset{})
      ensures shouldFlush <==> |hitPending| >= MAX_BATCH_SIZE
    {
      AddIsOneMore(hitPending, redisKey, window, [], multiset{});
      OpenWithNoneMore(hitPending, redisKey, window);
      hitPending := Add(hitPending, redisKey, window, []);
      shouldFlush := |hitPending| >= MAX_BATCH_SIZE;
    }

    method AddSweepHit(redisKey: Key, window: Duration) returns (shouldFlush: bool)
      requires Valid()
      modifies this`sweepPending
      ensures Valid() && sweepPending == Add(old(sweepPending), redisKey, window, [])
      ensures OneMore(old(sweepPending), sweepPending, redisKey, window, multiset{})
      ensures shouldFlush <==> |sweepPending| >= MAX_BATCH_SIZE
    {
      AddIsOneMore(sweepPending, redisKey, window, [], multiset{});
      sweepPending := Add(sweepPending, redisKey, window, []);
      shouldFlush := |sweepPending| >= MAX_BATCH_SIZE;
    }

    /** The locked part of a flush: takes both batches away. Who waits on them still has an open channel. */
    method Detach() returns (hits: Batch<Future>, sweeps: Batch<Future>)
      requires Valid()
      modifies this
      ensures Valid() && Open(hits)
      ensures hits == old(hitPending) && sweeps == old(sweepPending)
      ensures hitPending == map[] && sweepPending == map[]
    {
      hits, sweeps := hitPending, sweepPending;
      if |hits| == 0 && |sweeps| == 0 { return; }
      hitPending, sweepPending := map[], map[];
    }

    /** A whole flush: afterwards nothing is pending, and every caller that was waiting has its answer, each channel
        being closed once. `counts` is what the pipeline of hits gave, None when it failed. */
    method Flush(counts: Option<map<Key, int>>) returns (hits: Batch<Future>, sweeps: Batch<Future>)
      requires Valid()
      modifies this, Futures(hitPending)
      ensures Valid() && hitPending == map[] && sweepPending == map[]
      ensures hits == old(hitPending) && sweeps == old(sweepPending)
      ensures forall k <- hits :: Answered(hits[k].futures, Answer(counts, k))
    {
      hits, sweeps := Detach();
      FlushHits(hits, counts);
    }

    /** Closes the futures of one key, each once, after sending the count if there is one. */
    method CloseFutures(futures: seq<Future>, answer: Option<int>)
      requires forall i, j :: 0 <= i < j < |futures| ==> futures[i] != futures[j]
      requires Unanswered(futures)
      modifies futures
      ensures Answered(futures, answer)
    {
      for i := 0 to |futures|
        invariant forall j :: 0 <= j < i ==> futures[j].closed && futures[j].value == answer
        invariant forall j :: i <= j < |futures| ==> !futures[j].closed && futures[j].value == None
      {
        if answer.Some? {
          futures[i].Send(answer.value);
        }
        futures[i].Close();
      }
    }

    /** Answers the callers that wait for one key, and nobody else. */
    method AnswerKey(entries: Batch<Future>, k: Key, counts: Option<map<Key, int>>)
      requires Separate(entries) && k in entries && Unanswered(entries[k].futures)
      modifies entries[k].futures
      ensures Answered(entries[k].futures, Answer(counts, k))
      ensures counts.None? ==> Answered(entries[k].futures, None)
      ensures counts.Some? && k in counts.value ==> Answered(entries[k].futures, Some(counts.value[k]))
      ensures forall x <- entries :: x != k && old(Unanswered(entries[x].futures)) ==> Unanswered(entries[x].futures)
      ensures forall x <- entries :: x != k && old(Answered(entries[x].futures, Answer(counts, x))) ==>
                Answered(entries[x].futures, Answer(counts, x))
    {
      var answer := None;
      if counts.Some? {
        answer := Some(if k in counts.value then counts.value[k] else 0);
      }
      assert forall x <- entries :: x != k ==> forall f <- entries[x].futures :: f !in entries[k].futures;
      CloseFutures(entries[k].futures, answer);
    }

    /** Answers every caller that waits on the batch; `counts` is None when the pipeline failed. */
    method FlushHits(entries: Batch<Future>, counts: Option<map<Key, int>>)
      requires Open(entries)
      modifies Futures(entries)
      ensures forall k <- entries :: Answered(entries[k].futures, Answer(counts, k))
    {
      var todo := entries.Keys;
      forall k <- entries ensures Unanswered(entries[k].futures) {
        assert forall f <- entries[k].futures :: f in Futures(entries);
      }
      while todo != {}
        invariant todo <= entries.Keys
        invariant forall k <- todo :: Unanswered(entries[k].futures)
        invariant forall k <- entries :: k !in todo ==> Answered(entries[k].futures, Answer(counts, k))
      {
        var k :| k in todo;
        todo := todo - {k};
        assert forall f <- entries[k].futures :: f in Futures(entries);
        AnswerKey(entries, k, counts);
      }
    }
  }
}
