/** The shards together behave like one map. A call that visits every shard is one step for each shard, so
    that other calls may come in between. */
module ShardRuns {
  import opened Types
  import opened Sieve
  import opened SieveRuns
  import opened ShardedLru

  datatype ShardOp<E> = ShardOp(shard: nat, op: Op<E>)

  ghost predicate Routed<E>(x: ShardOp<E>, mask: bv32) {
    match x.op
    case OpGet(k, _) => x.shard == Route(k, mask)
    case OpDropExpired(k, _) => x.shard == Route(k, mask)
    case OpPut(_, k, _, _, _, _, _) => x.shard == Route(k, mask)
    case OpDelete(k) => x.shard == Route(k, mask)
    case _ => true
  }

  ghost predicate AllWeak<E>(ss: seq<State<E>>) {
    forall i :: 0 <= i < |ss| ==> Weak(ss[i])
  }

  ghost predicate CanStep<E>(ss: seq<State<E>>, x: ShardOp<E>, mask: bv32) {
    x.shard < |ss| && Routed(x, mask) && Enabled(ss[x.shard], x.op)
  }

  ghost function StepShard<E>(ss: seq<State<E>>, x: ShardOp<E>, mask: bv32): (r: seq<State<E>>)
    requires AllWeak(ss) && CanStep(ss, x, mask)
    ensures AllWeak(r) && |r| == |ss|
  {
    StepKeepsWeak(ss[x.shard], x.op);
    ss[x.shard := Step(ss[x.shard], x.op)]
  }

  /** The one map: clearing a shard forgets the keys that live there. */
  ghost function StepMap<E>(m: map<Key, Latest>, x: ShardOp<E>, mask: bv32): map<Key, Latest> {
    if x.op.OpClear? then map k | k in m && Route(k, mask) != x.shard :: m[k] else StepLatest(m, x.op)
  }

  ghost predicate Refines<E>(ss: seq<State<E>>, m: map<Key, Latest>, mask: bv32)
    requires AllWeak(ss)
  {
    forall i :: 0 <= i < |ss| ==> Agrees(ss[i], m) && forall k <- ss[i].cache :: Route(k, mask) == i
  }

  /** A step maps no key but the one it stores. */
  lemma StepKeys<E>(s: State<E>, op: Op<E>)
    requires Weak(s) && Enabled(s, op)
    ensures forall k <- Step(s, op).cache :: k in s.cache || (op.OpPut? && k == op.k)
  {
    if op.OpPut? && Stores(op) && op.k !in s.cache && |s.ll| == s.cap {
      var d := PutIs(s, op);
      var v, t := PutEvicts(s, op.e, d);
    }
  }

  lemma StepRefines<E>(ss: seq<State<E>>, m: map<Key, Latest>, x: ShardOp<E>, mask: bv32)
    requires AllWeak(ss) && CanStep(ss, x, mask) && Refines(ss, m, mask)
    ensures Refines(StepShard(ss, x, mask), StepMap(m, x, mask), mask)
  {
    var i := x.shard;
    var n := StepMap(m, x, mask);
    var r := StepShard(ss, x, mask);
    StepKeys(ss[i], x.op);
    StepAgrees(ss[i], x.op, m);
    forall j | 0 <= j < |r| ensures Agrees(r[j], n) && forall k <- r[j].cache :: Route(k, mask) == j {
      if j != i {
        forall k <- ss[j].cache ensures k in n && n[k] == m[k] {
        }
      }
    }
  }

  ghost predicate CanRun<E>(ss: seq<State<E>>, xs: seq<ShardOp<E>>, mask: bv32)
    requires AllWeak(ss)
    decreases |xs|
  {
    xs == [] || (CanStep(ss, xs[0], mask) && CanRun(StepShard(ss, xs[0], mask), xs[1..], mask))
  }

  ghost function RunShards<E>(ss: seq<State<E>>, xs: seq<ShardOp<E>>, mask: bv32): (r: seq<State<E>>)
    requires AllWeak(ss) && CanRun(ss, xs, mask)
    ensures AllWeak(r) && |r| == |ss|
    decreases |xs|
  {
    if xs == [] then ss else RunShards(StepShard(ss, xs[0], mask), xs[1..], mask)
  }

  ghost function RunMap<E>(m: map<Key, Latest>, xs: seq<ShardOp<E>>, mask: bv32): map<Key, Latest>
    decreases |xs|
  {
    if xs == [] then m else RunMap(StepMap(m, xs[0], mask), xs[1..], mask)
  }

  /** After any interleaving of calls, every shard agrees with the one map, and holds only its own keys. */
  lemma {:induction false} RunRefines<E>(ss: seq<State<E>>, m: map<Key, Latest>, xs: seq<ShardOp<E>>, mask: bv32)
    requires AllWeak(ss) && CanRun(ss, xs, mask) && Refines(ss, m, mask)
    ensures Refines(RunShards(ss, xs, mask), RunMap(m, xs, mask), mask)
    decreases |xs|
  {
    if xs != [] {
      StepRefines(ss, m, xs[0], mask);
      RunRefines(StepShard(ss, xs[0], mask), StepMap(m, xs[0], mask), xs[1..], mask);
    }
  }

  /** A hit in the shard of `k` returns what the one map holds for `k`; a key the map does not hold is a miss. */
  lemma HitMatchesMap<E>(ss: seq<State<E>>, m: map<Key, Latest>, mask: bv32, k: Key, now: Time)
    requires AllWeak(ss) && Refines(ss, m, mask)
    requires (|ss| == 1 && mask == 0) || (|ss| == 32 && mask == 31)
    ensures Route(k, mask) < |ss|
    ensures HitIs(Lookup(ss[Route(k, mask)], k, now), m, k, now)
  {
    RouteInRange(k, mask, |ss|);
  }

  /** From empty shards, after any interleaving of calls, a hit returns what the one map holds. */
  lemma HitsFromStart<E>(ss: seq<State<E>>, xs: seq<ShardOp<E>>, mask: bv32, k: Key, now: Time)
    returns (r: seq<State<E>>, m: map<Key, Latest>)
    requires (|ss| == 1 && mask == 0) || (|ss| == 32 && mask == 31)
    requires AllWeak(ss) && (forall i :: 0 <= i < |ss| ==> ss[i].cache == map[]) && CanRun(ss, xs, mask)
    ensures r == RunShards(ss, xs, mask) && m == RunMap(map[], xs, mask)
    ensures Route(k, mask) < |r| == |ss| && Weak(r[Route(k, mask)])
    ensures HitIs(Lookup(r[Route(k, mask)], k, now), m, k, now)
  {
    RunRefines(ss, map[], xs, mask);
    r, m := RunShards(ss, xs, mask), RunMap(map[], xs, mask);
    HitMatchesMap(r, m, mask, k, now);
  }
}
