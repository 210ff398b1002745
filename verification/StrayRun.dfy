/** A run after which the expiry sweep drops the key of a live entry. */
module StrayRun {
  import opened Types
  import opened Sieve
  import opened SieveRuns

  ghost function SetOp(e: nat, k: Key, ttl: Duration): Op<nat> {
    OpPut(e, k, Some(Msg("m")), ttl, ttl, 0, 0)
  }

  ghost function EntryOf(k: Key, ttl: Duration): Entry {
    Entry(k, Msg("m"), ttl + Min(ttl, 10), ttl, ttl, 0, true)
  }

  /** A cache for two entries. */
  ghost predicate Small(s: State<nat>) {
    Weak(s) && s.cap == 2 && s.grace == 10
  }

  // ---------- Evictions from three entries ----------

  /** The hand has made a lap over [x, y, z] and evicted z. */
  ghost predicate Lapped(s: State<nat>, t: State<nat>, x: nat, y: nat, z: nat) {
    && z in s.ent && x in s.ent && y in s.ent && x in t.ent && y in t.ent
    && t.ll == [x, y] && t.cache == s.cache - {s.ent[z].key} && t.hand == Some(y)
    && t.ent[x] == s.ent[x].(visited := false) && t.ent[y] == s.ent[y].(visited := false)
  }

  /** It has dropped the key of h, and evicted z. */
  ghost predicate Haunted(s: State<nat>, t: State<nat>, x: nat, y: nat, z: nat, h: nat) {
    && z in s.ent && h in s.ent && x in s.ent && y in s.ent && x in t.ent && y in t.ent
    && t.ll == [x, y] && t.cache == s.cache - {s.ent[h].key} - {s.ent[z].key} && t.hand == Some(y)
    && t.ent[x] == s.ent[x] && t.ent[y] == s.ent[y]
  }

  /** From the tail, past three visited entries, the hand comes back to the tail. */
  lemma FullLap(s: State<nat>, x: nat, y: nat, z: nat) returns (t: State<nat>)
    requires WellFormed(s) && s.cap == 2 && s.ll == [x, y, z] && (s.hand == None || s.hand == Some(z))
    requires s.ent[x].visited && s.ent[y].visited && s.ent[z].visited
    ensures t == EvictOne(s) && Lapped(s, t, x, y, z)
  {
    var p;
    p, t := EvictScan(PlaceHand(s), 2);
    assert forall e <- s.ll :: e in VisitedSet(PlaceHand(s));
    assert p == 3;
    ScannedLap(s.ll, 2, 0);
    ScannedLap(s.ll, 2, 1);
    WithoutLast(x, y, z);
  }

  lemma WithoutLast(x: nat, y: nat, z: nat)
    requires x != z && y != z
    ensures Without([x, y, z], z) == [x, y]
  {
    assert [x, y, z][1..] == [y, z] && [y, z][1..] == [z];
  }

  /** From an unlinked, unvisited element the hand drops that element's key, and then the entry at the tail. */
  lemma GhostThenTail(s: State<nat>, x: nat, y: nat, z: nat, h: nat) returns (t: State<nat>)
    requires WellFormed(s) && s.cap == 2 && s.ll == [x, y, z] && s.hand == Some(h) && h !in s.ll
    requires !s.ent[h].visited && !s.ent[z].visited
    ensures t == EvictOne(s) && Haunted(s, t, x, y, z, h)
  {
    LoopDetached(s);
    ScanStartDetached(s);
    var u := ScanStart(s);
    var p;
    p, t := EvictScan(u, 2);
    assert Scanned(u.ll, 2, 0) == {};
    assert u.ll[At(2, 0, 3)] == z && !u.ent[z].visited;
    FirstUnvisitedUnique(u.ll, VisitedSet(u), 2, p, 0);
    WithoutLast(x, y, z);
  }

  // ---------- The steps ----------

  /** Room for one more. */
  lemma Fits(s: State<nat>, op: Op<nat>) returns (t: State<nat>)
    requires Small(s) && |s.ll| < 2 && op.OpPut? && Enabled(s, op) && Stores(op) && op.k !in s.cache
    ensures t == Step(s, op) && Small(t) && t.ll == [op.e] + s.ll && t.hand == s.hand
    ensures t.cache == s.cache[op.k := op.e]
    ensures t.ent == s.ent[op.e := MakeEntry(op.k, op.msg.value, op.ttl, op.storedTTL, op.authTTL, op.now, s.grace)]
  {
    PutKeeps(s, op);
    var d := MakeEntry(op.k, op.msg.value, op.ttl, op.storedTTL, op.authTTL, op.now, s.grace);
    PutCases(s, op.e, op.k, op.msg, op.ttl, op.storedTTL, op.authTTL, op.now, d);
    t := Step(s, op);
  }

  ghost predicate IsPushed(s: State<nat>, op: Op<nat>, u: State<nat>) {
    && op.OpPut? && op.msg.Some? && u.ll == [op.e] + s.ll && u.cap == 2 && u.hand == s.hand
    && u.cache == s.cache[op.k := op.e]
    && u.ent == s.ent[op.e := MakeEntry(op.k, op.msg.value, op.ttl, op.storedTTL, op.authTTL, op.now, s.grace)]
  }

  /** No room: the new entry is pushed to the front, and one eviction follows. */
  lemma Pushed(s: State<nat>, op: Op<nat>) returns (u: State<nat>)
    requires Small(s) && |s.ll| == 2 && op.OpPut? && Stores(op) && op.k !in s.cache && op.e !in s.ent
    ensures Enabled(s, op) && Small(Step(s, op)) && WellFormed(u) && Step(s, op) == EvictOne(u)
    ensures IsPushed(s, op, u)
  {
    PutKeeps(s, op);
    var d := PutIs(s, op);
    u := PushFront(s, op.e, d);
  }

  /** a and b, both visited, and no hand yet. */
  ghost predicate AfterTwo(s: State<nat>) {
    && Small(s) && s.ll == [1, 0] && s.cache == map["a" := 0, "b" := 1] && s.hand == None
    && s.ent[0] == EntryOf("a", 10) && s.ent[1] == EntryOf("b", 10)
  }

  /** c has taken the place of a, all bits are clear, and the hand is on b. */
  ghost predicate AfterThree(s: State<nat>) {
    && Small(s) && s.ll == [2, 1] && s.cache == map["b" := 1, "c" := 2] && s.hand == Some(1)
    && s.ent[2].key == "c" && s.ent[1].key == "b" && !s.ent[2].visited && !s.ent[1].visited
  }

  /** b is deleted under the hand. */
  ghost predicate AfterDelete(s: State<nat>) {
    && Small(s) && s.ll == [2] && s.cache == map["c" := 2] && s.hand == Some(1)
    && s.ent[2].key == "c" && s.ent[1].key == "b" && !s.ent[2].visited && !s.ent[1].visited
  }

  ghost predicate AfterFour(s: State<nat>) {
    && Small(s) && s.ll == [3, 2] && s.cache == map["c" := 2, "a" := 3] && s.hand == Some(1)
    && s.ent[2].key == "c" && s.ent[1].key == "b" && !s.ent[2].visited && !s.ent[1].visited
    && s.ent[3] == EntryOf("a", 10)
  }

  /** The new b is listed but not mapped. */
  ghost predicate AfterFive(s: State<nat>) {
    && Small(s) && s.ll == [4, 3] && s.cache == map["a" := 3] && s.hand == Some(3)
    && s.ent[3] == EntryOf("a", 10) && s.ent[4] == EntryOf("b", 10)
  }

  /** Beside it is another b, which is mapped and lives longer. */
  ghost predicate AfterSix(s: State<nat>) {
    && Small(s) && s.ll == [5, 4] && s.cache == map["b" := 5]
    && s.ent[4].key == "b" && s.ent[4].expiry == 20 && s.ent[5].key == "b" && s.ent[5].expiry == 40
  }

  lemma Two() returns (s: State<nat>)
    ensures Runnable(Empty<nat>(2, 10), [SetOp(0, "a", 10)] + [SetOp(1, "b", 10)])
    ensures s == Run(Empty<nat>(2, 10), [SetOp(0, "a", 10)] + [SetOp(1, "b", 10)]) && AfterTwo(s)
  {
    var s0 := Empty<nat>(2, 10);
    var s1 := Fits(s0, SetOp(0, "a", 10));
    s := Fits(s1, SetOp(1, "b", 10));
    RunsOn(s1, s, SetOp(1, "b", 10), []);
    assert [SetOp(1, "b", 10)] + [] == [SetOp(1, "b", 10)];
    RunsOn(s0, s1, SetOp(0, "a", 10), [SetOp(1, "b", 10)]);
  }

  lemma Three(s: State<nat>) returns (t: State<nat>)
    requires AfterTwo(s)
    ensures Enabled(s, SetOp(2, "c", 10)) && t == Step(s, SetOp(2, "c", 10)) && AfterThree(t)
  {
    var u := Pushed(s, SetOp(2, "c", 10));
    assert u.ll == [2, 1, 0];
    t := FullLap(u, 2, 1, 0);
    ThreeIs(s, u, t);
  }

  lemma ThreeIs(s: State<nat>, u: State<nat>, t: State<nat>)
    requires AfterTwo(s) && IsPushed(s, SetOp(2, "c", 10), u) && Lapped(u, t, 2, 1, 0) && Small(t)
    ensures AfterThree(t)
  {
  }

  lemma Deleted(s: State<nat>) returns (t: State<nat>)
    requires AfterThree(s)
    ensures t == Step(s, OpDelete("b")) && AfterDelete(t)
  {
    t := Step(s, OpDelete("b"));
    StepKeepsWeak(s, OpDelete("b"));
    assert [2, 1][1..] == [1];
  }

  lemma Four(s: State<nat>) returns (t: State<nat>)
    requires AfterDelete(s)
    ensures Enabled(s, SetOp(3, "a", 10)) && t == Step(s, SetOp(3, "a", 10)) && AfterFour(t)
  {
    t := Fits(s, SetOp(3, "a", 10));
  }

  lemma Five(s: State<nat>) returns (t: State<nat>)
    requires AfterFour(s)
    ensures Enabled(s, SetOp(4, "b", 10)) && t == Step(s, SetOp(4, "b", 10)) && AfterFive(t)
  {
    var u := Pushed(s, SetOp(4, "b", 10));
    assert u.ll == [4, 3, 2];
    t := GhostThenTail(u, 4, 3, 2, 1);
    FiveIs(s, u, t);
  }

  lemma FiveIs(s: State<nat>, u: State<nat>, t: State<nat>)
    requires AfterFour(s) && IsPushed(s, SetOp(4, "b", 10), u) && Haunted(u, t, 4, 3, 2, 1) && Small(t)
    ensures AfterFive(t)
  {
  }

  lemma Six(s: State<nat>) returns (t: State<nat>)
    requires AfterFive(s)
    ensures Enabled(s, SetOp(5, "b", 30)) && t == Step(s, SetOp(5, "b", 30)) && AfterSix(t)
  {
    var u := Pushed(s, SetOp(5, "b", 30));
    assert u.ll == [5, 4, 3];
    t := FullLap(u, 5, 4, 3);
    SixIs(s, u, t);
  }

  lemma SixIs(s: State<nat>, u: State<nat>, t: State<nat>)
    requires AfterFive(s) && IsPushed(s, SetOp(5, "b", 30), u) && Lapped(u, t, 5, 4, 3) && Small(t)
    ensures AfterSix(t)
  {
  }

  // ---------- The run ----------

  lemma AfterwardsFromThree(s: State<nat>) returns (ops: seq<Op<nat>>, t: State<nat>)
    requires AfterThree(s)
    ensures ops == [OpDelete("b")] + ([SetOp(3, "a", 10)] + ([SetOp(4, "b", 10)] + ([SetOp(5, "b", 30)] + [])))
    ensures Runnable(s, ops) && t == Run(s, ops) && AfterSix(t)
  {
    var s4 := Deleted(s);
    var s5 := Four(s4);
    var s6 := Five(s5);
    t := Six(s6);
    RunsOn(s6, t, SetOp(5, "b", 30), []);
    RunsOn(s5, s6, SetOp(4, "b", 10), [SetOp(5, "b", 30)] + []);
    RunsOn(s4, s5, SetOp(3, "a", 10), [SetOp(4, "b", 10)] + ([SetOp(5, "b", 30)] + []));
    ops := [OpDelete("b")] + ([SetOp(3, "a", 10)] + ([SetOp(4, "b", 10)] + ([SetOp(5, "b", 30)] + [])));
    RunsOn(s, s4, OpDelete("b"), [SetOp(3, "a", 10)] + ([SetOp(4, "b", 10)] + ([SetOp(5, "b", 30)] + [])));
  }

  lemma SweptAway(s: State<nat>)
    requires AfterSix(s)
    ensures Lookup(s, "b", 25).Some? && Weak(Clean(s, 25)) && Lookup(Clean(s, 25), "b", 25).None?
  {
    var t := CleanIsInvisibleIff(s, 25, "b", 25);
    assert 4 in s.ll;
  }

  /** In a cache for two entries: set a, b and c, delete b (the hand stays on it), set a and b (which is listed and not
      mapped), and set b again with a longer TTL. When the first of the two has run out, the sweep unlinks it and drops
      the key: the second, which has 15 to live, is not found any more. */
  lemma SweepDropsLiveKey() returns (ops: seq<Op<nat>>, s: State<nat>)
    ensures Runnable(Empty<nat>(2, 10), ops) && s == Run(Empty<nat>(2, 10), ops)
    ensures Lookup(s, "b", 25).Some? && Weak(Clean(s, 25)) && Lookup(Clean(s, 25), "b", 25).None?
  {
    var s2 := Two();
    var s3 := Three(s2);
    ops, s := AfterwardsFromThree(s3);
    SweptAway(s);
    RunsOn(s2, s3, SetOp(2, "c", 10), ops);
    ops := [SetOp(2, "c", 10)] + ops;
    RunAfter(Empty<nat>(2, 10), [SetOp(0, "a", 10)] + [SetOp(1, "b", 10)], ops);
    ops := [SetOp(0, "a", 10)] + [SetOp(1, "b", 10)] + ops;
  }

  lemma {:induction false} RunAfter<E>(s: State<E>, first: seq<Op<E>>, ops: seq<Op<E>>)
    requires Weak(s) && Runnable(s, first) && Runnable(Run(s, first), ops)
    ensures Runnable(s, first + ops) && Run(s, first + ops) == Run(Run(s, first), ops)
    decreases |first|
  {
    if first == [] {
      assert first + ops == ops;
    } else {
      StepKeepsWeak(s, first[0]);
      var t := Step(s, first[0]);
      RunAfter(t, first[1..], ops);
      RunsOn(s, t, first[0], first[1..] + ops);
      assert [first[0]] + (first[1..] + ops) == first + ops;
    }
  }
}
