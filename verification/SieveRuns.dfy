/** What the SIEVE cache keeps, one operation at a time and over whole runs. */
module SieveRuns {
  import opened Types
  import opened Sieve

  // ---------- One eviction ----------

  /** The index `q` steps from index `i` toward the front, wrapping to the tail. */
  ghost function At(i: nat, q: nat, n: nat): (j: nat)
    requires i < n && q <= n
    ensures j < n
  {
    if q <= i then i - q else i - q + n
  }

  /** The elements on the first `p` places of the scan from index `i`. */
  ghost function Scanned<E>(ll: seq<E>, i: nat, p: nat): set<E>
    requires i < |ll| && p <= |ll|
  {
    set q | 0 <= q < p :: ll[At(i, q, |ll|)]
  }

  lemma IndexOfAt<E>(ll: seq<E>, j: nat)
    requires Distinct(ll) && j < |ll|
    ensures ll[j] in ll && IndexOf(ll, ll[j]) == j
  {
  }

  lemma AdvanceAt<E>(ll: seq<E>, i: nat)
    requires Distinct(ll) && i < |ll|
    ensures Advance(ll, ll[i]) == Some(ll[At(i, 1, |ll|)])
  {
    IndexOfAt(ll, i);
  }

  lemma AtShift(i: nat, q: nat, n: nat)
    requires i < n && q < n
    ensures At(At(i, 1, n), q, n) == At(i, q + 1, n)
  {
  }

  /** Starting one place further on leaves out the first element scanned. */
  lemma ScannedShift<E>(ll: seq<E>, i: nat, p: nat)
    requires i < |ll| && p < |ll|
    ensures Scanned(ll, i, p + 1) == {ll[i]} + Scanned(ll, At(i, 1, |ll|), p)
  {
    var n := |ll|;
    forall e | e in Scanned(ll, i, p + 1) ensures e in {ll[i]} + Scanned(ll, At(i, 1, n), p) {
      var q :| 0 <= q < p + 1 && e == ll[At(i, q, n)];
      if q > 0 {
        AtShift(i, q - 1, n);
      }
    }
    forall e | e in {ll[i]} + Scanned(ll, At(i, 1, n), p) ensures e in Scanned(ll, i, p + 1) {
      if e == ll[i] {
        assert e == ll[At(i, 0, n)];
      } else {
        var q :| 0 <= q < p && e == ll[At(At(i, 1, n), q, n)];
        AtShift(i, q, n);
      }
    }
  }

  /** A full lap meets every element. */
  lemma ScannedLap<E>(ll: seq<E>, i: nat, j: nat)
    requires i < |ll| && j < |ll|
    ensures ll[j] in Scanned(ll, i, |ll|)
  {
    var q := if j <= i then i - j else i - j + |ll|;
    assert ll[At(i, q, |ll|)] == ll[j];
  }

  /** The first element outside `visited` on the scan from index `i` is at place `p`; when there is
      none, `p` is a full lap. */
  ghost predicate FirstUnvisited<E>(ll: seq<E>, visited: set<E>, i: nat, p: nat)
    requires i < |ll|
  {
    && p <= |ll|
    && Scanned(ll, i, p) <= visited
    && (p < |ll| ==> ll[At(i, p, |ll|)] !in visited)
  }

  lemma FirstUnvisitedShift<E>(ll: seq<E>, visited: set<E>, i: nat, p: nat)
    requires Distinct(ll) && i < |ll| && ll[i] in visited
    requires FirstUnvisited(ll, visited - {ll[i]}, At(i, 1, |ll|), p)
    ensures FirstUnvisited(ll, visited, i, p + 1)
    ensures At(At(i, 1, |ll|), p, |ll|) == At(i, p + 1, |ll|)
  {
    var n := |ll|;
    ScannedLap(ll, At(i, 1, n), i);
    ScannedShift(ll, i, p);
    AtShift(i, p, n);
  }

  /** There is one such place only. */
  lemma FirstUnvisitedUnique<E>(ll: seq<E>, visited: set<E>, i: nat, p: nat, q: nat)
    requires i < |ll| && FirstUnvisited(ll, visited, i, p) && FirstUnvisited(ll, visited, i, q)
    ensures p == q
  {
  }

  /** The place of the first element outside `visited`, from place `from` on; a full lap when there is none. */
  ghost function NextUnvisited<E>(ll: seq<E>, visited: set<E>, i: nat, from: nat): (p: nat)
    requires i < |ll| && from <= |ll| && Scanned(ll, i, from) <= visited
    ensures FirstUnvisited(ll, visited, i, p)
    decreases |ll| - from
  {
    if from < |ll| && ll[At(i, from, |ll|)] in visited then NextUnvisited(ll, visited, i, from + 1) else from
  }

  /** `t` is `s` after the first `p` elements from index `i` were spared and the one after them evicted. */
  ghost predicate EvictedAt<E>(s: State<E>, i: nat, p: nat, t: State<E>)
    requires WellFormed(s) && i < |s.ll| && p <= |s.ll|
  {
    var j := At(i, p, |s.ll|);
    && t.ll == Without(s.ll, s.ll[j])
    && t.cache == s.cache - {s.ent[s.ll[j]].key}
    && t.hand == Some(s.ll[At(j, 1, |s.ll|)])
    && forall e <- t.ll :: e in s.ent && e in t.ent
         && t.ent[e] == if e in Scanned(s.ll, i, p) then s.ent[e].(visited := false) else s.ent[e]
  }

  lemma SpareIs<E>(s: State<E>, i: nat)
    requires WellFormed(s) && i < |s.ll| && s.hand == Some(s.ll[i])
    ensures Spare(s) == s.(hand := Some(s.ll[At(i, 1, |s.ll|)]),
                           ent := s.ent[s.ll[i] := s.ent[s.ll[i]].(visited := false)])
  {
    AdvanceAt(s.ll, i);
  }

  lemma DropIs<E>(s: State<E>, i: nat)
    requires WellFormed(s) && i < |s.ll| && s.hand == Some(s.ll[i]) && !s.ent[s.ll[i]].visited
    ensures FirstUnvisited(s.ll, VisitedSet(s), i, 0)
    ensures EvictedAt(s, i, 0, Drop(s))
  {
    AdvanceAt(s.ll, i);
    WithoutElems(s.ll, s.ll[i]);
    assert Scanned(s.ll, i, 0) == {};
  }

  /** Sparing the element under the hand moves the scan one place on. */
  lemma EvictedAtShift<E>(s: State<E>, i: nat, p: nat, t: State<E>)
    requires WellFormed(s) && i < |s.ll| && s.hand == Some(s.ll[i]) && s.ent[s.ll[i]].visited && p < |s.ll|
    requires EvictedAt(Spare(s), At(i, 1, |s.ll|), p, t)
    requires At(At(i, 1, |s.ll|), p, |s.ll|) == At(i, p + 1, |s.ll|)
    ensures EvictedAt(s, i, p + 1, t)
  {
    SpareIs(s, i);
    ScannedShift(s.ll, i, p);
  }

  lemma LoopSpares<E>(s: State<E>, i: nat)
    requires WellFormed(s) && i < |s.ll| && s.hand == Some(s.ll[i]) && s.ent[s.ll[i]].visited
    ensures var t := Spare(s);
            && t.ll == s.ll && t.cap == s.cap && t.hand == Some(s.ll[At(i, 1, |s.ll|)])
            && VisitedSet(t) == VisitedSet(s) - {s.ll[i]}
            && Loop(s) == Loop(t) && LoopSteps(s) == 1 + LoopSteps(t)
  {
    SpareIs(s, i);
  }

  lemma LoopDrops<E>(s: State<E>, i: nat)
    requires WellFormed(s) && i < |s.ll| && s.hand == Some(s.ll[i]) && !s.ent[s.ll[i]].visited
    requires |s.ll| == s.cap + 1
    ensures Loop(s) == Drop(s) && LoopSteps(s) == 1
  {
  }

  lemma ScanStep<E>(s: State<E>, i: nat, p: nat, t: State<E>)
    requires WellFormed(s) && i < |s.ll| && s.hand == Some(s.ll[i]) && s.ent[s.ll[i]].visited
    requires FirstUnvisited(s.ll, VisitedSet(Spare(s)), At(i, 1, |s.ll|), p)
    requires EvictedAt(Spare(s), At(i, 1, |s.ll|), p, t)
    ensures FirstUnvisited(s.ll, VisitedSet(s), i, p + 1)
    ensures EvictedAt(s, i, p + 1, t)
  {
    FirstUnvisitedShift(s.ll, VisitedSet(s), i, p);
    EvictedAtShift(s, i, p, t);
  }

  /** From a linked hand, with one element too many, the victim is the first unvisited element in
      cyclic tail-to-head order, or the hand's own element when all are visited. Exactly the bits the hand passed
      are cleared, and the hand ends up on the element after the victim. The loop runs once for each
      element spared and once for the victim. */
  lemma {:induction false} EvictScan<E>(s: State<E>, i: nat) returns (p: nat, t: State<E>)
    requires WellFormed(s) && i < |s.ll| && s.hand == Some(s.ll[i]) && |s.ll| == s.cap + 1
    ensures t == Loop(s) && LoopSteps(s) == p + 1
    ensures FirstUnvisited(s.ll, VisitedSet(s), i, p)
    ensures EvictedAt(s, i, p, t)
    decreases VisitedSet(s)
  {
    if s.ent[s.ll[i]].visited {
      LoopSpares(s, i);
      p, t := EvictScan(Spare(s), At(i, 1, |s.ll|));
      ScanStep(s, i, p, t);
      p := p + 1;
    } else {
      LoopDrops(s, i);
      p, t := 0, Drop(s);
      DropIs(s, i);
    }
  }

  // ---------- Eviction keeps the map consistent ----------

  lemma SpareKeeps<E>(s: State<E>)
    requires WellFormed(s) && s.hand.Some? && s.ll != []
    ensures Mapped(s) ==> Mapped(Spare(s))
    ensures Listed(s) ==> Listed(Spare(s))
    ensures forall e <- s.ll :: Spare(s).ent[e].key == s.ent[e].key
  {
  }

  /** Evicting the element under the hand keeps list and map one-to-one exactly when that element is
      listed, or its key has not been inserted again since it was unlinked. */
  lemma DropKeeps<E>(s: State<E>)
    requires WellFormed(s) && s.hand.Some? && s.ll != [] && Mapped(s)
    ensures Mapped(Drop(s))
    ensures Listed(s) ==> (Listed(Drop(s)) <==> s.hand.value in s.ll || s.ent[s.hand.value].key !in s.cache)
  {
    var h := s.hand.value;
    var t := Drop(s);
    WithoutElems(s.ll, h);
    var k := s.ent[h].key;
    if Listed(s) && h !in s.ll && k in s.cache {
      assert s.cache[k] in t.ll && t.ent[s.cache[k]].key !in t.cache;
    }
  }

  lemma {:induction false} LoopKeeps<E>(s: State<E>)
    requires WellFormed(s) && s.hand.Some? && s.ll != [] && Mapped(s)
    ensures Mapped(Loop(s))
    ensures Listed(s) && s.hand.value in s.ll && |s.ll| >= 2 ==> Listed(Loop(s)) && HandLinked(Loop(s))
    decreases |s.ll|, if HandLinked(s) then 0 else 1, VisitedSet(s)
  {
    if s.ent[s.hand.value].visited {
      SpareKeeps(s);
      LoopKeeps(Spare(s));
    } else {
      DropKeeps(s);
      if |Drop(s).ll| > s.cap {
        LoopKeeps(Drop(s));
      }
    }
  }

  lemma EvictOneKeeps<E>(s: State<E>)
    requires WellFormed(s) && Mapped(s) && |s.ll| >= 2
    ensures Mapped(EvictOne(s))
    ensures Listed(s) && HandLinked(s) ==> Listed(EvictOne(s)) && HandLinked(EvictOne(s))
  {
    LoopKeeps(PlaceHand(s));
  }

  /** The hand lies on an unlinked element whose bit is clear: the next eviction drops that element's key. */
  ghost predicate GhostHand<E>(s: State<E>)
    requires WellFormed(s)
  {
    s.hand.Some? && s.hand.value !in s.ll && !s.ent[s.hand.value].visited
  }

  /** Where the scan for a listed victim starts. */
  ghost function ScanStart<E>(s: State<E>): (t: State<E>)
    requires WellFormed(s) && s.ll != []
    ensures WellFormed(t) && t.ll == s.ll && t.hand.Some? && t.hand.value in t.ll && t.cap == s.cap
  {
    if s.hand.Some? && s.hand.value !in s.ll then
      if s.ent[s.hand.value].visited then Spare(s) else Drop(s)
    else PlaceHand(s)
  }

  /** `t` differs from `s` in the bits, the hand and the keys `lost` only. */
  ghost predicate SameEntries<E>(s: State<E>, t: State<E>, lost: set<Key>) {
    && t.ll == s.ll && t.cap == s.cap && t.cache == s.cache - lost
    && forall e <- s.ll :: e in s.ent && e in t.ent && t.ent[e] == s.ent[e]
  }

  lemma ScanStartPlaced<E>(s: State<E>)
    requires WellFormed(s) && s.ll != [] && HandLinked(s)
    ensures ScanStart(s) == PlaceHand(s) && SameEntries(s, PlaceHand(s), {})
    ensures |s.ll| >= 2 && s.hand != Some(s.ll[0]) ==> PlaceHand(s).hand != Some(s.ll[0])
  {
  }

  lemma ScanStartLinked<E>(s: State<E>)
    requires WellFormed(s) && s.ll != [] && HandLinked(s)
    ensures EvictOne(s) == Loop(ScanStart(s)) && SameEntries(s, ScanStart(s), {})
    ensures |s.ll| >= 2 && s.hand != Some(s.ll[0]) ==> ScanStart(s).hand != Some(s.ll[0])
  {
    ScanStartPlaced(s);
  }

  lemma LoopDetached<E>(s: State<E>)
    requires WellFormed(s) && |s.ll| == s.cap + 1 && !HandLinked(s)
    ensures Loop(s) == Loop(ScanStart(s))
  {
  }

  /** The keys an eviction drops beside that of its victim. */
  ghost function LostToHand<E>(s: State<E>): set<Key>
    requires WellFormed(s)
  {
    if GhostHand(s) then {s.ent[s.hand.value].key} else {}
  }

  lemma ScanStartDetached<E>(s: State<E>)
    requires WellFormed(s) && |s.ll| == s.cap + 1 && !HandLinked(s)
    ensures SameEntries(s, ScanStart(s), LostToHand(s))
    ensures ScanStart(s).hand == Some(s.ll[|s.ll| - 1])
  {
  }

  ghost predicate SomeUnvisited<E>(s: State<E>)
    requires WellFormed(s)
  {
    exists e <- s.ll :: !s.ent[e].visited
  }

  /** The victim of a scan from a linked hand. */
  lemma LoopVictim<E>(s: State<E>) returns (v: E, t: State<E>)
    requires WellFormed(s) && s.hand.Some? && s.hand.value in s.ll && |s.ll| == s.cap + 1
    ensures t == Loop(s)
    ensures v in s.ll && t.ll == Without(s.ll, v)
    ensures s.ent[s.ll[0]].visited && s.hand != Some(s.ll[0]) ==> v != s.ll[0]
    ensures t.cache == s.cache - {s.ent[v].key}
    ensures SomeUnvisited(s) ==> !s.ent[v].visited
    ensures forall e <- t.ll :: e in s.ent && e in t.ent && t.ent[e] == s.ent[e].(visited := t.ent[e].visited)
    ensures t.hand.Some? && t.hand.value in t.ll
  {
    var n := |s.ll|;
    var i := IndexOf(s.ll, s.hand.value);
    var p, u := EvictScan(s, i);
    var j := At(i, p, n);
    t, v := u, s.ll[j];
    WithoutElems(s.ll, v);
    assert t.hand == Some(s.ll[At(j, 1, n)]) && At(j, 1, n) != j;
    if v == s.ll[0] {
      assert j == 0;
      assert p < n ==> v !in VisitedSet(s);
    }
    if p == n {
      FullLapAllVisited(s, i);
    }
  }

  lemma FullLapAllVisited<E>(s: State<E>, i: nat)
    requires WellFormed(s) && i < |s.ll| && Scanned(s.ll, i, |s.ll|) <= VisitedSet(s)
    ensures !SomeUnvisited(s)
  {
    forall e <- s.ll ensures s.ent[e].visited {
      ScannedLap(s.ll, i, IndexOf(s.ll, e));
    }
  }

  /** The element that the next eviction unlinks: the first unvisited one of the scan. */
  ghost function Victim<E>(s: State<E>): (v: E)
    requires WellFormed(s) && s.ll != []
    ensures v in s.ll
  {
    var u := ScanStart(s);
    var i := IndexOf(u.ll, u.hand.value);
    u.ll[At(i, NextUnvisited(u.ll, VisitedSet(u), i, 0), |u.ll|)]
  }

  /** A scan from a linked hand unlinks that element. */
  lemma LoopUnlinks<E>(s: State<E>, i: nat)
    requires WellFormed(s) && i < |s.ll| && s.hand == Some(s.ll[i]) && |s.ll| == s.cap + 1
    ensures s.ll[At(i, NextUnvisited(s.ll, VisitedSet(s), i, 0), |s.ll|)] !in Loop(s).ll
  {
    var p, t := EvictScan(s, i);
    FirstUnvisitedUnique(s.ll, VisitedSet(s), i, p, NextUnvisited(s.ll, VisitedSet(s), i, 0));
    WithoutElems(s.ll, s.ll[At(i, p, |s.ll|)]);
  }

  lemma VictimIsUnlinked<E>(s: State<E>)
    requires WellFormed(s) && |s.ll| == s.cap + 1
    ensures Victim(s) !in EvictOne(s).ll
  {
    var u := ScanStart(s);
    if HandLinked(s) {
      ScanStartLinked(s);
    } else {
      ScanStartDetached(s);
      LoopDetached(s);
      assert PlaceHand(s) == s;
    }
    LoopUnlinks(u, IndexOf(u.ll, u.hand.value));
  }

  /** With one element too many, an eviction unlinks one listed element `v`, an unvisited one if there is one, and
      never the one at the front if its bit is set and the hand is elsewhere. It drops the key of `v` and, from a ghost
      hand, that of the hand; no element changes but in its bit. */
  lemma EvictOneVictim<E>(s: State<E>) returns (v: E, t: State<E>)
    requires WellFormed(s) && |s.ll| == s.cap + 1
    ensures t == EvictOne(s)
    ensures v in s.ll && t.ll == Without(s.ll, v)
    ensures s.ent[s.ll[0]].visited && s.hand != Some(s.ll[0]) ==> v != s.ll[0]
    ensures t.cache == s.cache - LostToHand(s) - {s.ent[v].key}
    ensures SomeUnvisited(s) ==> !s.ent[v].visited
    ensures forall e <- t.ll :: e in s.ent && e in t.ent && t.ent[e] == s.ent[e].(visited := t.ent[e].visited)
    ensures t.hand.Some? && t.hand.value in t.ll
  {
    var u := ScanStart(s);
    if HandLinked(s) {
      ScanStartLinked(s);
    } else {
      ScanStartDetached(s);
      LoopDetached(s);
      assert PlaceHand(s) == s;
    }
    assert SameEntries(s, u, LostToHand(s));
    v, t := LoopVictim(u);
    WithoutElems(s.ll, v);
  }

  // ---------- Operations keep the invariants ----------

  lemma RemoveKeeps<E>(s: State<E>, e: E)
    requires Weak(s) && e in s.ll
    ensures Weak(Remove(s, e))
    ensures Listed(s) ==> Listed(Remove(s, e))
    ensures HandLinked(s) ==> (HandLinked(Remove(s, e)) <==> s.hand != Some(e))
  {
    WithoutElems(s.ll, e);
  }

  lemma CleanKeeps<E>(s: State<E>, now: Time)
    requires Weak(s)
    ensures Weak(Clean(s, now))
    ensures Listed(s) ==> Listed(Clean(s, now))
    ensures HandLinked(s) ==> (HandLinked(Clean(s, now)) <==> s.hand.Some? ==> now <= s.ent[s.hand.value].expiry)
  {
    var t := Clean(s, now);
    forall k <- t.cache ensures t.cache[k] in t.ll && t.ent[t.cache[k]].key == k {
      assert k in s.cache;
    }
    if Listed(s) {
      forall e <- t.ll ensures t.ent[e].key in t.cache && t.cache[t.ent[e].key] == e {
        assert s.cache[s.ent[e].key] == e;
      }
    }
  }

  lemma PushKeeps<E>(s: State<E>, e: E, d: Entry)
    requires Weak(s) && e !in s.ent && d.key !in s.cache
    ensures Mapped(PushFront(s, e, d))
    ensures Listed(s) ==> Listed(PushFront(s, e, d))
  {
  }

  lemma {:induction false} SliceCons<E>(e: E, ll: seq<E>, i: nat)
    requires i < |ll|
    ensures ([e] + ll)[..i + 1] + ([e] + ll)[i + 2..] == [e] + (ll[..i] + ll[i + 1..])
  {
  }

  lemma IndexOfCons<E>(e: E, ll: seq<E>, v: E)
    requires v in ll && v != e
    ensures IndexOf([e] + ll, v) == 1 + IndexOf(ll, v)
  {
    assert ([e] + ll)[1..] == ll;
  }

  lemma {:induction false} WithoutCons<E>(e: E, ll: seq<E>, v: E)
    requires v in ll && v != e
    ensures Without([e] + ll, v) == [e] + Without(ll, v)
  {
    var i := IndexOf(ll, v);
    IndexOfCons(e, ll, v);
    assert v in [e] + ll;
    assert Without([e] + ll, v) == ([e] + ll)[..i + 1] + ([e] + ll)[i + 2..];
    SliceCons(e, ll, i);
  }

  /** Setting a new key at capacity unlinks one element that was there before, never the new one. */
  lemma PutEvicts<E>(s: State<E>, e: E, d: Entry) returns (v: E, t: State<E>)
    requires Weak(s) && e !in s.ent && d.key !in s.cache && |s.ll| == s.cap && d.visited
    ensures t == EvictOne(PushFront(s, e, d))
    ensures v in s.ll && t.ll == [e] + Without(s.ll, v)
    ensures t.cache == s.cache[d.key := e] - LostToHand(s) - {s.ent[v].key}
    ensures forall x <- t.ll :: (x == e || x in s.ent) && x in t.ent
              && t.ent[x] == (if x == e then d else s.ent[x]).(visited := t.ent[x].visited)
    ensures t.hand.Some? && t.hand.value in t.ll
    ensures Weak(t)
    ensures Strong(s) ==> Strong(t)
  {
    var u := PushFront(s, e, d);
    assert u.ll[0] == e;
    v, t := EvictOneVictim(u);
    WithoutCons(e, s.ll, v);
    WithoutElems(u.ll, v);
    PushKeeps(s, e, d);
    EvictOneKeeps(u);
  }

  // ---------- Steps and runs ----------

  datatype Op<E> =
    | OpGet(k: Key, now: Time)
    | OpDropExpired(k: Key, now: Time)
    | OpPut(e: E, k: Key, msg: Option<Msg>, ttl: Duration, storedTTL: Duration, authTTL: Duration, now: Time)
    | OpDelete(k: Key)
    | OpClean(now: Time)
    | OpClear

  ghost predicate Stores<E>(op: Op<E>) {
    op.OpPut? && op.msg.Some? && op.ttl > 0
  }

  /** A Put of a key that is not mapped brings a new element along; every other operation is always possible. */
  ghost predicate Enabled<E>(s: State<E>, op: Op<E>) {
    op.OpPut? && op.k !in s.cache ==> op.e !in s.ent
  }

  ghost function Step<E>(s: State<E>, op: Op<E>): (t: State<E>)
    requires Weak(s) && Enabled(s, op)
    ensures WellFormed(t) && t.cap == s.cap && t.grace == s.grace
  {
    match op
    case OpGet(k, now) => Get(s, k, now)
    case OpDropExpired(k, now) => DropExpired(s, k, now)
    case OpPut(e, k, msg, ttl, stored, auth, now) => Put(s, e, k, msg, ttl, stored, auth, now)
    case OpDelete(k) => Delete(s, k)
    case OpClean(now) => Clean(s, now)
    case OpClear => Clear(s)
  }

  /** The operation unlinks the element under the hand without moving the hand. */
  ghost predicate HitsHand<E>(s: State<E>, op: Op<E>)
    requires WellFormed(s) && Mapped(s)
  {
    s.hand.Some? && s.hand.value in s.ll &&
    match op
    case OpGet(k, now) => k in s.cache && Some(s.cache[k]) == s.hand && now > s.ent[s.hand.value].expiry
    case OpDropExpired(k, now) => k in s.cache && Some(s.cache[k]) == s.hand && now > s.ent[s.hand.value].expiry
    case OpPut(_, _, _, _, _, _, _) => false
    case OpDelete(k) => k in s.cache && Some(s.cache[k]) == s.hand
    case OpClean(now) => now > s.ent[s.hand.value].expiry
    case OpClear => false
  }

  lemma UpdateKeeps<E>(s: State<E>, k: Key, d: Entry)
    requires Weak(s) && k in s.cache && d.key == k
    ensures var t := s.(ent := s.ent[s.cache[k] := d]);
            WellFormed(t) && Weak(t) && (Listed(s) ==> Listed(t)) && (HandLinked(t) <==> HandLinked(s))
  {
  }

  lemma InsertKeeps<E>(s: State<E>, e: E, d: Entry)
    requires Weak(s) && e !in s.ent && d.key !in s.cache && d.visited
    ensures Weak(Insert(s, e, d))
    ensures Strong(s) ==> Strong(Insert(s, e, d))
  {
    PushKeeps(s, e, d);
    if |s.ll| == s.cap {
      var v, t := PutEvicts(s, e, d);
    }
  }

  lemma PutKeeps<E>(s: State<E>, op: Op<E>)
    requires Weak(s) && op.OpPut? && Enabled(s, op)
    ensures Weak(Step(s, op))
    ensures Strong(s) ==> Strong(Step(s, op))
  {
    if Stores(op) {
      var d := MakeEntry(op.k, op.msg.value, op.ttl, op.storedTTL, op.authTTL, op.now, s.grace);
      if op.k in s.cache {
        UpdateKeeps(s, op.k, d);
      } else {
        InsertKeeps(s, op.e, d);
      }
    }
  }

  lemma StepKeepsWeak<E>(s: State<E>, op: Op<E>)
    requires Weak(s) && Enabled(s, op)
    ensures Weak(Step(s, op))
  {
    match op
    case OpGet(k, now) =>
      if Lookup(s, k, now).Some? {
        UpdateKeeps(s, k, s.ent[s.cache[k]].(visited := true));
      } else if k in s.cache {
        RemoveKeeps(s, s.cache[k]);
      }
    case OpDropExpired(k, now) =>
      if k in s.cache { RemoveKeeps(s, s.cache[k]); }
    case OpPut(_, _, _, _, _, _, _) => PutKeeps(s, op);
    case OpDelete(k) =>
      if k in s.cache { RemoveKeeps(s, s.cache[k]); }
    case OpClean(now) => CleanKeeps(s, now);
    case OpClear =>
  }

  /** The strong invariant survives a step exactly when the step does not unlink the element under the hand. */
  lemma StepKeepsStrongIff<E>(s: State<E>, op: Op<E>)
    requires Strong(s) && Enabled(s, op)
    ensures Strong(Step(s, op)) <==> !HitsHand(s, op)
  {
    match op
    case OpGet(k, now) =>
      if Lookup(s, k, now).Some? {
        UpdateKeeps(s, k, s.ent[s.cache[k]].(visited := true));
      } else if k in s.cache {
        RemoveKeeps(s, s.cache[k]);
      }
    case OpDropExpired(k, now) =>
      if k in s.cache { RemoveKeeps(s, s.cache[k]); }
    case OpPut(_, _, _, _, _, _, _) => PutKeeps(s, op);
    case OpDelete(k) =>
      if k in s.cache { RemoveKeeps(s, s.cache[k]); }
    case OpClean(now) => CleanKeeps(s, now);
    case OpClear =>
  }

  ghost predicate Runnable<E>(s: State<E>, ops: seq<Op<E>>)
    requires Weak(s)
    decreases |ops|
  {
    ops == [] ||
    (Enabled(s, ops[0]) && (StepKeepsWeak(s, ops[0]); Runnable(Step(s, ops[0]), ops[1..])))
  }

  /** Every run keeps the weak invariant: each map entry leads to a listed element with its key, and
      the list never holds more than `cap` elements after a call. */
  ghost function Run<E>(s: State<E>, ops: seq<Op<E>>): (t: State<E>)
    requires Weak(s) && Runnable(s, ops)
    ensures Weak(t) && t.cap == s.cap
    decreases |ops|
  {
    if ops == [] then s else StepKeepsWeak(s, ops[0]); Run(Step(s, ops[0]), ops[1..])
  }

  ghost predicate NeverHitsHand<E>(s: State<E>, ops: seq<Op<E>>)
    requires Weak(s) && Runnable(s, ops)
    decreases |ops|
  {
    ops == [] || (!HitsHand(s, ops[0]) && (StepKeepsWeak(s, ops[0]); NeverHitsHand(Step(s, ops[0]), ops[1..])))
  }

  /** In a run where no removal hits the element under the hand, map and list stay one-to-one. */
  lemma {:induction false} RunKeepsStrong<E>(s: State<E>, ops: seq<Op<E>>)
    requires Strong(s) && Runnable(s, ops) && NeverHitsHand(s, ops)
    ensures Strong(Run(s, ops))
    decreases |ops|
  {
    if ops != [] {
      StepKeepsStrongIff(s, ops[0]);
      RunKeepsStrong(Step(s, ops[0]), ops[1..]);
    }
  }

  lemma FullInsertIs<E>(s: State<E>, e: E, d: Entry)
    requires Weak(s) && e !in s.ent && |s.ll| == s.cap
    ensures Insert(s, e, d) == EvictOne(PushFront(s, e, d))
  {
  }

  lemma PutIs<E>(s: State<E>, op: Op<E>) returns (d: Entry)
    requires Weak(s) && op.OpPut? && Enabled(s, op) && Stores(op) && op.k !in s.cache && |s.ll| == s.cap
    ensures d == MakeEntry(op.k, op.msg.value, op.ttl, op.storedTTL, op.authTTL, op.now, s.grace)
    ensures Step(s, op) == EvictOne(PushFront(s, op.e, d))
  {
    d := MakeEntry(op.k, op.msg.value, op.ttl, op.storedTTL, op.authTTL, op.now, s.grace);
    PutCases(s, op.e, op.k, op.msg, op.ttl, op.storedTTL, op.authTTL, op.now, d);
    FullInsertIs(s, op.e, d);
  }

  lemma PushReplacesOne<E>(s: State<E>, e: E, d: Entry) returns (v: E, t: State<E>)
    requires Strong(s) && e !in s.ent && d.key !in s.cache && |s.ll| == s.cap && d.visited
    ensures t == EvictOne(PushFront(s, e, d))
    ensures v in s.ll && s.ent[v].key != d.key && s.ent[v].key in s.cache && s.cache[s.ent[v].key] == v
    ensures t.cache == s.cache[d.key := e] - {s.ent[v].key}
    ensures t.ll == [e] + Without(s.ll, v) && |t.ll| == s.cap
    ensures t.hand.Some? && t.hand.value in t.ll
  {
    v, t := PutEvicts(s, e, d);
    assert s.ent[v].key in s.cache && s.cache[s.ent[v].key] == v;
    assert LostToHand(s) == {};
  }

  /** Setting a new key in a full cache replaces the key of one listed element, never the new one. */
  lemma PutReplacesOne<E>(s: State<E>, op: Op<E>) returns (v: E, t: State<E>)
    requires Strong(s) && op.OpPut? && Enabled(s, op) && Stores(op) && op.k !in s.cache && |s.ll| == s.cap
    ensures t == Step(s, op)
    ensures v in s.ll && s.ent[v].key != op.k && s.ent[v].key in s.cache && s.cache[s.ent[v].key] == v
    ensures t.cache == s.cache[op.k := op.e] - {s.ent[v].key}
    ensures t.ll == [op.e] + Without(s.ll, v) && |t.ll| == s.cap
    ensures t.hand.Some? && t.hand.value in t.ll
  {
    var d := PutIs(s, op);
    v, t := PushReplacesOne(s, op.e, d);
  }

  /** In a full cache a new key is lost as it is set exactly when the first unvisited element of the scan carries that
      key, or the hand lies on an unlinked, unvisited element that does. */
  lemma PutLosesIff<E>(s: State<E>, op: Op<E>) returns (d: Entry)
    requires Weak(s) && op.OpPut? && Enabled(s, op) && Stores(op) && op.k !in s.cache && |s.ll| == s.cap
    ensures d == MakeEntry(op.k, op.msg.value, op.ttl, op.storedTTL, op.authTTL, op.now, s.grace)
    ensures var v := Victim(PushFront(s, op.e, d));
            v in s.ll &&
            (op.k !in Step(s, op).cache <==>
               s.ent[v].key == op.k || (GhostHand(s) && s.ent[s.hand.value].key == op.k))
  {
    d := PutIs(s, op);
    var u := PushFront(s, op.e, d);
    var v, t := PutEvicts(s, op.e, d);
    VictimIsUnlinked(u);
    OnlyOneUnlinked(op.e, s.ll, v, Victim(u));
  }

  lemma OnlyOneUnlinked<E>(e: E, ll: seq<E>, v: E, w: E)
    requires Distinct(ll) && v in ll && w in [e] + ll && w !in [e] + Without(ll, v)
    ensures w == v
  {
    WithoutElems(ll, v);
  }

  /** Inserting `e` costs an element other than the victim its key, because the hand still carries that key. */
  ghost predicate HandTakesOther<E>(s: State<E>, e: E, d: Entry)
    requires WellFormed(s) && e !in s.ent
  {
    exists k <- LostToHand(s) :: k in s.cache[d.key := e] && s.cache[d.key := e][k] != Victim(PushFront(s, e, d))
  }

  lemma PushKeepsBijectiveIff<E>(s: State<E>, e: E, d: Entry) returns (t: State<E>)
    requires Bijective(s) && e !in s.ent && d.key !in s.cache && |s.ll| == s.cap && d.visited
    ensures t == EvictOne(PushFront(s, e, d))
    ensures Bijective(t) <==> !HandTakesOther(s, e, d)
  {
    var v;
    v, t := PutEvicts(s, e, d);
    VictimIsUnlinked(PushFront(s, e, d));
    var w := Victim(PushFront(s, e, d));
    OnlyOneUnlinked(e, s.ll, v, w);
    WithoutElems(s.ll, v);
    LostIsUnlisted(s, t, e, d, v);
  }

  lemma LostIsUnlisted<E>(s: State<E>, t: State<E>, e: E, d: Entry, v: E)
    requires Bijective(s) && Weak(t) && e !in s.ent && d.key !in s.cache && v in s.ll
    requires forall x :: x in t.ll <==> x == e || (x in s.ll && x != v)
    requires t.cache == s.cache[d.key := e] - LostToHand(s) - {s.ent[v].key}
    requires forall x <- t.ll :: x in t.ent && t.ent[x].key == if x == e then d.key else s.ent[x].key
    ensures Bijective(t) <==> forall k <- LostToHand(s) :: k in s.cache[d.key := e] ==> s.cache[d.key := e][k] == v
  {
    var c := s.cache[d.key := e];
    assert s.cache[s.ent[v].key] == v;
    if k :| k in LostToHand(s) && k in c && c[k] != v {
      assert c[k] in t.ll && t.ent[c[k]].key == k;
    } else {
      forall x <- t.ll ensures t.ent[x].key in t.cache && t.cache[t.ent[x].key] == x {
        assert c[t.ent[x].key] == x;
      }
    }
  }

  /** List and map stop being one-to-one in one case only: in a full cache, a new key comes in while the hand lies on an
      unlinked, unvisited element whose key another element has by now, and that one is not the victim. */
  lemma StepKeepsBijectiveIff<E>(s: State<E>, op: Op<E>)
    requires Bijective(s) && Enabled(s, op)
    ensures Bijective(Step(s, op)) <==>
              !(Stores(op) && op.k !in s.cache && |s.ll| == s.cap
                && HandTakesOther(s, op.e, MakeEntry(op.k, op.msg.value, op.ttl, op.storedTTL, op.authTTL, op.now,
                                                     s.grace)))
  {
    match op
    case OpGet(k, now) =>
      if Lookup(s, k, now).Some? {
        UpdateKeeps(s, k, s.ent[s.cache[k]].(visited := true));
      } else if k in s.cache {
        RemoveKeeps(s, s.cache[k]);
      }
    case OpDropExpired(k, now) =>
      if k in s.cache { RemoveKeeps(s, s.cache[k]); }
    case OpPut(_, _, _, _, _, _, _) => PutKeepsBijectiveIff(s, op);
    case OpDelete(k) =>
      if k in s.cache { RemoveKeeps(s, s.cache[k]); }
    case OpClean(now) => CleanKeeps(s, now);
    case OpClear =>
  }

  lemma PutKeepsBijectiveIff<E>(s: State<E>, op: Op<E>)
    requires Bijective(s) && Enabled(s, op) && op.OpPut?
    ensures Bijective(Step(s, op)) <==>
              !(Stores(op) && op.k !in s.cache && |s.ll| == s.cap
                && HandTakesOther(s, op.e, MakeEntry(op.k, op.msg.value, op.ttl, op.storedTTL, op.authTTL, op.now,
                                                     s.grace)))
  {
    if Stores(op) {
      var d := MakeEntry(op.k, op.msg.value, op.ttl, op.storedTTL, op.authTTL, op.now, s.grace);
      if op.k in s.cache {
        UpdateKeeps(s, op.k, d);
      } else if |s.ll| == s.cap {
        d := PutIs(s, op);
        var t := PushKeepsBijectiveIff(s, op.e, d);
      } else {
        PushKeeps(s, op.e, d);
      }
    }
  }

  /** A listed element carries the key, but the map has lost it: what an earlier lost insertion leaves behind. */
  ghost predicate Stray<E>(s: State<E>, k: Key)
    requires WellFormed(s)
  {
    k !in s.cache && exists e <- s.ll :: s.ent[e].key == k
  }

  /** A key without a stray element that was just set is found again, except in one case: the cache is full and
      the hand lies on an unlinked, unvisited element with that very key. */
  lemma PutIsFoundIff<E>(s: State<E>, op: Op<E>)
    requires Weak(s) && op.OpPut? && Enabled(s, op) && Stores(op) && !Stray(s, op.k)
    ensures op.k in Step(s, op).cache <==>
            op.k in s.cache || !(|s.ll| == s.cap && GhostHand(s) && s.ent[s.hand.value].key == op.k)
  {
    if op.k !in s.cache && |s.ll| == s.cap {
      var d := PutLosesIff(s, op);
      assert s.ent[Victim(PushFront(s, op.e, d))].key != op.k;
    }
  }

  lemma VisitedStaysListed<E>(s: State<E>, x: E) returns (t: State<E>)
    requires WellFormed(s) && |s.ll| == s.cap + 1 && x in s.ll && s.ent[x].visited && SomeUnvisited(s)
    ensures t == EvictOne(s) && x in t.ll
  {
    var v;
    v, t := EvictOneVictim(s);
    WithoutElems(s.ll, v);
  }

  lemma StillUnvisited<E>(s: State<E>, e: E, d: Entry)
    requires WellFormed(s) && e !in s.ent && SomeUnvisited(s)
    ensures SomeUnvisited(PushFront(s, e, d))
  {
    var y :| y in s.ll && !s.ent[y].visited;
    assert y in PushFront(s, e, d).ll;
  }

  lemma VisitedSurvives<E>(s: State<E>, op: Op<E>, x: E)
    requires Strong(s) && op.OpPut? && Enabled(s, op) && Stores(op) && op.k !in s.cache && |s.ll| == s.cap
    requires x in s.ll && s.ent[x].visited && SomeUnvisited(s)
    ensures s.ent[x].key in Step(s, op).cache
  {
    var d := PutIs(s, op);
    PushSpares(s, op.e, d, x);
  }

  lemma PushSpares<E>(s: State<E>, e: E, d: Entry, x: E)
    requires Strong(s) && e !in s.ent && d.key !in s.cache && |s.ll| == s.cap && d.visited
    requires x in s.ll && s.ent[x].visited && SomeUnvisited(s)
    ensures s.ent[x].key in EvictOne(PushFront(s, e, d)).cache
  {
    var v, t := PushReplacesOne(s, e, d);
    StillUnvisited(s, e, d);
    var u := VisitedStaysListed(PushFront(s, e, d), x);
    WithoutElems(s.ll, v);
  }

  /** What SIEVE is for: an entry that was hit survives the next eviction if any other entry was not hit. */
  lemma HitSurvives<E>(s: State<E>, k: Key, now: Time, op: Op<E>) returns (u: State<E>)
    requires Strong(s) && Lookup(s, k, now).Some?
    ensures u == Get(s, k, now) && Strong(u)
    ensures (op.OpPut? && Enabled(u, op) && Stores(op) && op.k !in u.cache && |u.ll| == u.cap && SomeUnvisited(u)) ==>
              k in Step(u, op).cache
  {
    u := Get(s, k, now);
    UpdateKeeps(s, k, s.ent[s.cache[k]].(visited := true));
    if op.OpPut? && Enabled(u, op) && Stores(op) && op.k !in u.cache && |u.ll| == u.cap && SomeUnvisited(u) {
      VisitedSurvives(u, op, u.cache[k]);
    }
  }

  /** So does an entry that was set again. */
  lemma SetSurvives<E>(s: State<E>, again: Op<E>, op: Op<E>) returns (u: State<E>)
    requires Strong(s) && again.OpPut? && Stores(again) && again.k in s.cache
    ensures u == Step(s, again) && Strong(u)
    ensures (op.OpPut? && Enabled(u, op) && Stores(op) && op.k !in u.cache && |u.ll| == u.cap && SomeUnvisited(u)) ==>
              again.k in Step(u, op).cache
  {
    PutKeeps(s, again);
    u := Step(s, again);
    if op.OpPut? && Enabled(u, op) && Stores(op) && op.k !in u.cache && |u.ll| == u.cap && SomeUnvisited(u) {
      VisitedSurvives(u, op, u.cache[again.k]);
    }
  }

  // ---------- What other calls do to a lookup ----------

  lemma LookupSame<E>(s: State<E>, t: State<E>, x: Key, now: Time)
    requires Weak(s) && Weak(t) && x in s.cache && x in t.cache && t.cache[x] == s.cache[x]
    requires t.ent[t.cache[x]] == s.ent[s.cache[x]].(visited := t.ent[t.cache[x]].visited)
    ensures Lookup(t, x, now) == Lookup(s, x, now)
  {
  }

  /** A deletion turns the lookups of its key into misses, and changes no other. */
  lemma DeleteHidesOnly<E>(s: State<E>, k: Key, x: Key, now: Time) returns (t: State<E>)
    requires Weak(s)
    ensures t == Delete(s, k) && Weak(t)
    ensures Lookup(t, x, now) == if x == k then None else Lookup(s, x, now)
  {
    StepKeepsWeak(s, OpDelete(k));
    t := Delete(s, k);
    if k in s.cache && x != k && x in s.cache {
      LookupSame(s, t, x, now);
    }
  }

  /** A lookup changes no later lookup, of any key: what it drops had expired. */
  lemma GetIsInvisible<E>(s: State<E>, k: Key, now: Time, x: Key, later: Time) returns (t: State<E>)
    requires Weak(s) && now <= later
    ensures t == Get(s, k, now) && Weak(t)
    ensures Lookup(t, x, later) == Lookup(s, x, later)
  {
    StepKeepsWeak(s, OpGet(k, now));
    t := Get(s, k, now);
    if Lookup(s, k, now).None? {
      if k in s.cache {
        t := DeleteHidesOnly(s, k, x, later);
      }
    } else if x in s.cache {
      LookupSame(s, t, x, later);
    }
  }

  /** The expiry sweep changes a later lookup exactly when a listed element that the map has lost carries the key too
      and has expired: the sweep then drops the key of a live entry. */
  lemma CleanIsInvisibleIff<E>(s: State<E>, now: Time, x: Key, later: Time) returns (t: State<E>)
    requires Weak(s) && now <= later
    ensures t == Clean(s, now) && Weak(t)
    ensures Lookup(t, x, later) == Lookup(s, x, later) <==>
              !(Lookup(s, x, later).Some?
                && exists e <- s.ll :: e != s.cache[x] && s.ent[e].key == x && now > s.ent[e].expiry)
  {
    CleanKeeps(s, now);
    t := Clean(s, now);
    if x in t.cache {
      LookupSame(s, t, x, later);
    }
  }

  /** A Put that kept its key is read back until its TTL and grace period are over, and never after: with
      the rest of the TTL while there is some, then as stale. */
  lemma PutReadBack<E>(s: State<E>, op: Op<E>, now: Time) returns (t: State<E>)
    requires Weak(s) && op.OpPut? && Enabled(s, op) && Stores(op) && op.k in Step(s, op).cache
    ensures t == Step(s, op) && Weak(t)
    ensures Lookup(t, op.k, now) ==
              if now > op.now + op.ttl + Min(op.ttl, s.grace) then None
              else Some(Hit(op.msg.value, if op.now + op.ttl < now then 0 else op.now + op.ttl - now,
                            if op.storedTTL <= 0 then op.ttl else op.storedTTL, op.authTTL))
  {
    PutKeeps(s, op);
    t := Step(s, op);
    if op.k !in s.cache && |s.ll| == s.cap {
      var d := PutIs(s, op);
      var v, u := PutEvicts(s, op.e, d);
    }
  }

  // ---------- What a hit returns ----------

  /** The latest Put of each key since it was last deleted, or the cache cleared. */
  datatype Latest = Latest(msg: Msg, softExpiry: Time, storedTTL: Duration, authTTL: Duration)

  ghost function StepLatest<E>(m: map<Key, Latest>, op: Op<E>): map<Key, Latest> {
    match op
    case OpPut(_, k, msg, ttl, stored, auth, now) =>
      if Stores(op) then m[k := Latest(msg.value, now + ttl, if stored <= 0 then ttl else stored, auth)] else m
    case OpDelete(k) => m - {k}
    case OpClear => map[]
    case _ => m
  }

  ghost predicate Agrees<E>(s: State<E>, m: map<Key, Latest>)
    requires Weak(s)
  {
    forall k <- s.cache :: k in m &&
      var d := s.ent[s.cache[k]]; m[k] == Latest(d.msg, d.softExpiry, d.storedTTL, d.authTTL)
  }

  lemma PutAgrees<E>(s: State<E>, op: Op<E>, m: map<Key, Latest>)
    requires Weak(s) && op.OpPut? && Enabled(s, op) && Agrees(s, m)
    ensures Weak(Step(s, op)) && Agrees(Step(s, op), StepLatest(m, op))
  {
    PutKeeps(s, op);
    if Stores(op) {
      var d := MakeEntry(op.k, op.msg.value, op.ttl, op.storedTTL, op.authTTL, op.now, s.grace);
      if op.k in s.cache {
        UpdateKeeps(s, op.k, d);
      } else if |s.ll| == s.cap {
        var _ := PutIs(s, op);
        var t := PutVictimAgrees(s, op, d, m);
      }
    }
  }

  lemma PutVictimAgrees<E>(s: State<E>, op: Op<E>, d: Entry, m: map<Key, Latest>) returns (t: State<E>)
    requires Weak(s) && op.OpPut? && Enabled(s, op) && Agrees(s, m) && Stores(op)
    requires op.k !in s.cache && |s.ll| == s.cap
    requires d == MakeEntry(op.k, op.msg.value, op.ttl, op.storedTTL, op.authTTL, op.now, s.grace)
    ensures t == EvictOne(PushFront(s, op.e, d)) && Weak(t) && Agrees(t, StepLatest(m, op))
  {
    var v;
    v, t := PutEvicts(s, op.e, d);
    NewEntryAgrees(s, t, op.e, d, m);
  }

  /** A new entry agrees with its own Latest, and the entries left with theirs. */
  lemma NewEntryAgrees<E>(s: State<E>, t: State<E>, e: E, d: Entry, m: map<Key, Latest>)
    requires Weak(s) && Weak(t) && Agrees(s, m) && e !in s.ent
    requires forall k <- t.cache :: k in s.cache[d.key := e] && t.cache[k] == s.cache[d.key := e][k]
    requires forall x <- t.ll :: (x == e || x in s.ent) && x in t.ent
              && t.ent[x] == (if x == e then d else s.ent[x]).(visited := t.ent[x].visited)
    ensures Agrees(t, m[d.key := Latest(d.msg, d.softExpiry, d.storedTTL, d.authTTL)])
  {
    forall k <- t.cache
      ensures var x := t.ent[t.cache[k]]; var n := m[d.key := Latest(d.msg, d.softExpiry, d.storedTTL, d.authTTL)];
              k in n && n[k] == Latest(x.msg, x.softExpiry, x.storedTTL, x.authTTL)
    {
      assert t.cache[k] in t.ll;
    }
  }

  lemma StepAgrees<E>(s: State<E>, op: Op<E>, m: map<Key, Latest>)
    requires Weak(s) && Enabled(s, op) && Agrees(s, m)
    ensures Weak(Step(s, op)) && Agrees(Step(s, op), StepLatest(m, op))
  {
    StepKeepsWeak(s, op);
    if op.OpPut? {
      PutAgrees(s, op, m);
    }
  }

  ghost function RunLatest<E>(m: map<Key, Latest>, ops: seq<Op<E>>): map<Key, Latest>
    decreases |ops|
  {
    if ops == [] then m else RunLatest(StepLatest(m, ops[0]), ops[1..])
  }

  /** After any run, what a key is mapped to is what the latest Put of that key stored. */
  lemma {:induction false} RunAgrees<E>(s: State<E>, ops: seq<Op<E>>, m: map<Key, Latest>)
    requires Weak(s) && Runnable(s, ops) && Agrees(s, m)
    ensures Agrees(Run(s, ops), RunLatest(m, ops))
    decreases |ops|
  {
    if ops != [] {
      StepAgrees(s, ops[0], m);
      RunAgrees(Step(s, ops[0]), ops[1..], StepLatest(m, ops[0]));
    }
  }

  /** A hit returns message, stored TTL and auth TTL of the latest Put, and the time left until its soft expiry. */
  ghost predicate HitIs(answer: Option<Hit>, m: map<Key, Latest>, k: Key, now: Time) {
    match answer
    case None => true
    case Some(hit) =>
      && k in m
      && hit.msg == m[k].msg && hit.storedTTL == m[k].storedTTL && hit.authTTL == m[k].authTTL
      && hit.remaining == if m[k].softExpiry < now then 0 else m[k].softExpiry - now
  }

  /** A hit after any run from an empty cache returns what the latest Put of the key stored, with the time
      left until its soft expiry; after a Delete or a Clear there is no hit until the next Put. */
  lemma HitIsLatest<E>(cap: nat, grace: Duration, ops: seq<Op<E>>, k: Key, now: Time)
    requires cap >= 1 && Runnable(Empty<E>(cap, grace), ops)
    ensures HitIs(Lookup(Run(Empty<E>(cap, grace), ops), k, now), RunLatest(map[], ops), k, now)
  {
    RunAgrees(Empty<E>(cap, grace), ops, map[]);
  }

  // ---------- A run that loses a key ----------

  ghost function SampleOp(e: nat, k: Key): Op<nat> {
    OpPut(e, k, Some(Msg("m")), 10, 10, 0, 0)
  }

  /** One element `e` for key `k` is listed, and the hand is at `hand`, if anywhere. */
  ghost predicate Holds(s: State<nat>, e: nat, k: Key, hand: Option<nat>) {
    && Weak(s) && s.cap == 1 && s.grace == 10
    && s.ll == [e] && s.cache == map[k := e] && s.ent[e].key == k
    && s.hand == hand
  }

  /** A lap over two visited elements clears both bits. */
  lemma LapClears(s: State<nat>)
    requires WellFormed(s) && s.ll == [1, 0] && s.hand == Some(0) && s.cap == 1
    requires s.ent[0].visited && s.ent[1].visited
    ensures 1 in Loop(s).ll ==> !Loop(s).ent[1].visited
  {
    var p, t := EvictScan(s, 1);
    assert s.ll[0] in VisitedSet(s) && s.ll[1] in VisitedSet(s);
    assert s.ll[At(1, 1, 2)] in Scanned(s.ll, 1, 2);
  }

  lemma SecondPutMap(s: State<nat>, op: Op<nat>) returns (t: State<nat>)
    requires Holds(s, 0, "a", None) && s.ent[0].visited && op == SampleOp(1, "b") && s.ent.Keys == {0}
    ensures t == Step(s, op) && Weak(t) && t.cap == 1 && t.grace == 10
    ensures t.ll == [1] && t.cache == map["b" := 1] && t.hand == Some(1) && t.ent[1].key == "b"
  {
    var v;
    v, t := PutReplacesOne(s, op);
    PutKeeps(s, op);
    assert t.cache == map["b" := 1];
  }

  lemma SecondPutBit(s: State<nat>, op: Op<nat>)
    requires Holds(s, 0, "a", None) && s.ent[0].visited && op == SampleOp(1, "b") && s.ent.Keys == {0}
    ensures 1 in Step(s, op).ll ==> !Step(s, op).ent[1].visited
  {
    var d := PutIs(s, op);
    LapClears(PlaceHand(PushFront(s, 1, d)));
  }

  lemma RunsOn<E>(s: State<E>, t: State<E>, op: Op<E>, ops: seq<Op<E>>)
    requires Weak(s) && Weak(t) && Enabled(s, op) && Step(s, op) == t && Runnable(t, ops)
    ensures Runnable(s, [op] + ops) && Run(s, [op] + ops) == Run(t, ops)
  {
    assert ([op] + ops)[1..] == ops;
  }

  lemma LastPutLoses(s: State<nat>, op: Op<nat>)
    requires Holds(s, 2, "a", Some(1)) && GhostHand(s) && s.ent[1].key == "b" && s.ent.Keys == {1, 2}
    requires op == SampleOp(3, "b")
    ensures Runnable(s, [op]) && "b" !in Run(s, [op]).cache
  {
    PutIsFoundIff(s, op);
    PutKeeps(s, op);
    RunsOn(s, Step(s, op), op, []);
  }

  lemma ThirdPut(s: State<nat>, op: Op<nat>) returns (t: State<nat>)
    requires WellFormed(s) && s.cap == 1 && s.grace == 10 && s.ll == [] && s.cache == map[] && s.hand == Some(1)
    requires s.ent[1].key == "b" && !s.ent[1].visited && op == SampleOp(2, "a")
    ensures Weak(s) && t == Step(s, op)
    ensures Holds(t, 2, "a", Some(1)) && GhostHand(t) && t.ent[1].key == "b" && t.ent.Keys == {1, 2}
  {
    t := Step(s, op);
  }

  lemma DeleteLeavesHand(s: State<nat>) returns (t: State<nat>)
    requires Holds(s, 1, "b", Some(1)) && !s.ent[1].visited
    ensures t == Step(s, OpDelete("b")) && WellFormed(t) && t.cap == 1 && t.grace == 10
    ensures t.ll == [] && t.cache == map[] && t.hand == Some(1) && t.ent[1].key == "b" && !t.ent[1].visited
  {
    t := Remove(s, 1);
  }

  lemma FromSecond(s: State<nat>, ops: seq<Op<nat>>)
    requires Holds(s, 1, "b", Some(1)) && !s.ent[1].visited
    requires ops == [OpDelete("b")] + ([SampleOp(2, "a")] + [SampleOp(3, "b")])
    ensures Runnable(s, ops) && "b" !in Run(s, ops).cache
  {
    var t := DeleteLeavesHand(s);
    var u := ThirdPut(t, SampleOp(2, "a"));
    LastPutLoses(u, SampleOp(3, "b"));
    RunsOn(t, u, SampleOp(2, "a"), [SampleOp(3, "b")]);
    RunsOn(s, t, OpDelete("b"), [SampleOp(2, "a")] + [SampleOp(3, "b")]);
  }

  /** In a cache for one entry: set a and b, delete b (the hand stays on its element), set a
      again, set b again. The last Set evicts through the hand left behind and drops the key
      it has just stored: b is missing. */
  lemma {:induction false} LostInsertion(rest: seq<Op<nat>>)
    requires rest == [OpDelete("b")] + ([SampleOp(2, "a")] + [SampleOp(3, "b")])
    ensures var ops := [SampleOp(0, "a")] + ([SampleOp(1, "b")] + rest);
            Runnable(Empty<nat>(1, 10), ops) && "b" !in Run(Empty<nat>(1, 10), ops).cache
  {
    var s := Empty<nat>(1, 10);
    var t := Step(s, SampleOp(0, "a"));
    assert Holds(t, 0, "a", None);
    var u := SecondPutMap(t, SampleOp(1, "b"));
    SecondPutBit(t, SampleOp(1, "b"));
    FromSecond(u, rest);
    RunsOn(t, u, SampleOp(1, "b"), rest);
    RunsOn(s, t, SampleOp(0, "a"), [SampleOp(1, "b")] + rest);
  }
}
