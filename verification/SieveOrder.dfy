/** The order in which the SIEVE cache evicts, over the places of its list: place 0 is the front. */
module SieveOrder {
  import opened Types
  import opened Sieve
  import opened SieveRuns

  /** The scan starts at the hand, and at the tail when there is no hand or it lies on an unlinked element. */
  ghost predicate StartsAt<E>(s: State<E>, i: nat) {
    && i < |s.ll|
    && if s.hand.Some? && s.hand.value in s.ll then s.ll[i] == s.hand.value else i == |s.ll| - 1
  }

  /** The visited bits, place by place. */
  ghost function Bits<E>(s: State<E>): (bits: seq<bool>)
    requires WellFormed(s)
    ensures |bits| == |s.ll|
  {
    seq(|s.ll|, u requires 0 <= u < |s.ll| => s.ent[s.ll[u]].visited)
  }

  /** From place `i` toward the front, and then from the tail on, `j` is the first place with a clear bit; with all bits
      set it is `i`. */
  ghost predicate NextVictim(bits: seq<bool>, i: nat, j: nat)
    requires i < |bits| && j < |bits|
  {
    if exists u :: 0 <= u <= i && !bits[u] then
      j <= i && !bits[j] && forall u :: j < u <= i ==> bits[u]
    else if exists u :: i < u < |bits| && !bits[u] then
      i < j && !bits[j] && forall u :: j < u < |bits| ==> bits[u]
    else
      j == i
  }

  /** The hand passes place `u` on its way from place `i` to the victim at place `j`; with all bits set it makes a full
      lap. */
  ghost predicate Passed(bits: seq<bool>, i: nat, j: nat, u: nat)
    requires j < |bits|
  {
    if j <= i then j < u <= i || bits[j] else u <= i || j < u
  }

  // ---------- Places ----------

  /** The place on which the scan stops is the next victim's. */
  lemma ScanStopsAt<E>(s: State<E>, i: nat, p: nat)
    requires WellFormed(s) && i < |s.ll| && FirstUnvisited(s.ll, VisitedSet(s), i, p)
    ensures NextVictim(Bits(s), i, At(i, p, |s.ll|))
  {
    var n := |s.ll|;
    var j := At(i, p, n);
    forall u: nat | u < n && (if u <= i then i - u else i - u + n) < p ensures Bits(s)[u] {
      var q := if u <= i then i - u else i - u + n;
      assert At(i, q, n) == u && s.ll[At(i, q, n)] in Scanned(s.ll, i, p);
    }
    assert p < n ==> !Bits(s)[j];
  }

  /** An element is scanned exactly when its place is passed. */
  lemma ScannedIsPassed<E>(s: State<E>, i: nat, p: nat, u: nat)
    requires WellFormed(s) && i < |s.ll| && u < |s.ll| && FirstUnvisited(s.ll, VisitedSet(s), i, p)
    requires u != At(i, p, |s.ll|)
    ensures s.ll[u] in Scanned(s.ll, i, p) <==> Passed(Bits(s), i, At(i, p, |s.ll|), u)
  {
    var n := |s.ll|;
    var q := if u <= i then i - u else i - u + n;
    assert At(i, q, n) == u;
    if q < p {
      assert s.ll[At(i, q, n)] in Scanned(s.ll, i, p);
    }
    if s.ll[u] in Scanned(s.ll, i, p) {
      var r :| 0 <= r < p && s.ll[u] == s.ll[At(i, r, n)];
      assert At(i, r, n) == u;
    }
    if p == n {
      assert s.ll[i] in VisitedSet(s) by { assert s.ll[At(i, 0, n)] in Scanned(s.ll, i, n); }
    }
  }

  // ---------- The victim ----------

  /** `t` is `s` after the element at place `j` was evicted by a scan from place `i`: it is gone, the hand is on the
      next element toward the front or back at the tail, and exactly the bits passed are cleared. */
  ghost predicate EvictedFrom<E>(s: State<E>, i: nat, j: nat, t: State<E>)
    requires WellFormed(s) && WellFormed(t) && j < |s.ll|
  {
    && t.ll == s.ll[..j] + s.ll[j + 1..]
    && t.hand == Some(s.ll[if j > 0 then j - 1 else |s.ll| - 1])
    && forall u :: 0 <= u < |s.ll| && u != j ==>
         s.ll[u] in t.ent &&
         t.ent[s.ll[u]] == s.ent[s.ll[u]].(visited := Bits(s)[u] && !Passed(Bits(s), i, j, u))
  }

  lemma WithoutAt<E>(ll: seq<E>, j: nat)
    requires Distinct(ll) && j < |ll|
    ensures Without(ll, ll[j]) == ll[..j] + ll[j + 1..]
  {
    IndexOfAt(ll, j);
  }

  lemma EvictedAtPlaces<E>(s: State<E>, i: nat, p: nat, t: State<E>)
    requires WellFormed(s) && WellFormed(t) && i < |s.ll| && FirstUnvisited(s.ll, VisitedSet(s), i, p)
    requires EvictedAt(s, i, p, t)
    ensures EvictedFrom(s, i, At(i, p, |s.ll|), t)
  {
    var j := At(i, p, |s.ll|);
    WithoutAt(s.ll, j);
    WithoutElems(s.ll, s.ll[j]);
    forall u: nat | u < |s.ll| && u != j
      ensures s.ll[u] in t.ent && t.ent[s.ll[u]] == s.ent[s.ll[u]].(visited := Bits(s)[u] && !Passed(Bits(s), i, j, u))
    {
      assert s.ll[u] in t.ll;
      ScannedIsPassed(s, i, p, u);
    }
  }

  lemma LoopInOrder<E>(s: State<E>, i: nat) returns (j: nat, t: State<E>)
    requires WellFormed(s) && i < |s.ll| && s.hand == Some(s.ll[i]) && |s.ll| == s.cap + 1
    ensures t == Loop(s) && j < |s.ll| && NextVictim(Bits(s), i, j) && EvictedFrom(s, i, j, t)
  {
    var p;
    p, t := EvictScan(s, i);
    j := At(i, p, |s.ll|);
    ScanStopsAt(s, i, p);
    EvictedAtPlaces(s, i, p, t);
  }

  lemma SameBits<E>(s: State<E>, u: State<E>, lost: set<Key>)
    requires WellFormed(s) && WellFormed(u) && SameEntries(s, u, lost)
    ensures Bits(u) == Bits(s)
  {
    forall x: nat | x < |s.ll| ensures Bits(s)[x] == Bits(u)[x] {
      assert s.ll[x] in s.ll;
    }
  }

  lemma SameEviction<E>(s: State<E>, u: State<E>, lost: set<Key>, i: nat, j: nat, t: State<E>)
    requires WellFormed(s) && WellFormed(u) && WellFormed(t) && j < |s.ll| && SameEntries(s, u, lost)
    requires Bits(u) == Bits(s) && EvictedFrom(u, i, j, t)
    ensures EvictedFrom(s, i, j, t)
  {
    forall x: nat | x < |s.ll| && x != j
      ensures s.ll[x] in t.ent && t.ent[s.ll[x]] == s.ent[s.ll[x]].(visited := Bits(s)[x] && !Passed(Bits(s), i, j, x))
    {
      assert s.ll[x] in s.ll;
    }
  }

  lemma ScanStartsAt<E>(s: State<E>, i: nat) returns (u: State<E>, lost: set<Key>)
    requires WellFormed(s) && |s.ll| == s.cap + 1 && StartsAt(s, i)
    ensures WellFormed(u) && u.hand == Some(s.ll[i]) && SameEntries(s, u, lost)
    ensures EvictOne(s) == Loop(u)
  {
    u, lost := ScanStart(s), {};
    if HandLinked(s) {
      ScanStartLinked(s);
    } else {
      lost := LostToHand(s);
      ScanStartDetached(s);
      LoopDetached(s);
      assert PlaceHand(s) == s;
    }
  }

  /** Which entry a SIEVE eviction removes, from any state with one entry too many. The scan starts at the hand, or at
      the tail when there is none, or none on the list; it goes toward the front, and from there back to the tail. The
      first entry with a clear bit goes, and when all bits are set the one the scan started at. */
  lemma VictimInOrder<E>(s: State<E>, i: nat) returns (j: nat, t: State<E>)
    requires WellFormed(s) && |s.ll| == s.cap + 1 && StartsAt(s, i)
    ensures t == EvictOne(s) && j < |s.ll|
    ensures NextVictim(Bits(s), i, j) && EvictedFrom(s, i, j, t)
  {
    var u, lost := ScanStartsAt(s, i);
    j, t := LoopInOrder(u, i);
    SameBits(s, u, lost);
    SameEviction(s, u, lost, i, j, t);
  }

  /** The same by the place of the first unvisited element on the scan. */
  lemma FirstUnvisitedGoes<E>(s: State<E>, i: nat, p: nat)
    requires WellFormed(s) && |s.ll| == s.cap + 1 && StartsAt(s, i) && FirstUnvisited(s.ll, VisitedSet(s), i, p)
    ensures EvictOne(s).ll == Without(s.ll, s.ll[At(i, p, |s.ll|)])
  {
    var j, t := VictimInOrder(s, i);
    ScanStopsAt(s, i, p);
    WithoutAt(s.ll, j);
  }

  /** Without a hand, and with all bits set, the oldest entry goes. */
  lemma OldestGoes<E>(s: State<E>)
    requires WellFormed(s) && |s.ll| == s.cap + 1 && s.hand == None
    requires forall e <- s.ll :: s.ent[e].visited
    ensures EvictOne(s).ll == s.ll[..|s.ll| - 1]
  {
    var n := |s.ll|;
    var j, t := VictimInOrder(s, n - 1);
    assert s.ll[n..] == [];
  }
}
