/** The SIEVE eviction policy of the L0 cache, as functions on values.

    A state is a list of elements (front first), a map from keys to elements, and a hand. An element
    is identified by a value of type `E`; what it holds is in `ent`, whose domain is the
    listed elements together with the element under the hand. The hand may lie on an element
    that is no longer listed: removals never move it. */
module Sieve {
  import opened Types

  datatype Entry = Entry(key: Key, msg: Msg, expiry: Time, softExpiry: Time,
                         storedTTL: Duration, authTTL: Duration, visited: bool)

  datatype State<!E(==)> = State(cap: nat, grace: Duration, ll: seq<E>, cache: map<Key, E>,
                                 hand: Option<E>, ent: map<E, Entry>)

  // ---------- Lists ----------

  ghost predicate Distinct<E>(ll: seq<E>) {
    forall i, j :: 0 <= i < j < |ll| ==> ll[i] != ll[j]
  }

  function IndexOf<E(==)>(ll: seq<E>, e: E): (i: nat)
    requires e in ll
    ensures i < |ll| && ll[i] == e
  {
    if ll[0] == e then 0 else 1 + IndexOf(ll[1..], e)
  }

  function Without<E(==)>(ll: seq<E>, e: E): (r: seq<E>)
    ensures e !in ll ==> r == ll
    ensures e in ll ==> |r| == |ll| - 1
  {
    if e in ll then var i := IndexOf(ll, e); ll[..i] + ll[i + 1..] else ll
  }

  lemma WithoutElems<E>(ll: seq<E>, e: E)
    requires Distinct(ll)
    ensures Distinct(Without(ll, e))
    ensures forall x :: x in Without(ll, e) <==> x in ll && x != e
  {
    if e in ll {
      var i := IndexOf(ll, e);
      var a, b := ll[..i], ll[i + 1..];
      assert ll == a + [e] + b;
      assert e !in a && e !in b;
    }
  }

  // ---------- The invariants ----------

  ghost function HandSet<E>(hand: Option<E>): set<E> {
    if hand.Some? then {hand.value} else {}
  }

  ghost function Scope<E>(ll: seq<E>, hand: Option<E>): set<E> {
    (set e | e in ll) + HandSet(hand)
  }

  ghost function Keep<E>(ent: map<E, Entry>, scope: set<E>): map<E, Entry> {
    map e | e in scope && e in ent :: ent[e]
  }

  ghost predicate WellFormed<E>(s: State<E>) {
    s.cap >= 1 && Distinct(s.ll) && s.ent.Keys == Scope(s.ll, s.hand)
  }

  /** Every map entry for `k` points to a listed element whose key is `k`. */
  ghost predicate Mapped<E>(s: State<E>)
    requires WellFormed(s)
  {
    forall k <- s.cache :: s.cache[k] in s.ll && s.ent[s.cache[k]].key == k
  }

  /** What every run keeps. */
  ghost predicate Weak<E>(s: State<E>) {
    WellFormed(s) && Mapped(s) && |s.ll| <= s.cap
  }

  /** Every listed element is the one its key is mapped to. */
  ghost predicate Listed<E>(s: State<E>)
    requires WellFormed(s)
  {
    forall e <- s.ll :: s.ent[e].key in s.cache && s.cache[s.ent[e].key] == e
  }

  ghost predicate Bijective<E>(s: State<E>) {
    Weak(s) && Listed(s)
  }

  ghost predicate HandLinked<E>(s: State<E>) {
    s.hand.Some? ==> s.hand.value in s.ll
  }

  /** What a run keeps as long as no removal hits the element under the hand. */
  ghost predicate Strong<E>(s: State<E>) {
    Bijective(s) && HandLinked(s)
  }

  // ---------- Eviction ----------

  /** The next hand: one step toward the front, or back to the tail. */
  ghost function Advance<E>(ll: seq<E>, e: E): (h: Option<E>)
    ensures ll != [] ==> h.Some? && h.value in ll
  {
    if e in ll && IndexOf(ll, e) > 0 then Some(ll[IndexOf(ll, e) - 1])
    else if ll != [] then Some(ll[|ll| - 1])
    else None
  }

  ghost function VisitedSet<E>(s: State<E>): set<E>
    requires WellFormed(s)
  {
    set e | e in s.ll && s.ent[e].visited
  }

  /** Spare the element under the hand: clear its bit and advance. */
  ghost function Spare<E>(s: State<E>): (t: State<E>)
    requires WellFormed(s) && s.hand.Some? && s.ll != []
    ensures WellFormed(t) && HandLinked(t) && t.hand.Some? && t.ll == s.ll && t.cap == s.cap
    ensures t.cache == s.cache && t.grace == s.grace
    ensures VisitedSet(t) == VisitedSet(s) - {s.hand.value}
  {
    var h := s.hand.value;
    var next := Advance(s.ll, h);
    s.(hand := next,
       ent := Keep(s.ent[h := s.ent[h].(visited := false)], Scope(s.ll, next)))
  }

  /** Evict the element under the hand: advance, unlink it if it is listed, and drop its key from the map. */
  ghost function Drop<E>(s: State<E>): (t: State<E>)
    requires WellFormed(s) && s.hand.Some? && s.ll != []
    ensures WellFormed(t) && t.hand.Some? && t.cap == s.cap && t.grace == s.grace
    ensures t.cache == s.cache - {s.ent[s.hand.value].key}
    ensures |t.ll| == if s.hand.value in s.ll then |s.ll| - 1 else |s.ll|
    ensures t.ll != [] && (s.hand.value in s.ll ==> |s.ll| >= 2) ==> HandLinked(t)
  {
    var h := s.hand.value;
    var next := Advance(s.ll, h);
    var ll := Without(s.ll, h);
    WithoutElems(s.ll, h);
    s.(ll := ll, cache := s.cache - {s.ent[h].key}, hand := next, ent := Keep(s.ent, Scope(ll, next)))
  }

  /** The eviction loop, from a hand that is set. */
  ghost function Loop<E>(s: State<E>): (t: State<E>)
    requires WellFormed(s) && s.hand.Some? && s.ll != []
    ensures WellFormed(t) && t.cap == s.cap && t.grace == s.grace && |t.ll| <= s.cap
    ensures t.hand.Some?
    decreases |s.ll|, if HandLinked(s) then 0 else 1, VisitedSet(s)
  {
    if s.ent[s.hand.value].visited then
      Loop(Spare(s))
    else
      var t := Drop(s);
      if |t.ll| <= s.cap then t else Loop(t)
  }

  /** How often the loop body runs. */
  ghost function LoopSteps<E>(s: State<E>): (n: nat)
    requires WellFormed(s) && s.hand.Some? && s.ll != []
    decreases |s.ll|, if HandLinked(s) then 0 else 1, VisitedSet(s)
  {
    if s.ent[s.hand.value].visited then
      1 + LoopSteps(Spare(s))
    else
      var t := Drop(s);
      if |t.ll| <= s.cap then 1 else 1 + LoopSteps(t)
  }

  /** One turn of the loop. */
  lemma LoopTurn<E>(s: State<E>)
    requires WellFormed(s) && s.hand.Some? && s.ll != []
    ensures s.ent[s.hand.value].visited ==> Loop(s) == Loop(Spare(s)) && LoopSteps(s) == 1 + LoopSteps(Spare(s))
    ensures !s.ent[s.hand.value].visited && |Drop(s).ll| <= s.cap ==> Loop(s) == Drop(s) && LoopSteps(s) == 1
    ensures !s.ent[s.hand.value].visited && |Drop(s).ll| > s.cap ==>
              Loop(s) == Loop(Drop(s)) && LoopSteps(s) == 1 + LoopSteps(Drop(s))
  {
  }

  ghost function PlaceHand<E>(s: State<E>): (t: State<E>)
    requires WellFormed(s) && s.ll != []
    ensures WellFormed(t) && t.hand.Some? && (HandLinked(s) ==> HandLinked(t))
  {
    if s.hand.None? then s.(hand := Some(s.ll[|s.ll| - 1])) else s
  }

  ghost function EvictOne<E>(s: State<E>): (t: State<E>)
    requires WellFormed(s)
    ensures WellFormed(t) && t.cap == s.cap && t.grace == s.grace && |t.ll| <= s.cap
  {
    if s.ll == [] then s else Loop(PlaceHand(s))
  }

  // ---------- Operations ----------

  ghost function Empty<E>(cap: nat, grace: Duration): (s: State<E>)
    requires cap >= 1
    ensures Strong(s)
  {
    State(cap, grace, [], map[], None, map[])
  }

  /** Unlink a listed element and drop its key; the hand stays where it is. */
  ghost function Remove<E>(s: State<E>, e: E): (t: State<E>)
    requires WellFormed(s) && e in s.ll
    ensures WellFormed(t)
  {
    WithoutElems(s.ll, e);
    var ll := Without(s.ll, e);
    s.(ll := ll, cache := s.cache - {s.ent[e].key}, ent := Keep(s.ent, Scope(ll, s.hand)))
  }

  ghost function MakeEntry(k: Key, msg: Msg, ttl: Duration, storedTTL: Duration, authTTL: Duration,
                           now: Time, grace: Duration): Entry
  {
    Entry(k, msg, now + ttl + Min(ttl, grace), now + ttl,
          if storedTTL <= 0 then ttl else storedTTL, authTTL, true)
  }

  ghost function PushFront<E>(s: State<E>, e: E, d: Entry): (t: State<E>)
    requires WellFormed(s) && e !in s.ent
    ensures WellFormed(t)
  {
    s.(ll := [e] + s.ll, cache := s.cache[d.key := e], ent := s.ent[e := d])
  }

  /** Insert a new element at the front, and evict if that is one too many. */
  ghost function Insert<E>(s: State<E>, e: E, d: Entry): (t: State<E>)
    requires Weak(s) && e !in s.ent
    ensures WellFormed(t) && |t.ll| <= t.cap && t.cap == s.cap && t.grace == s.grace
  {
    if |s.ll| == s.cap then EvictOne(PushFront(s, e, d)) else PushFront(s, e, d)
  }

  /** SetWithStoredTTL: update in place, or insert a new element at the front and evict down to capacity. */
  ghost function Put<E>(s: State<E>, e: E, k: Key, msg: Option<Msg>, ttl: Duration,
                        storedTTL: Duration, authTTL: Duration, now: Time): (t: State<E>)
    requires Weak(s) && (k !in s.cache ==> e !in s.ent)
    ensures WellFormed(t) && |t.ll| <= t.cap && t.cap == s.cap && t.grace == s.grace
  {
    if msg.None? || ttl <= 0 then s
    else
      var d := MakeEntry(k, msg.value, ttl, storedTTL, authTTL, now, s.grace);
      if k in s.cache then
        s.(ent := s.ent[s.cache[k] := d])
      else
        Insert(s, e, d)
  }

  lemma PutCases<E>(s: State<E>, e: E, k: Key, msg: Option<Msg>, ttl: Duration,
                    storedTTL: Duration, authTTL: Duration, now: Time, d: Entry)
    requires Weak(s) && (k !in s.cache ==> e !in s.ent) && msg.Some? && ttl > 0
    requires d == MakeEntry(k, msg.value, ttl, storedTTL, authTTL, now, s.grace)
    ensures k in s.cache ==>
              Put(s, e, k, msg, ttl, storedTTL, authTTL, now) == s.(ent := s.ent[s.cache[k] := d])
    ensures k !in s.cache ==> Put(s, e, k, msg, ttl, storedTTL, authTTL, now) == Insert(s, e, d)
  {
  }

  datatype Hit = Hit(msg: Msg, remaining: Duration, storedTTL: Duration, authTTL: Duration)

  /** What Get returns. */
  ghost function Lookup<E>(s: State<E>, k: Key, now: Time): Option<Hit>
    requires Weak(s)
  {
    if k !in s.cache then None
    else
      var d := s.ent[s.cache[k]];
      if now > d.expiry then None
      else Some(Hit(d.msg, if d.softExpiry < now then 0 else d.softExpiry - now, d.storedTTL, d.authTTL))
  }

  /** The part of Get that takes the write lock: it reads the map again, but not the clock. */
  ghost function DropExpired<E>(s: State<E>, k: Key, now: Time): (t: State<E>)
    requires Weak(s)
    ensures WellFormed(t)
  {
    if k in s.cache && now > s.ent[s.cache[k]].expiry then Remove(s, s.cache[k]) else s
  }

  ghost function Touch<E>(s: State<E>, k: Key, now: Time): (t: State<E>)
    requires Weak(s)
    ensures WellFormed(t)
  {
    if k in s.cache && now <= s.ent[s.cache[k]].expiry then
      s.(ent := s.ent[s.cache[k] := s.ent[s.cache[k]].(visited := true)])
    else s
  }

  ghost function Get<E>(s: State<E>, k: Key, now: Time): (t: State<E>)
    requires Weak(s)
    ensures WellFormed(t)
  {
    if Lookup(s, k, now).Some? then Touch(s, k, now) else DropExpired(s, k, now)
  }

  ghost function Delete<E>(s: State<E>, k: Key): (t: State<E>)
    requires Weak(s)
    ensures WellFormed(t)
  {
    if k in s.cache then Remove(s, s.cache[k]) else s
  }

  ghost function Clear<E>(s: State<E>): (t: State<E>)
    requires WellFormed(s)
    ensures Strong(t)
  {
    Empty(s.cap, s.grace)
  }

  ghost function Unexpired<E>(ll: seq<E>, ent: map<E, Entry>, now: Time): (r: seq<E>)
    requires forall e <- ll :: e in ent
    ensures forall e <- r :: e in ll
    ensures forall e <- ll :: e in r <==> now <= ent[e].expiry
    ensures |r| <= |ll|
  {
    if ll == [] then []
    else if now <= ent[ll[0]].expiry then [ll[0]] + Unexpired(ll[1..], ent, now)
    else Unexpired(ll[1..], ent, now)
  }

  lemma UnexpiredDistinct<E>(ll: seq<E>, ent: map<E, Entry>, now: Time)
    requires forall e <- ll :: e in ent
    requires Distinct(ll)
    ensures Distinct(Unexpired(ll, ent, now))
  {
    if ll != [] {
      UnexpiredDistinct(ll[1..], ent, now);
    }
  }

  /** CleanExpired: unlink every expired element, and drop the key of each. */
  ghost function Clean<E>(s: State<E>, now: Time): (t: State<E>)
    requires WellFormed(s)
    ensures WellFormed(t)
  {
    UnexpiredDistinct(s.ll, s.ent, now);
    var ll := Unexpired(s.ll, s.ent, now);
    s.(ll := ll,
       cache := s.cache - (set e | e in s.ll && now > s.ent[e].expiry :: s.ent[e].key),
       ent := Keep(s.ent, Scope(ll, s.hand)))
  }

  // ---------- The sweep of CleanExpired, front to back ----------

  ghost function ExpiredKeys<E>(ll: seq<E>, ent: map<E, Entry>, now: Time): set<Key>
    requires forall e <- ll :: e in ent
  {
    set e | e in ll && now > ent[e].expiry :: ent[e].key
  }

  lemma IndexOfMiddle<E>(a: seq<E>, e: E, b: seq<E>)
    requires e !in a
    ensures e in a + [e] + b && IndexOf(a + [e] + b, e) == |a|
  {
    if a != [] {
      assert (a + [e] + b)[1..] == a[1..] + [e] + b;
      IndexOfMiddle(a[1..], e, b);
    } else {
      assert (a + [e] + b)[0] == e;
    }
  }

  lemma WithoutMiddle<E>(a: seq<E>, e: E, b: seq<E>)
    requires e !in a
    ensures Without(a + [e] + b, e) == a + b
  {
    var w := a + [e] + b;
    IndexOfMiddle(a, e, b);
    assert w[..|a|] == a && w[|a| + 1..] == b;
  }

  /** The element at the head of `todo`: where it is on the list, what follows it, and the list without it. */
  lemma SweepHead<E>(kept: seq<E>, todo: seq<E>)
    requires Distinct(kept + todo) && todo != []
    ensures var ll := kept + todo; var e := todo[0];
            && e in ll && IndexOf(ll, e) == |kept|
            && (if |kept| + 1 < |ll| then todo[1..] != [] && ll[|kept| + 1] == todo[1..][0] else todo[1..] == [])
            && Without(ll, e) == kept + todo[1..]
            && (kept + [e]) + todo[1..] == ll
  {
    var e := todo[0];
    assert kept + todo == kept + [e] + todo[1..];
    forall i | 0 <= i < |kept| ensures kept[i] != e {
      assert (kept + todo)[i] == kept[i] && (kept + todo)[|kept|] == e;
    }
    IndexOfMiddle(kept, e, todo[1..]);
    WithoutMiddle(kept, e, todo[1..]);
  }

  /** The sweep has kept `kept` and still has to look at `todo`. */
  ghost predicate Sweeping<E>(s: State<E>, now: Time, kept: seq<E>, todo: seq<E>, cache: map<Key, E>)
    requires WellFormed(s)
  {
    && (forall e <- todo :: e in s.ent)
    && kept + Unexpired(todo, s.ent, now) == Unexpired(s.ll, s.ent, now)
    && cache - ExpiredKeys(todo, s.ent, now) == s.cache - ExpiredKeys(s.ll, s.ent, now)
  }

  lemma SweepKeeps<E>(s: State<E>, now: Time, kept: seq<E>, todo: seq<E>, cache: map<Key, E>)
    requires WellFormed(s) && todo != [] && Sweeping(s, now, kept, todo, cache) && now <= s.ent[todo[0]].expiry
    ensures Sweeping(s, now, kept + [todo[0]], todo[1..], cache)
  {
    assert todo == [todo[0]] + todo[1..];
    assert ExpiredKeys(todo, s.ent, now) == ExpiredKeys(todo[1..], s.ent, now);
    var u := Unexpired(todo[1..], s.ent, now);
    assert kept + ([todo[0]] + u) == (kept + [todo[0]]) + u;
  }

  lemma SweepRemoves<E>(s: State<E>, now: Time, kept: seq<E>, todo: seq<E>, cache: map<Key, E>)
    requires WellFormed(s) && todo != [] && Sweeping(s, now, kept, todo, cache) && now > s.ent[todo[0]].expiry
    ensures Sweeping(s, now, kept, todo[1..], cache - {s.ent[todo[0]].key})
  {
    assert todo == [todo[0]] + todo[1..];
    assert ExpiredKeys(todo, s.ent, now) == {s.ent[todo[0]].key} + ExpiredKeys(todo[1..], s.ent, now);
  }

  lemma SweepStarts<E>(s: State<E>, now: Time)
    requires WellFormed(s)
    ensures Sweeping(s, now, [], s.ll, s.cache)
  {
  }

  lemma SweepEnds<E>(s: State<E>, now: Time, kept: seq<E>, cache: map<Key, E>)
    requires WellFormed(s) && Sweeping(s, now, kept, [], cache)
    ensures kept == Clean(s, now).ll && cache == Clean(s, now).cache
  {
    assert ExpiredKeys([], s.ent, now) == {};
  }
}
