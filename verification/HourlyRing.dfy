/** Request-driven refreshes of the last 24 hours, counted in a ring of 24 hourly slots. */
module HourlyRing {
  import opened Types

  const SLOTS: nat := 24

  datatype Slot = Slot(hot: nat, warm: nat)
  datatype Event = Event(hour: nat, isHot: bool)

  /** The ring as a value; `lastHour` is None before the first event. */
  datatype Ring = Ring(slots: seq<Slot>, lastHour: Option<nat>)

  const ZERO := Slot(0, 0)

  // ---------- The log the ring stands for ----------

  /** The events since the clock last went backward. */
  ghost function Recent(log: seq<Event>): seq<Event> {
    if |log| <= 1 then log
    else
      var n := |log| - 1;
      if log[n].hour < log[n - 1].hour then [log[n]] else Recent(log[..n]) + [log[n]]
  }

  /** The events of hours `lo` to `hi` that are hot, or that are warm. */
  ghost function CountIn(log: seq<Event>, lo: int, hi: int, hot: bool): nat {
    if log == [] then 0
    else
      var e := log[|log| - 1];
      CountIn(log[..|log| - 1], lo, hi, hot) + if lo <= e.hour <= hi && e.isHot == hot then 1 else 0
  }

  ghost function Tally(log: seq<Event>, h: int): Slot {
    Slot(CountIn(log, h, h, true), CountIn(log, h, h, false))
  }

  ghost predicate UpTo(log: seq<Event>, h: int) {
    forall e <- log :: e.hour <= h
  }

  /** Slot `h mod 24` holds exactly the events of hour `h`, for each of the 24 hours up to the last one. */
  ghost predicate Represents(r: Ring, log: seq<Event>) {
    && |r.slots| == SLOTS
    && match r.lastHour
       case None => log == [] && forall i :: 0 <= i < SLOTS ==> r.slots[i] == ZERO
       case Some(last) =>
         && log != [] && log[|log| - 1].hour == last && UpTo(Recent(log), last)
         && forall h :: last - 23 <= h <= last ==> r.slots[h % SLOTS] == Tally(Recent(log), h)
  }

  // ---------- Recording ----------

  /** Slot `i` belongs to one of the `n` hours after `last`. */
  ghost predicate Passed(i: nat, last: nat, n: int) {
    0 < (i - last) % SLOTS <= n
  }

  /** The slots after the clock has moved from `last` to `hour`. */
  ghost function Rotated(slots: seq<Slot>, last: nat, hour: nat): (r: seq<Slot>)
    requires |slots| == SLOTS
    ensures |r| == SLOTS
  {
    seq(SLOTS, i requires 0 <= i < SLOTS =>
      if hour < last || hour - last >= 24 || Passed(i, last, hour - last) then ZERO else slots[i])
  }

  ghost function Bump(s: Slot, isHot: bool): Slot {
    if isHot then s.(hot := s.hot + 1) else s.(warm := s.warm + 1)
  }

  ghost function Recorded(r: Ring, hour: nat, isHot: bool): (t: Ring)
    requires |r.slots| == SLOTS
    ensures |t.slots| == SLOTS
  {
    var slots := if r.lastHour.Some? then Rotated(r.slots, r.lastHour.value, hour) else r.slots;
    Ring(slots[hour % SLOTS := Bump(slots[hour % SLOTS], isHot)], Some(hour))
  }

  lemma {:induction false} CountSnoc(log: seq<Event>, e: Event, lo: int, hi: int, hot: bool)
    ensures CountIn(log + [e], lo, hi, hot)
         == CountIn(log, lo, hi, hot) + if lo <= e.hour <= hi && e.isHot == hot then 1 else 0
  {
    assert (log + [e])[..|log|] == log;
  }

  lemma CountAbove(log: seq<Event>, last: int, lo: int, hi: int, hot: bool)
    requires UpTo(log, last) && last < lo
    ensures CountIn(log, lo, hi, hot) == 0
  {
  }

  lemma RecentSnoc(log: seq<Event>, e: Event)
    ensures Recent(log + [e]) ==
            if log != [] && e.hour < log[|log| - 1].hour then [e] else Recent(log) + [e]
  {
    assert (log + [e])[..|log|] == log;
  }

  lemma RotatedAt(slots: seq<Slot>, last: nat, hour: nat, h: int)
    requires |slots| == SLOTS && last <= hour && hour - 23 <= h <= hour
    ensures Rotated(slots, last, hour)[h % SLOTS] == if h > last then ZERO else slots[h % SLOTS]
  {
    if h <= last && hour - last < 24 {
      // h lies at most 23 hours before `hour`, so its slot is not among those zeroed.
      assert (h % SLOTS - last) % SLOTS == (h - last) % SLOTS;
    } else if hour - last < 24 {
      assert (h % SLOTS - last) % SLOTS == (h - last) % SLOTS == h - last;
    }
  }

  /** Recording an event keeps the ring in step with the log, whatever the clock does. */
  lemma RecordRepresents(r: Ring, log: seq<Event>, hour: nat, isHot: bool)
    requires Represents(r, log)
    ensures Represents(Recorded(r, hour, isHot), log + [Event(hour, isHot)])
  {
    var e := Event(hour, isHot);
    var t := Recorded(r, hour, isHot);
    RecentSnoc(log, e);
    var recent := Recent(log + [e]);
    forall h | hour - 23 <= h <= hour ensures t.slots[h % SLOTS] == Tally(recent, h) {
      RecordSlot(r, log, hour, isHot, h);
    }
  }

  lemma SameSlot(h: int, hour: nat)
    requires hour - 23 <= h <= hour
    ensures h % SLOTS == hour % SLOTS <==> h == hour
  {
  }

  lemma TallySnoc(log: seq<Event>, e: Event, h: int)
    ensures Tally(log + [e], h) == if h == e.hour then Bump(Tally(log, h), e.isHot) else Tally(log, h)
  {
    CountSnoc(log, e, h, h, true);
    CountSnoc(log, e, h, h, false);
  }

  /** The events a record at `hour` keeps. */
  ghost function Kept(log: seq<Event>, hour: nat): seq<Event> {
    if log != [] && hour < log[|log| - 1].hour then [] else Recent(log)
  }

  lemma RotatedTally(r: Ring, log: seq<Event>, hour: nat, h: int)
    requires Represents(r, log) && hour - 23 <= h <= hour && r.lastHour.Some?
    ensures Rotated(r.slots, r.lastHour.value, hour)[h % SLOTS] == Tally(Kept(log, hour), h)
  {
    var last := r.lastHour.value;
    if last <= hour {
      RotatedAt(r.slots, last, hour, h);
      if h > last {
        CountAbove(Recent(log), last, h, h, true);
        CountAbove(Recent(log), last, h, h, false);
      } else {
        assert r.slots[h % SLOTS] == Tally(Recent(log), h);
      }
    }
  }

  lemma RecordSlot(r: Ring, log: seq<Event>, hour: nat, isHot: bool, h: int)
    requires Represents(r, log) && hour - 23 <= h <= hour
    ensures Recorded(r, hour, isHot).slots[h % SLOTS] == Tally(Recent(log + [Event(hour, isHot)]), h)
  {
    var e := Event(hour, isHot);
    RecentSnoc(log, e);
    assert Recent(log + [e]) == Kept(log, hour) + [e];
    TallySnoc(Kept(log, hour), e, h);
    SameSlot(h, hour);
    if r.lastHour.Some? {
      RotatedTally(r, log, hour, h);
    } else {
      assert Tally([], h) == ZERO;
    }
  }

  /** After a day without events, or when the clock went back, the new event is the only one. */
  lemma RecordStartsAfresh(r: Ring, hour: nat, isHot: bool)
    requires |r.slots| == SLOTS && r.lastHour.Some?
    requires hour < r.lastHour.value || hour >= r.lastHour.value + 24
    ensures Recorded(r, hour, isHot).lastHour == Some(hour)
    ensures forall i :: 0 <= i < SLOTS ==>
              Recorded(r, hour, isHot).slots[i] ==
              if i != hour % 24 then Slot(0, 0) else if isHot then Slot(1, 0) else Slot(0, 1)
  {
  }

  // ---------- The snapshot ----------

  ghost function Pick(s: Slot, hot: bool): nat {
    if hot then s.hot else s.warm
  }

  ghost function Sum(slots: seq<Slot>, hot: bool): nat {
    if slots == [] then 0 else Sum(slots[..|slots| - 1], hot) + Pick(slots[|slots| - 1], hot)
  }

  /** The hour of the window starting at `lo` that slot `i` stands for. */
  ghost function HourOf(lo: int, i: nat): (h: int)
    requires i < SLOTS
    ensures lo <= h <= lo + 23 && h % SLOTS == i
  {
    var h := lo + (i - lo) % SLOTS;
    assert h % SLOTS == i;
    h
  }

  /** The window's tallies, laid out as the slots are. */
  ghost function Window(log: seq<Event>, lo: int, n: nat): (r: seq<Slot>)
    requires n <= SLOTS
    ensures |r| == n
  {
    seq(n, i requires 0 <= i < n => Tally(log, HourOf(lo, i)))
  }

  lemma WindowSnoc(log: seq<Event>, e: Event, lo: int, n: nat, hot: bool)
    requires n <= SLOTS
    ensures Sum(Window(log + [e], lo, n), hot) ==
            Sum(Window(log, lo, n), hot)
            + if lo <= e.hour <= lo + 23 && e.isHot == hot && e.hour % SLOTS < n then 1 else 0
  {
    if n > 0 {
      WindowSnoc(log, e, lo, n - 1, hot);
      WindowLast(log + [e], lo, n, hot);
      WindowLast(log, lo, n, hot);
      TallySnoc(log, e, HourOf(lo, n - 1));
      if lo <= e.hour <= lo + 23 {
        SameHour(lo, n - 1, e.hour);
      }
    }
  }

  lemma WindowLast(log: seq<Event>, lo: int, n: nat, hot: bool)
    requires 0 < n <= SLOTS
    ensures Sum(Window(log, lo, n), hot) == Sum(Window(log, lo, n - 1), hot) + Pick(Tally(log, HourOf(lo, n - 1)), hot)
  {
    assert Window(log, lo, n)[..n - 1] == Window(log, lo, n - 1);
  }

  lemma SameHour(lo: int, i: nat, h: int)
    requires i < SLOTS && lo <= h <= lo + 23
    ensures h == HourOf(lo, i) <==> h % SLOTS == i
  {
  }

  lemma WindowSum(log: seq<Event>, lo: int, hot: bool)
    ensures Sum(Window(log, lo, SLOTS), hot) == CountIn(log, lo, lo + 23, hot)
  {
    if log == [] {
      ZeroSum(lo, SLOTS, hot);
    } else {
      var n := |log| - 1;
      assert log == log[..n] + [log[n]];
      WindowSum(log[..n], lo, hot);
      WindowSnoc(log[..n], log[n], lo, SLOTS, hot);
    }
  }

  lemma ZeroSum(lo: int, n: nat, hot: bool)
    requires n <= SLOTS
    ensures Sum(Window([], lo, n), hot) == 0
  {
    if n > 0 {
      ZeroSum(lo, n - 1, hot);
      WindowLast([], lo, n, hot);
    }
  }

  ghost predicate Forward(log: seq<Event>) {
    forall i, j :: 0 <= i < j < |log| ==> log[i].hour <= log[j].hour
  }

  lemma ForwardIsRecent(log: seq<Event>)
    requires Forward(log)
    ensures Recent(log) == log
  {
    if |log| > 1 {
      ForwardIsRecent(log[..|log| - 1]);
    }
  }

  lemma CountSplit(log: seq<Event>, lo: int, mid: int, hi: int, hot: bool)
    requires lo <= mid <= hi + 1
    ensures CountIn(log, lo, hi, hot) == CountIn(log, lo, mid - 1, hot) + CountIn(log, mid, hi, hot)
  {
    if log != [] {
      CountSplit(log[..|log| - 1], lo, mid, hi, hot);
    }
  }

  /** The slots' sum is the log's count over the 24 hours up to the last event. */
  lemma SnapshotIsWindow(r: Ring, log: seq<Event>, hot: bool)
    requires Represents(r, log) && r.lastHour.Some?
    ensures Sum(r.slots, hot) == CountIn(Recent(log), r.lastHour.value - 23, r.lastHour.value, hot)
  {
    var lo := r.lastHour.value - 23;
    WindowSum(Recent(log), lo, hot);
    forall i | 0 <= i < SLOTS ensures r.slots[i] == Window(Recent(log), lo, SLOTS)[i] {
      assert r.slots[HourOf(lo, i) % SLOTS] == Tally(Recent(log), HourOf(lo, i));
    }
    assert r.slots == Window(Recent(log), lo, SLOTS);
  }

  lemma ForwardSnapshot(r: Ring, log: seq<Event>, hot: bool)
    requires Represents(r, log) && r.lastHour.Some? && Forward(log)
    ensures Sum(r.slots, hot) == CountIn(log, r.lastHour.value - 23, r.lastHour.value, hot)
    ensures UpTo(log, r.lastHour.value)
  {
    SnapshotIsWindow(r, log, hot);
    ForwardIsRecent(log);
  }

  lemma WindowMovesIff(log: seq<Event>, last: int, now: int, sum: nat, hot: bool)
    requires UpTo(log, last) && last <= now && sum == CountIn(log, last - 23, last, hot)
    ensures sum == CountIn(log, now - 23, now, hot) <==> CountIn(log, last - 23, Min(last, now - 24), hot) == 0
  {
    WindowMoves(log, last, now, hot);
  }

  /** A snapshot taken at `now` is the count of the last 24 hours exactly when nothing in the ring has
      grown older than that: slots are cleared by recording, not by reading. */
  lemma SnapshotIsCurrentIff(r: Ring, log: seq<Event>, now: nat, hot: bool)
    requires Represents(r, log) && r.lastHour.Some? && Forward(log) && r.lastHour.value <= now
    ensures var last := r.lastHour.value;
            Sum(r.slots, hot) == CountIn(log, now - 23, now, hot) <==>
            CountIn(log, last - 23, Min(last, now - 24), hot) == 0
  {
    ForwardSnapshot(r, log, hot);
    WindowMovesIff(log, r.lastHour.value, now, Sum(r.slots, hot), hot);
  }

  /** Moving the window from `last` to `now` loses exactly the events at its old end. */
  lemma WindowMoves(log: seq<Event>, last: int, now: int, hot: bool)
    requires UpTo(log, last) && last <= now
    ensures CountIn(log, last - 23, last, hot)
         == CountIn(log, now - 23, now, hot) + CountIn(log, last - 23, Min(last, now - 24), hot)
  {
    if now - 24 >= last {
      CountAbove(log, last, now - 23, now, hot);
    } else {
      CountSplit(log, last - 23, now - 23, last, hot);
      CountSplit(log, now - 23, last + 1, now, hot);
      CountAbove(log, last, last + 1, now, hot);
    }
  }

  ghost function RunRing(events: seq<Event>): (r: Ring)
    ensures |r.slots| == SLOTS
  {
    if events == [] then Ring(seq(SLOTS, _ => ZERO), None)
    else Recorded(RunRing(events[..|events| - 1]), events[|events| - 1].hour, events[|events| - 1].isHot)
  }

  /** After any run of record calls the ring stands for the log of those calls. */
  lemma {:induction false} RunRepresents(events: seq<Event>)
    ensures Represents(RunRing(events), events)
  {
    if events != [] {
      var n := |events| - 1;
      RunRepresents(events[..n]);
      assert events == events[..n] + [events[n]];
      RecordRepresents(RunRing(events[..n]), events[..n], events[n].hour, events[n].isHot);
    }
  }

  // ---------- The counter object ----------

  class RequestRefreshCounts {
    const slots: array<Slot>
    var lastHour: Option<nat>

    constructor ()
      ensures slots.Length == SLOTS && fresh(slots) && Model() == RunRing([])
    {
      slots := new Slot[24](_ => ZERO);
      lastHour := None;
      new;
      assert slots[..] == seq(SLOTS, _ => ZERO);
    }

    ghost function Model(): Ring
      reads this, slots
    {
      Ring(slots[..], lastHour)
    }

    /** Zero the slots of the hours passed, or all of them after a day or when the clock went back. */
    method Rotate(last: nat, hour: nat)
      requires slots.Length == SLOTS && hour != last
      modifies slots
      ensures slots[..] == Rotated(old(slots[..]), last, hour)
    {
      var delta := hour - last;
      if delta >= 24 || delta < 0 {
        for i := 0 to 24
          invariant forall j :: 0 <= j < i ==> slots[j] == ZERO
        {
          slots[i] := ZERO;
        }
      } else {
        for i := 1 to delta + 1
          invariant forall j :: 0 <= j < SLOTS ==> slots[j] == if Passed(j, last, i - 1) then ZERO else old(slots[j])
        {
          SlotAfter(last, i);
          slots[(last + i) % 24] := ZERO;
        }
      }
    }

    method Record(isHot: bool, unixNow: nat)
      requires slots.Length == SLOTS
      modifies this, slots
      ensures Model() == Recorded(old(Model()), unixNow / 3600, isHot)
    {
      var hour := unixNow / 3600;
      var idx := hour % 24;
      if lastHour.None? || hour != lastHour.value {
        if lastHour.Some? {
          Rotate(lastHour.value, hour);
        }
        lastHour := Some(hour);
      } else {
        assert Rotated(slots[..], hour, hour) == slots[..];
      }
      slots[idx] := if isHot then slots[idx].(hot := slots[idx].hot + 1) else slots[idx].(warm := slots[idx].warm + 1);
    }

    method Snapshot24h() returns (hot: nat, warm: nat)
      requires slots.Length == SLOTS
      ensures hot == Sum(slots[..], true) && warm == Sum(slots[..], false)
    {
      hot, warm := 0, 0;
      for i := 0 to 24
        invariant hot == Sum(slots[..i], true) && warm == Sum(slots[..i], false)
      {
        assert slots[..i + 1][..i] == slots[..i];
        hot := hot + slots[i].hot;
        warm := warm + slots[i].warm;
      }
      assert slots[..24] == slots[..];
    }
  }

  lemma SlotAfter(last: nat, i: nat)
    requires 1 <= i < 24
    ensures forall j: nat :: j < SLOTS ==> (Passed(j, last, i) <==> Passed(j, last, i - 1) || j == (last + i) % SLOTS)
  {
    forall j: nat | j < SLOTS ensures Passed(j, last, i) <==> Passed(j, last, i - 1) || j == (last + i) % SLOTS {
      OneSlotAfter(last, i, j);
    }
  }

  lemma OneSlotAfter(last: nat, i: nat, j: nat)
    requires 1 <= i < 24 && j < SLOTS
    ensures (j - last) % SLOTS == i <==> j == (last + i) % SLOTS
  {
  }
}
