/** The blocklist decision. A name is taken as already normalised: lower case, without the final dot. */
module Blocklist {
  import opened Types
  import opened Bloom

  // ---------- Suffixes ----------

  /** Position `k` of the name begins a label: the whole name, or what follows a dot. */
  ghost predicate LabelStart(name: string, k: nat) {
    k <= |name| && (k == 0 || name[k - 1] == '.')
  }

  /** Some suffix of the name that begins at a label is in the set. */
  ghost predicate Listed(domains: set<string>, name: string) {
    exists k :: 0 <= k <= |name| && LabelStart(name, k) && name[k..] in domains
  }

  /** A name is listed exactly if it is in the set or ends in a dot and a name of the set. */
  lemma ListedIff(domains: set<string>, name: string)
    ensures Listed(domains, name) <==>
              name in domains || exists d <- domains, prefix: string :: name == prefix + "." + d
  {
    assert name[0..] == name;
    if Listed(domains, name) {
      var k :| 0 <= k <= |name| && LabelStart(name, k) && name[k..] in domains;
      assert k > 0 ==> name == name[..k - 1] + "." + name[k..];
    }
    if d, prefix :| d in domains && name == prefix + "." + d {
      assert name[|prefix| + 1..] == d && LabelStart(name, |prefix| + 1);
    }
  }

  /** Listing a domain lists every subdomain of it, and of the names below. */
  lemma SubdomainListed(domains: set<string>, name: string, prefix: string)
    requires Listed(domains, name)
    ensures Listed(domains, prefix + "." + name)
  {
    var k :| 0 <= k <= |name| && LabelStart(name, k) && name[k..] in domains;
    var sub := prefix + "." + name;
    var j := |prefix| + 1 + k;
    assert sub[j..] == name[k..];
    assert sub[j - 1] == if k == 0 then '.' else name[k - 1];
  }

  /** The index of the first dot from `from` on, or None. */
  method NextDot(name: string, from: nat) returns (dot: Option<nat>)
    requires from <= |name|
    ensures dot.None? ==> forall k :: from <= k < |name| ==> name[k] != '.'
    ensures dot.Some? ==> from <= dot.value < |name| && name[dot.value] == '.'
                          && forall k :: from <= k < dot.value ==> name[k] != '.'
  {
    for i := from to |name|
      invariant forall k :: from <= k < i ==> name[k] != '.'
    {
      if name[i] == '.' { return Some(i); }
    }
    dot := None;
  }

  /** Exact match, with parent domains. */
  method DomainMatchExact(domains: set<string>, name: string) returns (r: bool)
    ensures r <==> Listed(domains, name)
  {
    if domains == {} { return false; }
    var pos := 0;
    while true
      invariant LabelStart(name, pos)
      invariant forall k :: 0 <= k < pos && LabelStart(name, k) ==> name[k..] !in domains
      decreases |name| - pos
    {
      if name[pos..] in domains { return true; }
      var dot := NextDot(name, pos);
      if dot.None? {
        forall k | pos < k <= |name| ensures !LabelStart(name, k) {
          assert name[k - 1] != '.';
        }
        return false;
      }
      forall k | pos < k <= dot.value ensures !LabelStart(name, k) {
        assert name[k - 1] != '.';
      }
      pos := dot.value + 1;
    }
  }

  // ---------- Matchers ----------

  /** Exact domains, and patterns that are opaque here. */
  datatype Matcher = Matcher(exact: set<string>, regex: seq<string -> bool>)

  ghost predicate Matches(matcher: Option<Matcher>, name: string) {
    && matcher.Some?
    && (|| Listed(matcher.value.exact, name)
        || exists i :: 0 <= i < |matcher.value.regex| && matcher.value.regex[i](name))
  }

  method DomainMatch(matcher: Option<Matcher>, name: string) returns (r: bool)
    ensures r <==> Matches(matcher, name)
  {
    if matcher.None? { return false; }
    var exact := DomainMatchExact(matcher.value.exact, name);
    if exact { return true; }
    for i := 0 to |matcher.value.regex|
      invariant forall j :: 0 <= j < i ==> !matcher.value.regex[j](name)
    {
      if matcher.value.regex[i](name) { return true; }
    }
    r := false;
  }

  // ---------- Schedules ----------

  /** One reading of the clock: the instant, and the local weekday and minute of the day. */
  datatype Clock = Clock(now: Time, weekday: nat, minute: nat)

  /** A daily window in minutes, on some weekdays or on all. */
  datatype Window = Window(start: int, end: int, days: Option<set<nat>>)

  predicate InWindow(w: Window, c: Clock) {
    (w.days.Some? ==> c.weekday in w.days.value) && w.start <= c.minute < w.end
  }

  /** A window has a minute for each of those from its start to before its end, on a day that it has. */
  lemma {:induction false} WindowMinutes(w: Window, c: Clock) returns (minutes: set<nat>)
    requires 0 <= w.start <= w.end
    ensures forall m :: m in minutes <==> InWindow(w, c.(minute := m))
    ensures |minutes| == if w.days == None || c.weekday in w.days.value then w.end - w.start else 0
    ensures minutes != {} ==> w.start in minutes && w.end !in minutes
    decreases w.end
  {
    minutes := {};
    if w.start < w.end && (w.days == None || c.weekday in w.days.value) {
      minutes := WindowMinutes(w.(end := w.end - 1), c);
      minutes := minutes + {w.end - 1};
    }
  }

  datatype Pause = Pause(paused: bool, until: Time)

  datatype FamilyTime = FamilyTime(window: Window, domains: Matcher)

  predicate PausedNow(pause: Option<Pause>, schedule: Option<Window>, c: Clock) {
    || (pause.Some? && pause.value.paused && c.now < pause.value.until)
    || (schedule.Some? && InWindow(schedule.value, c))
  }

  /** The decision, with no Bloom filter in sight. */
  ghost predicate Blocked(name: string, blocked: set<string>, allow: Option<Matcher>, deny: Option<Matcher>,
                          family: Option<FamilyTime>, paused: bool, c: Clock)
  {
    && name != ""
    && (|| (family.Some? && InWindow(family.value.window, c) && Matches(Some(family.value.domains), name))
        || (!paused && !Matches(allow, name) && (Matches(deny, name) || Listed(blocked, name))))
  }

  /** What goes before what: family time before a pause, a pause before the lists, the allow list before the deny list
      and the blocklist. */
  lemma Precedence(name: string, blocked: set<string>, allow: Option<Matcher>, deny: Option<Matcher>,
                   family: Option<FamilyTime>, paused: bool, c: Clock)
    requires name != ""
    ensures var r := Blocked(name, blocked, allow, deny, family, paused, c);
            var watched := family.Some? && InWindow(family.value.window, c)
                           && Matches(Some(family.value.domains), name);
            && (watched ==> r)
            && (!watched && paused ==> !r)
            && (!watched && !paused && Matches(allow, name) ==> !r)
            && (!watched && !paused && !Matches(allow, name) && Matches(deny, name) ==> r)
            && (!watched && !paused && !Matches(allow, name) && !Matches(deny, name) ==> (r <==> Listed(blocked, name)))
  {
  }

  // ---------- The manager ----------

  /** What fetching one source gave. */
  datatype Source = NoUrl | FetchFailed | Fetched(domains: set<string>)

  ghost function AllDomains(sources: seq<Source>): set<string> {
    if sources == [] then {}
    else AllDomains(sources[..|sources| - 1]) +
         match sources[|sources| - 1]
         case Fetched(domains) => domains
         case _ => {}
  }

  ghost function Failures(sources: seq<Source>): nat {
    if sources == [] then 0
    else Failures(sources[..|sources| - 1]) + if sources[|sources| - 1].FetchFailed? then 1 else 0
  }

  /** LoadOnce gives up: a source failed and that is fatal, or all of them failed. */
  ghost predicate LoadFails(sources: seq<Source>, failOnAny: bool) {
    sources != [] && ((failOnAny && exists s <- sources :: s.FetchFailed?) || Failures(sources) == |sources|)
  }

  lemma {:induction false} FailuresAre(sources: seq<Source>)
    ensures Failures(sources) <= |sources|
    ensures Failures(sources) == |sources| <==> forall s <- sources :: s == FetchFailed
  {
    if sources != [] {
      var n := |sources| - 1;
      FailuresAre(sources[..n]);
      assert sources == sources[..n] + [sources[n]];
      assert Failures(sources) == |sources| ==> Failures(sources[..n]) == n && sources[n] == FetchFailed;
      assert sources[n] in sources;
      assert forall s <- sources[..n] :: s in sources;
    }
  }

  /** A load without sources succeeds; else one failure is enough if that is fatal, and failure of all always. */
  lemma LoadFailsIff(sources: seq<Source>, failOnAny: bool)
    ensures LoadFails(sources, failOnAny) <==>
              FetchFailed in sources && (failOnAny || forall s <- sources :: s == FetchFailed)
  {
    FailuresAre(sources);
    if sources != [] && forall s <- sources :: s == FetchFailed {
      assert sources[0] in sources;
    }
  }

  /** The domains of a load are those of the sources that were fetched. */
  lemma {:induction false} DomainsAre(sources: seq<Source>, d: string)
    ensures d in AllDomains(sources) <==> exists s <- sources :: s.Fetched? && d in s.domains
  {
    if sources != [] {
      var n := |sources| - 1;
      DomainsAre(sources[..n], d);
      assert sources == sources[..n] + [sources[n]];
    }
  }

  class Manager {
    var allowMatcher: Option<Matcher>
    var denyMatcher: Option<Matcher>
    // the snapshot
    var blocked: set<string>
    var allow: Option<Matcher>
    var deny: Option<Matcher>
    var bloom: BloomFilter?
    var pauseInfo: Option<Pause>
    var schedPause: Option<Window>
    var familyTime: Option<FamilyTime>

    /** The filter contains every blocked domain. */
    ghost predicate Valid()
      reads this, if bloom == null then {} else {bloom.bits}
    {
      bloom != null ==> bloom.Valid() && forall d <- blocked :: bloom.Contains(d)
    }

    constructor (allowlist: Matcher, denylist: Matcher)
      ensures Valid() && blocked == {} && bloom == null
      ensures allow == allowMatcher == Some(allowlist) && deny == denyMatcher == Some(denylist)
      ensures pauseInfo == None && schedPause == None && familyTime == None
    {
      allowMatcher, denyMatcher := Some(allowlist), Some(denylist);
      blocked, allow, deny, bloom := {}, Some(allowlist), Some(denylist), null;
      pauseInfo, schedPause, familyTime := None, None, None;
    }

    /** Builds a snapshot from the fetched sources, or leaves the old one in place. */
    method LoadOnce(sources: seq<Source>, failOnAny: bool, bloomSize: nat, hashCount: nat,
                    hash1: string -> nat, hash2: string -> nat)
      returns (ok: bool)
      requires Valid() && 1 <= bloomSize < WORD_RANGE
      modifies this`blocked, this`allow, this`deny, this`bloom
      ensures Valid()
      ensures ok <==> !LoadFails(sources, failOnAny)
      ensures ok ==> blocked == AllDomains(sources) && allow == allowMatcher && deny == denyMatcher
      ensures ok ==> (bloom == null <==> blocked == {})
      ensures !ok ==> blocked == old(blocked) && allow == old(allow) && deny == old(deny) && bloom == old(bloom)
    {
      if sources == [] {
        blocked, allow, deny, bloom := {}, allowMatcher, denyMatcher, null;
        return true;
      }
      var found: set<string> := {};
      var failures := 0;
      for i := 0 to |sources|
        invariant found == AllDomains(sources[..i]) && failures == Failures(sources[..i])
        invariant failOnAny ==> forall s <- sources[..i] :: !s.FetchFailed?
      {
        assert sources[..i + 1][..i] == sources[..i];
        match sources[i] {
          case NoUrl =>
          case FetchFailed =>
            failures := failures + 1;
            if failOnAny {
              assert sources[i] in sources;
              return false;
            }
          case Fetched(domains) => found := found + domains;
        }
      }
      assert sources[..|sources|] == sources;
      if failures == |sources| { return false; }
      var filter := BuildFilter(found, bloomSize, hashCount, hash1, hash2);
      blocked, allow, deny, bloom := found, allowMatcher, denyMatcher, filter;
      ok := true;
    }

    /** A filter that contains every domain, or none when there are no domains. */
    method BuildFilter(domains: set<string>, bloomSize: nat, hashCount: nat, hash1: string -> nat, hash2: string -> nat)
      returns (filter: BloomFilter?)
      requires 1 <= bloomSize < WORD_RANGE
      ensures filter == null <==> domains == {}
      ensures filter != null ==>
                fresh(filter) && fresh(filter.bits) && filter.Valid() && forall d <- domains :: filter.Contains(d)
    {
      if domains == {} { return null; }
      var f := new BloomFilter(bloomSize, hashCount, hash1, hash2);
      var todo := domains;
      while todo != {}
        invariant todo <= domains && f.Valid() && fresh(f) && fresh(f.bits)
        invariant forall d <- domains :: d in todo || f.Contains(d)
      {
        var d :| d in todo;
        f.Add(d);
        todo := todo - {d};
      }
      filter := f;
    }

    method StartPause(duration: Duration, now: Time)
      requires Valid()
      modifies this`pauseInfo
      ensures Valid() && pauseInfo == Some(Pause(true, now + duration))
      ensures forall c: Clock ::
                PausedNow(pauseInfo, schedPause, c) <==> c.now < now + duration || PausedNow(None, schedPause, c)
    {
      pauseInfo := Some(Pause(true, now + duration));
    }

    method Resume()
      requires Valid()
      modifies this`pauseInfo
      ensures Valid() && pauseInfo == Some(Pause(false, 0))
      ensures forall c: Clock :: PausedNow(pauseInfo, schedPause, c) <==> PausedNow(None, schedPause, c)
    {
      pauseInfo := Some(Pause(false, 0));
    }

    /** A manual pause that has run out is taken back on the way. */
    method IsPaused(c: Clock) returns (r: bool)
      requires Valid()
      modifies this`pauseInfo
      ensures Valid()
      ensures r <==> PausedNow(old(pauseInfo), schedPause, c)
      ensures pauseInfo == if old(pauseInfo).Some? && old(pauseInfo).value.paused && c.now > old(pauseInfo).value.until
                           then Some(Pause(false, 0)) else old(pauseInfo)
    {
      if pauseInfo.Some? {
        if pauseInfo.value.paused && c.now < pauseInfo.value.until { return true; }
        if pauseInfo.value.paused && c.now > pauseInfo.value.until { Resume(); }
      }
      r := schedPause.Some? && InWindow(schedPause.value, c);
    }

    /** False means that no suffix of the name at a label is blocked. */
    method MayBeListed(name: string) returns (inBloom: bool)
      requires Valid() && bloom != null
      ensures !inBloom ==> !Listed(blocked, name)
    {
      var pos := 0;
      while true
        invariant LabelStart(name, pos)
        invariant forall k :: 0 <= k < pos && LabelStart(name, k) ==> name[k..] !in blocked
        decreases |name| - pos
      {
        var may := bloom.MayContain(name[pos..]);
        if may { return true; }
        var dot := NextDot(name, pos);
        if dot.None? {
          forall k | pos < k <= |name| ensures !LabelStart(name, k) {
            assert name[k - 1] != '.';
          }
          return false;
        }
        forall k | pos < k <= dot.value ensures !LabelStart(name, k) {
          assert name[k - 1] != '.';
        }
        pos := dot.value + 1;
      }
    }

    /** The Bloom filter changes no decision. */
    method IsBlocked(name: string, c: Clock) returns (r: bool)
      requires Valid()
      modifies this`pauseInfo
      ensures Valid()
      ensures r <==> Blocked(name, blocked, allow, deny, familyTime, PausedNow(old(pauseInfo), schedPause, c), c)
    {
      if name == "" { return false; }
      if familyTime.Some? && InWindow(familyTime.value.window, c) {
        var family := DomainMatch(Some(familyTime.value.domains), name);
        if family { return true; }
      }
      var paused := IsPaused(c);
      if paused { return false; }
      var allowed := DomainMatch(allow, name);
      if allowed { return false; }
      var denied := DomainMatch(deny, name);
      if denied { return true; }
      if bloom != null {
        var inBloom := MayBeListed(name);
        if !inBloom { return false; }
      }
      r := DomainMatchExact(blocked, name);
    }
  }
}
