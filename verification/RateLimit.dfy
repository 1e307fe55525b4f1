/** The per-key sliding rate limit: internal/kaapi/ratelimit.go.

    `Allow` keeps only the hits inside the window. It is compared with a limiter that remembers every
    allowed hit. */
module RateLimit {
  import opened Octets

  type Hits = map<Bytes, seq<int>>

  function Get(m: Hits, key: Bytes): seq<int> {
    if key in m then m[key] else []
  }

  /** The times strictly after cut, in order. */
  function After(times: seq<int>, cut: int): (r: seq<int>)
    ensures |r| <= |times|
  {
    if times == [] then []
    else
      var last := times[|times| - 1];
      var rest := After(times[..|times| - 1], cut);
      if last > cut then rest + [last] else rest
  }

  function AllowSpec(hits: Hits, limit: int, window: int, key: Bytes, now: int): (Hits, bool) {
    var live := After(Get(hits, key), now - window);
    if |live| >= limit then (hits[key := live], false)
    else (hits[key := live + [now]], true)
  }

  class RateLimiter {
    var hits: Hits
    var limit: int
    var window: int

    constructor (limit: int, window: int)
      ensures hits == map[]
      ensures this.limit == if limit <= 0 then 30 else limit
      ensures this.window == if window <= 0 then 60_000_000_000 else window
    {
      this.limit := if limit <= 0 then 30 else limit;
      this.window := if window <= 0 then 60_000_000_000 else window;
      hits := map[];
    }

    /** Compacts the slice in place behind a write index, then decides. */
    method Allow(key: Bytes, now: int) returns (ok: bool)
      modifies `hits
      ensures (hits, ok) == AllowSpec(old(hits), limit, window, key, now)
    {
      var cut := now - window;
      var arr := Get(hits, key);
      ghost var all := arr;
      var n, i := 0, 0;
      while i < |arr|
        invariant 0 <= n <= i <= |arr| == |all|
        invariant arr[..n] == After(all[..i], cut)
        invariant forall k :: i <= k < |all| ==> arr[k] == all[k]
      {
        assert all[..i + 1][..i] == all[..i];
        if arr[i] > cut {
          ghost var kept := arr[..n];
          var t := arr[i];
          arr := arr[n := t];
          n := n + 1;
          assert arr[..n] == kept + [t];
        }
        i := i + 1;
      }
      assert all[..i] == all;
      arr := arr[..n];
      if |arr| >= limit {
        hits := hits[key := arr];
        return false;
      }
      hits := hits[key := arr + [now]];
      return true;
    }
  }

  // ------------------------------------------------------------------ runs against full history

  datatype Event = Event(key: Bytes, now: int)

  /** The pruned table beside the complete log of allowed hits. */
  datatype State = State(hits: Hits, log: Hits)

  function Step(s: State, limit: int, window: int, e: Event): State {
    var (hits', ok) := AllowSpec(s.hits, limit, window, e.key, e.now);
    State(hits', if ok then s.log[e.key := Get(s.log, e.key) + [e.now]] else s.log)
  }

  function Run(limit: int, window: int, events: seq<Event>): State {
    if events == [] then State(map[], map[])
    else Step(Run(limit, window, events[..|events| - 1]), limit, window, events[|events| - 1])
  }

  /** The decision a limiter with full memory would make. */
  predicate FullHistoryAllows(log: Hits, limit: int, window: int, e: Event) {
    |After(Get(log, e.key), e.now - window)| < limit
  }

  ghost predicate Ordered(events: seq<Event>) {
    forall i, j :: 0 <= i < j < |events| ==> events[i].now <= events[j].now
  }

  /** The number of times in (lo, hi]. */
  function CountIn(times: seq<int>, lo: int, hi: int): nat {
    if times == [] then 0
    else
      var last := times[|times| - 1];
      CountIn(times[..|times| - 1], lo, hi) + if lo < last <= hi then 1 else 0
  }

  lemma {:induction false} AfterTwice(times: seq<int>, c: int, cut: int)
    requires c <= cut
    ensures After(After(times, c), cut) == After(times, cut)
  {
    if times != [] {
      var front, last := times[..|times| - 1], times[|times| - 1];
      AfterTwice(front, c, cut);
      AfterSnoc(After(front, c), last, cut);
    }
  }

  lemma AfterSnoc(times: seq<int>, t: int, cut: int)
    ensures After(times + [t], cut) == if t > cut then After(times, cut) + [t] else After(times, cut)
  {
    assert (times + [t])[..|times|] == times;
  }

  lemma CountSnoc(times: seq<int>, t: int, lo: int, hi: int)
    ensures CountIn(times + [t], lo, hi) == CountIn(times, lo, hi) + if lo < t <= hi then 1 else 0
  {
    assert (times + [t])[..|times|] == times;
  }

  /** Counting up to or beyond a moment that no logged time exceeds counts no more than what is after lo. */
  lemma {:induction false} CountAtMostAfter(times: seq<int>, lo: int, lo': int, hi: int)
    requires lo' <= lo
    ensures CountIn(times, lo, hi) <= |After(times, lo')|
  {
    if times != [] {
      CountAtMostAfter(times[..|times| - 1], lo, lo', hi);
    }
  }

  function Recent(times: seq<int>, window: int, t: int): nat {
    CountIn(times, t - window, t)
  }

  /** For every cut from lo on, the pruned list and the log say the same. */
  ghost predicate SameFuture(live: seq<int>, log: seq<int>, lo: int) {
    forall cut :: cut >= lo ==> After(live, cut) == After(log, cut)
  }

  ghost predicate Limited(log: seq<int>, limit: int, window: int) {
    forall t :: Recent(log, window, t) <= limit
  }

  lemma PruneKeepsFuture(live: seq<int>, log: seq<int>, lo: int, cut0: int)
    requires lo <= cut0 && SameFuture(live, log, lo)
    ensures SameFuture(After(live, cut0), log, cut0)
  {
    forall cut | cut >= cut0
      ensures After(After(live, cut0), cut) == After(log, cut)
    {
      AfterTwice(live, cut0, cut);
    }
  }

  lemma RecordKeepsFuture(live: seq<int>, log: seq<int>, lo: int, now: int)
    requires SameFuture(live, log, lo)
    ensures SameFuture(live + [now], log + [now], lo)
  {
    forall cut | cut >= lo
      ensures After(live + [now], cut) == After(log + [now], cut)
    {
      AfterSnoc(live, now, cut);
      AfterSnoc(log, now, cut);
    }
  }

  lemma RecordKeepsLimit(log: seq<int>, limit: int, window: int, now: int)
    requires Limited(log, limit, window) && |After(log, now - window)| < limit
    ensures Limited(log + [now], limit, window)
  {
    forall t
      ensures Recent(log + [now], window, t) <= limit
    {
      assert Recent(log, window, t) <= limit;
      CountSnoc(log, now, t - window, t);
      if now <= t {
        CountAtMostAfter(log, t - window, now - window, t);
      }
    }
  }

  /** The invariant of one key's entries, kept by every event with a later stamp. */
  ghost predicate Tracks(s: State, limit: int, window: int, key: Bytes, now: int) {
    SameFuture(Get(s.hits, key), Get(s.log, key), now - window) && Limited(Get(s.log, key), limit, window)
  }

  lemma StepEffect(s: State, limit: int, window: int, key: Bytes, e: Event)
    ensures
      var s' := Step(s, limit, window, e);
      var live, log := Get(s.hits, key), Get(s.log, key);
      var kept := After(live, e.now - window);
      if key != e.key then Get(s'.hits, key) == live && Get(s'.log, key) == log
      else if |kept| >= limit then Get(s'.hits, key) == kept && Get(s'.log, key) == log
      else Get(s'.hits, key) == kept + [e.now] && Get(s'.log, key) == log + [e.now]
  {
  }

  lemma StepKeeps(s: State, limit: int, window: int, key: Bytes, now: int, e: Event)
    requires now <= e.now && Tracks(s, limit, window, key, now)
    ensures Tracks(Step(s, limit, window, e), limit, window, key, e.now)
  {
    hide Step, Get, After, CountIn, Recent;
    var live, log, cut := Get(s.hits, key), Get(s.log, key), e.now - window;
    StepEffect(s, limit, window, key, e);
    if key == e.key {
      PruneKeepsFuture(live, log, now - window, cut);
      if |After(live, cut)| < limit {
        assert After(live, cut) == After(log, cut);
        RecordKeepsFuture(After(live, cut), log, cut, e.now);
        RecordKeepsLimit(log, limit, window, e.now);
      }
    }
  }

  lemma {:induction false} RunKeeps(limit: int, window: int, events: seq<Event>, key: Bytes, now: int)
    requires limit > 0 && Ordered(events)
    requires events != [] ==> events[|events| - 1].now <= now
    ensures Tracks(Run(limit, window, events), limit, window, key, now)
  {
    if events != [] {
      var front, last := events[..|events| - 1], events[|events| - 1];
      assert forall i :: 0 <= i < |front| ==> front[i] == events[i];
      RunKeeps(limit, window, front, key, last.now);
      StepKeeps(Run(limit, window, front), limit, window, key, last.now, last);
    } else {
      assert Get(map[], key) == [];
      assert forall t :: Recent([], window, t) == 0;
    }
  }

  /** With a clock that never runs backwards, forgetting changes no decision. */
  lemma PrunedDecidesLikeFullHistory(limit: int, window: int, events: seq<Event>, e: Event)
    requires limit > 0 && Ordered(events + [e])
    ensures
      var s := Run(limit, window, events);
      AllowSpec(s.hits, limit, window, e.key, e.now).1 <==> FullHistoryAllows(s.log, limit, window, e)
  {
    var all := events + [e];
    assert forall i :: 0 <= i < |events| ==> events[i] == all[i];
    assert all[|events|] == e;
    RunKeeps(limit, window, events, e.key, e.now);
  }

  /** For every key, no interval (t - window, t] ever holds more than `limit` allowed hits. */
  lemma NoWindowExceedsLimit(limit: int, window: int, events: seq<Event>, key: Bytes, t: int)
    requires limit > 0 && Ordered(events)
    ensures CountIn(Get(Run(limit, window, events).log, key), t - window, t) <= limit
  {
    RunKeeps(limit, window, events, key, if events == [] then 0 else events[|events| - 1].now);
    assert Recent(Get(Run(limit, window, events).log, key), window, t) <= limit;
  }

  // ------------------------------------------------------------------ stamps in any order
  //
  // The source stamps a hit under its lock with a monotonic reading, so its events are `Ordered`. What pruning
  // would do to other stamps is settled here, and shows what the order is needed for.

  /** Event i was allowed. */
  predicate Allowed(limit: int, window: int, events: seq<Event>, i: nat)
    requires i < |events|
  {
    AllowSpec(Run(limit, window, events[..i]).hits, limit, window, events[i].key, events[i].now).1
  }

  /** The hit of event i lies after cut, but event j of the same key had already dropped it. */
  predicate Dropped(limit: int, window: int, events: seq<Event>, key: Bytes, cut: int, i: nat, j: nat) {
    && i < j < |events| && events[i].key == key == events[j].key && Allowed(limit, window, events, i)
    && cut < events[i].now <= events[j].now - window
  }

  ghost predicate NothingDropped(limit: int, window: int, events: seq<Event>, key: Bytes, cut: int) {
    forall i: nat, j: nat :: !Dropped(limit, window, events, key, cut, i, j)
  }

  lemma {:induction false} AfterMembers(times: seq<int>, cut: int)
    ensures forall t :: t in After(times, cut) <==> t in times && t > cut
  {
    if times != [] {
      var front, last := times[..|times| - 1], times[|times| - 1];
      AfterMembers(front, cut);
      assert times == front + [last];
    }
  }

  /** No time in (lo, hi]. */
  ghost predicate NoneIn(times: seq<int>, lo: int, hi: int) {
    forall t :: t in times ==> !(lo < t <= hi)
  }

  lemma {:induction false} AfterSame(times: seq<int>, lo: int, hi: int)
    requires lo <= hi && NoneIn(times, lo, hi)
    ensures After(times, lo) == After(times, hi)
  {
    if times != [] {
      var front, last := times[..|times| - 1], times[|times| - 1];
      assert last in times && forall t :: t in front ==> t in times;
      AfterSame(front, lo, hi);
    }
  }

  /** A list cut at hi equals another cut at lo only if they agree after hi and the other has none between. */
  lemma CutsAgree(live: seq<int>, log: seq<int>, lo: int, hi: int)
    requires lo <= hi
    ensures After(live, hi) == After(log, lo) <==> After(live, hi) == After(log, hi) && NoneIn(log, lo, hi)
  {
    AfterMembers(live, hi);
    AfterMembers(log, lo);
    hide After;
    if NoneIn(log, lo, hi) {
      AfterSame(log, lo, hi);
    }
    if After(live, hi) == After(log, lo) {
      forall t | t in log
        ensures !(lo < t <= hi)
      {
        assert t > lo ==> t in After(log, lo);
      }
    }
  }

  lemma AllowedFront(limit: int, window: int, events: seq<Event>, e: Event, i: nat)
    requires i <= |events|
    ensures Allowed(limit, window, events + [e], i) <==>
      if i < |events| then Allowed(limit, window, events, i)
      else AllowSpec(Run(limit, window, events).hits, limit, window, e.key, e.now).1
  {
    assert (events + [e])[..i] == events[..i];
    assert i == |events| ==> events[..i] == events;
    hide Run, AllowSpec;
  }

  ghost predicate HitAt(limit: int, window: int, events: seq<Event>, key: Bytes, t: int, i: nat) {
    i < |events| && events[i].key == key && events[i].now == t && Allowed(limit, window, events, i)
  }

  /** The log holds exactly the stamps of the allowed events. */
  lemma {:induction false} LogOrigin(limit: int, window: int, events: seq<Event>, key: Bytes, t: int)
    ensures t in Get(Run(limit, window, events).log, key) <==>
      exists i: nat :: HitAt(limit, window, events, key, t, i)
  {
    if events != [] {
      var n := |events| - 1;
      var front, e := events[..n], events[n];
      assert events == front + [e];
      LogOrigin(limit, window, front, key, t);
      StepEffect(Run(limit, window, front), limit, window, key, e);
      forall i: nat | i <= n
        ensures HitAt(limit, window, events, key, t, i) <==>
          if i < n then HitAt(limit, window, front, key, t, i)
          else e.key == key && e.now == t && AllowSpec(Run(limit, window, front).hits, limit, window, e.key, e.now).1
      {
        AllowedFront(limit, window, front, e, i);
      }
      assert HitAt(limit, window, events, key, t, n) ==> exists i: nat :: HitAt(limit, window, events, key, t, i);
      hide HitAt, Get, Step, After;
    }
  }

  lemma DroppedSnoc(limit: int, window: int, events: seq<Event>, e: Event, key: Bytes, cut: int, i: nat, j: nat)
    ensures Dropped(limit, window, events + [e], key, cut, i, j) <==>
      Dropped(limit, window, events, key, cut, i, j) ||
      (i < j == |events| && e.key == key && HitAt(limit, window, events, key, events[i].now, i)
       && cut < events[i].now <= e.now - window)
  {
    if i < j <= |events| {
      AllowedFront(limit, window, events, e, i);
    }
    hide Allowed;
  }

  /** Some allowed event of the key is stamped in (lo, hi]. */
  ghost predicate HitIn(limit: int, window: int, events: seq<Event>, key: Bytes, lo: int, hi: int) {
    exists i: nat :: i < |events| && HitAt(limit, window, events, key, events[i].now, i) && lo < events[i].now <= hi
  }

  lemma HitsIn(limit: int, window: int, events: seq<Event>, key: Bytes, lo: int, hi: int)
    ensures NoneIn(Get(Run(limit, window, events).log, key), lo, hi) <==> !HitIn(limit, window, events, key, lo, hi)
  {
    var log := Get(Run(limit, window, events).log, key);
    if HitIn(limit, window, events, key, lo, hi) {
      var i: nat :| i < |events| && HitAt(limit, window, events, key, events[i].now, i) && lo < events[i].now <= hi;
      LogOrigin(limit, window, events, key, events[i].now);
      assert events[i].now in log;
    } else {
      hide Run, Get;
      forall t | t in log
        ensures !(lo < t <= hi)
      {
        LogOrigin(limit, window, events, key, t);
        var i: nat :| HitAt(limit, window, events, key, t, i);
        assert events[i].now == t;
        hide HitAt;
      }
    }
  }

  lemma NothingDroppedSnoc(limit: int, window: int, events: seq<Event>, e: Event, key: Bytes, cut: int)
    ensures NothingDropped(limit, window, events + [e], key, cut) <==>
      NothingDropped(limit, window, events, key, cut) &&
      (e.key == key ==> NoneIn(Get(Run(limit, window, events).log, key), cut, e.now - window))
  {
    var all, n := events + [e], |events|;
    HitsIn(limit, window, events, key, cut, e.now - window);
    forall i: nat, j: nat
      ensures Dropped(limit, window, all, key, cut, i, j) <==>
        Dropped(limit, window, events, key, cut, i, j) ||
        (i < j == n && e.key == key && HitAt(limit, window, events, key, events[i].now, i)
         && cut < events[i].now <= e.now - window)
    {
      DroppedSnoc(limit, window, events, e, key, cut, i, j);
    }
    hide Dropped, HitAt, Run, Get, NoneIn;
    if e.key == key && HitIn(limit, window, events, key, cut, e.now - window) {
      var i: nat :| && i < n && HitAt(limit, window, events, key, events[i].now, i)
                    && cut < events[i].now <= e.now - window;
      assert Dropped(limit, window, all, key, cut, i, n);
    }
  }

  /** What one event of the key does to the agreement after a cut. */
  lemma CutStep(live: seq<int>, log: seq<int>, c: int, cut: int, now: int)
    ensures
      var same := if c <= cut then After(live, cut) == After(log, cut)
                  else After(live, c) == After(log, c) && NoneIn(log, cut, c);
      && (After(After(live, c), cut) == After(log, cut) <==> same)
      && (After(After(live, c) + [now], cut) == After(log + [now], cut) <==> same)
  {
    AfterSnoc(After(live, c), now, cut);
    AfterSnoc(log, now, cut);
    if c <= cut {
      AfterTwice(live, c, cut);
    } else {
      AfterLow(live, c, cut);
      CutsAgree(live, log, cut, c);
    }
    hide After, NoneIn;
    var a, b := After(After(live, c), cut), After(log, cut);
    assert a + [now] == b + [now] <==> a == b by {
      if a + [now] == b + [now] {
        assert a == (a + [now])[..|a|] && b == (b + [now])[..|b|];
      }
    }
  }

  /** The pruned list and the full log of a key agree after the cut. */
  ghost predicate Agree(s: State, key: Bytes, cut: int) {
    After(Get(s.hits, key), cut) == After(Get(s.log, key), cut)
  }

  lemma AgreeStep(s: State, limit: int, window: int, e: Event, key: Bytes, cut: int)
    ensures
      var c := e.now - window;
      Agree(Step(s, limit, window, e), key, cut) <==>
        if e.key != key || c <= cut then Agree(s, key, cut)
        else Agree(s, key, c) && NoneIn(Get(s.log, key), cut, c)
  {
    hide Step, Get, After, NoneIn;
    StepEffect(s, limit, window, key, e);
    if e.key == key {
      CutStep(Get(s.hits, key), Get(s.log, key), e.now - window, cut, e.now);
    }
  }

  lemma DroppedStep(limit: int, window: int, events: seq<Event>, e: Event, key: Bytes, cut: int)
    ensures
      var c := e.now - window;
      NothingDropped(limit, window, events + [e], key, cut) <==>
        if e.key != key || c <= cut then NothingDropped(limit, window, events, key, cut)
        else NothingDropped(limit, window, events, key, c) && NoneIn(Get(Run(limit, window, events).log, key), cut, c)
  {
    hide Run, Get, NothingDropped, NoneIn;
    var log, c := Get(Run(limit, window, events).log, key), e.now - window;
    NothingDroppedSnoc(limit, window, events, e, key, cut);
    if c <= cut {
      EmptyRange(log, cut, c);
    } else if NoneIn(log, cut, c) {
      DroppedBetween(limit, window, events, key, cut, c);
    }
  }

  lemma RunSnoc(limit: int, window: int, events: seq<Event>, e: Event)
    ensures Run(limit, window, events + [e]) == Step(Run(limit, window, events), limit, window, e)
  {
    assert (events + [e])[..|events|] == events;
    hide Step;
  }

  lemma NothingYet(limit: int, window: int, key: Bytes, cut: int)
    ensures Agree(Run(limit, window, []), key, cut) && NothingDropped(limit, window, [], key, cut)
  {
  }

  /** For stamps in any order and any cut: the pruned list and the full log agree after the cut if and only
      if no allowed hit after the cut had already been dropped by a later event of its key. */
  lemma {:induction false} PruningExactIff(limit: int, window: int, events: seq<Event>, key: Bytes, cut: int)
    ensures Agree(Run(limit, window, events), key, cut) <==> NothingDropped(limit, window, events, key, cut)
  {
    hide Run, Step, Get, Agree, NothingDropped, NoneIn;
    if events == [] {
      NothingYet(limit, window, key, cut);
    } else {
      var front, e := events[..|events| - 1], events[|events| - 1];
      assert events == front + [e];
      RunSnoc(limit, window, front, e);
      AgreeStep(Run(limit, window, front), limit, window, e, key, cut);
      DroppedStep(limit, window, front, e, key, cut);
      PruningExactIff(limit, window, front, key, cut);
      PruningExactIff(limit, window, front, key, e.now - window);
    }
  }

  lemma EmptyRange(times: seq<int>, lo: int, hi: int)
    requires hi <= lo
    ensures NoneIn(times, lo, hi)
  {
  }

  lemma {:induction false} AfterLow(times: seq<int>, c: int, cut: int)
    requires cut <= c
    ensures After(After(times, c), cut) == After(times, c)
  {
    if times != [] {
      var front, last := times[..|times| - 1], times[|times| - 1];
      AfterLow(front, c, cut);
      AfterSnoc(After(front, c), last, cut);
    }
  }

  /** With no hit between the two cuts, they make no difference. */
  lemma DroppedBetween(limit: int, window: int, events: seq<Event>, key: Bytes, lo: int, hi: int)
    requires lo <= hi && NoneIn(Get(Run(limit, window, events).log, key), lo, hi)
    ensures NothingDropped(limit, window, events, key, lo) <==> NothingDropped(limit, window, events, key, hi)
  {
    forall i: nat, j: nat
      ensures Dropped(limit, window, events, key, lo, i, j) <==> Dropped(limit, window, events, key, hi, i, j)
    {
      if i < j < |events| {
        LogOrigin(limit, window, events, key, events[i].now);
        assert Dropped(limit, window, events, key, lo, i, j) ==> HitAt(limit, window, events, key, events[i].now, i);
      }
    }
  }

  /** A monotonic clock drops nothing that matters to the next event. */
  lemma OrderedDropsNothing(limit: int, window: int, events: seq<Event>, e: Event)
    requires Ordered(events + [e])
    ensures NothingDropped(limit, window, events, e.key, e.now - window)
  {
    var all := events + [e];
    assert forall j :: 0 <= j < |events| ==> events[j] == all[j];
    assert all[|events|] == e;
  }
}
