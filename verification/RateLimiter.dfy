/** The fixed-window limiter of backend/internal/auth/ratelimit.go. */
module RateLimiting {
  import opened Sets

  datatype Window = Window(count: int, resetAt: int)

  type Hits = map<string, Window>

  datatype Limits = Limits(max: int, window: int)

  datatype State = State(hits: Hits, nextSweep: int)

  /** Go's zero time is the instant 0. */
  const FRESH := State(map[], 0)

  /** Recording an attempt, as a limiter that keeps every window does it. */
  function Record(limits: Limits, hits: Hits, key: string, now: int): (Hits, bool) {
    if key !in hits || now > hits[key].resetAt then (hits[key := Window(1, now + limits.window)], true)
    else if hits[key].count >= limits.max then (hits, false)
    else (hits[key := hits[key].(count := hits[key].count + 1)], true)
  }

  function Unexpired(hits: Hits, now: int): Hits {
    map key | key in hits && now <= hits[key].resetAt :: hits[key]
  }

  function Swept(limits: Limits, s: State, now: int): State {
    if now < s.nextSweep then s else State(Unexpired(s.hits, now), now + limits.window)
  }

  function AllowStep(limits: Limits, s: State, key: string, now: int): (State, bool) {
    var swept := Swept(limits, s, now);
    var (hits, allowed) := Record(limits, swept.hits, key, now);
    (State(hits, swept.nextSweep), allowed)
  }

  class RateLimiter {
    const limits: Limits
    var hits: Hits
    var nextSweep: int

    function Snapshot(): State
      reads this
    {
      State(hits, nextSweep)
    }

    constructor (max: int, window: int)
      ensures limits == Limits(max, window) && Snapshot() == FRESH
    {
      limits := Limits(max, window);
      hits := map[];
      nextSweep := 0;
    }

    method Sweep(now: int)
      modifies this
      ensures Snapshot() == Swept(limits, old(Snapshot()), now)
    {
      if now < nextSweep {
        return;
      }
      var visited, rest := hits, hits.Keys;
      while rest != {}
        invariant rest <= visited.Keys
        invariant hits == map key | key in visited && (key in rest || now <= visited[key].resetAt) :: visited[key]
        invariant nextSweep == old(nextSweep)
        decreases |rest|
      {
        var key :| key in rest;
        if now > hits[key].resetAt {
          hits := hits - {key};
        }
        rest := rest - {key};
      }
      nextSweep := now + limits.window;
    }

    method Allow(key: string, now: int) returns (allowed: bool)
      modifies this
      ensures (Snapshot(), allowed) == AllowStep(limits, old(Snapshot()), key, now)
    {
      Sweep(now);
      if key !in hits || now > hits[key].resetAt {
        hits := hits[key := Window(1, now + limits.window)];
        return true;
      }
      var st := hits[key];
      if st.count >= limits.max {
        return false;
      }
      hits := hits[key := st.(count := st.count + 1)];
      return true;
    }

    method Reset(key: string)
      modifies this
      ensures Snapshot() == old(Snapshot()).(hits := old(hits) - {key})
    {
      hits := hits - {key};
    }
  }

  // ---- traces ----

  datatype Event = Attempt(key: string, now: int) | ResetKey(key: string)

  /** The clock does not run backwards. */
  ghost predicate Timely(events: seq<Event>) {
    forall i, k :: 0 <= i < k < |events| && events[i].Attempt? && events[k].Attempt? ==> events[i].now <= events[k].now
  }

  function StateAt(limits: Limits, events: seq<Event>, n: nat): State
    requires n <= |events|
  {
    if n == 0 then FRESH else
    var s := StateAt(limits, events, n - 1);
    match events[n - 1]
    case Attempt(key, now) => AllowStep(limits, s, key, now).0
    case ResetKey(key) => s.(hits := s.hits - {key})
  }

  function Decision(limits: Limits, events: seq<Event>, i: nat): bool
    requires i < |events|
  {
    events[i].Attempt? && AllowStep(limits, StateAt(limits, events, i), events[i].key, events[i].now).1
  }

  /** The limiter that never evicts. */
  function KeptAt(limits: Limits, events: seq<Event>, n: nat): Hits
    requires n <= |events|
  {
    if n == 0 then map[] else
    var hits := KeptAt(limits, events, n - 1);
    match events[n - 1]
    case Attempt(key, now) => Record(limits, hits, key, now).0
    case ResetKey(key) => hits - {key}
  }

  function KeptDecision(limits: Limits, events: seq<Event>, i: nat): bool
    requires i < |events|
  {
    events[i].Attempt? && Record(limits, KeptAt(limits, events, i), events[i].key, events[i].now).1
  }

  // ---- eviction is invisible ----

  /** The evicted windows have expired by `now`. */
  ghost predicate EvictedBy(hits: Hits, kept: Hits, now: int) {
    && (forall key :: key in hits ==> key in kept && hits[key] == kept[key])
    && (forall key :: key in kept && key !in hits ==> kept[key].resetAt < now)
  }

  lemma AttemptAgrees(limits: Limits, s: State, kept: Hits, key: string, now: int)
    requires EvictedBy(s.hits, kept, now)
    ensures var (s', allowed) := AllowStep(limits, s, key, now);
      var (kept', keptAllowed) := Record(limits, kept, key, now);
      allowed == keptAllowed && EvictedBy(s'.hits, kept', now)
  {
  }

  ghost predicate EvictedByAllLater(limits: Limits, events: seq<Event>, n: nat)
    requires n <= |events|
  {
    forall i :: n <= i < |events| && events[i].Attempt? ==>
      EvictedBy(StateAt(limits, events, n).hits, KeptAt(limits, events, n), events[i].now)
  }

  lemma {:induction false} EvictionHolds(limits: Limits, events: seq<Event>, n: nat)
    requires Timely(events) && n <= |events|
    ensures EvictedByAllLater(limits, events, n)
  {
    if n > 0 {
      EvictionHolds(limits, events, n - 1);
      var s, kept, e := StateAt(limits, events, n - 1), KeptAt(limits, events, n - 1), events[n - 1];
      if e.Attempt? {
        AttemptAgrees(limits, s, kept, e.key, e.now);
      }
      forall i | n <= i < |events| && events[i].Attempt?
        ensures EvictedBy(StateAt(limits, events, n).hits, KeptAt(limits, events, n), events[i].now)
      {
        assert EvictedBy(s.hits, kept, events[i].now);
      }
    }
  }

  /** On every trace with a clock that does not run backwards, the limiter that sweeps decides each
      attempt like one that never evicts. */
  lemma EvictionIsInvisible(limits: Limits, events: seq<Event>, i: nat)
    requires Timely(events) && i < |events|
    ensures Decision(limits, events, i) == KeptDecision(limits, events, i)
  {
    EvictionHolds(limits, events, i);
    if events[i].Attempt? {
      AttemptAgrees(limits, StateAt(limits, events, i), KeptAt(limits, events, i), events[i].key, events[i].now);
    }
  }

  // ---- every decision, told by the key's own attempts ----

  /** Even a limit below one lets the first attempt of a window through. */
  function Budget(limits: Limits): int {
    if limits.max < 1 then 1 else limits.max
  }

  /** When the key was attempted since its last reset, oldest first. */
  function Attempts(events: seq<Event>, n: nat, key: string): seq<int>
    requires n <= |events|
  {
    if n == 0 || events[n - 1] == ResetKey(key) then []
    else if events[n - 1].Attempt? && events[n - 1].key == key then Attempts(events, n - 1, key) + [events[n - 1].now]
    else Attempts(events, n - 1, key)
  }

  /** The attempt that began the window of the last one: a window lasts until an attempt comes more than `window`
      after its beginning. */
  function Beginning(times: seq<int>, window: int): (first: nat)
    requires times != []
    ensures first < |times|
  {
    if |times| == 1 then 0 else
    var first := Beginning(times[..|times| - 1], window);
    if times[|times| - 1] - times[first] > window then |times| - 1 else first
  }

  lemma BeginningExtends(times: seq<int>, now: int, window: int)
    requires times != []
    ensures Beginning(times + [now], window) ==
      if now - times[Beginning(times, window)] > window then |times| else Beginning(times, window)
  {
    assert (times + [now])[..|times|] == times;
  }

  /** The window is as old as its first attempt and charged for its attempts, up to the budget. */
  ghost predicate Tells(limits: Limits, times: seq<int>, hits: Hits, key: string) {
    && (key in hits <==> times != [])
    && (times != [] ==>
          var first := Beginning(times, limits.window);
          hits[key] == Window(Least(|times| - first, Budget(limits)), times[first] + limits.window))
  }

  function Least(a: int, b: int): int { if a < b then a else b }

  /** The attempt comes with fewer than a budget of others before it in its window. */
  predicate WithinBudget(limits: Limits, times: seq<int>)
    requires times != []
  {
    |times| - 1 - Beginning(times, limits.window) < Budget(limits)
  }

  lemma AttemptTells(limits: Limits, times: seq<int>, hits: Hits, key: string, now: int)
    requires Tells(limits, times, hits, key)
    ensures var (hits', allowed) := Record(limits, hits, key, now);
      Tells(limits, times + [now], hits', key) && (allowed <==> WithinBudget(limits, times + [now]))
  {
    if times != [] {
      BeginningExtends(times, now, limits.window);
    }
  }

  lemma OthersTell(limits: Limits, times: seq<int>, hits: Hits, key: string, other: string, now: int)
    requires Tells(limits, times, hits, key) && other != key
    ensures Tells(limits, times, Record(limits, hits, other, now).0, key)
  {
  }

  lemma {:induction false} AttemptsTell(limits: Limits, events: seq<Event>, n: nat, key: string)
    requires n <= |events|
    ensures Tells(limits, Attempts(events, n, key), KeptAt(limits, events, n), key)
  {
    if n > 0 {
      var times, hits := Attempts(events, n - 1, key), KeptAt(limits, events, n - 1);
      AttemptsTell(limits, events, n - 1, key);
      match events[n - 1]
      case Attempt(other, now) =>
        if other == key {
          AttemptTells(limits, times, hits, key, now);
        } else {
          OthersTell(limits, times, hits, key, other, now);
        }
      case ResetKey(other) =>
    }
  }

  /** An attempt is allowed exactly when fewer than a budget of attempts on its key came before it in its window,
      and windows begin afresh with a reset. Nothing else matters: no sweep and no other key. */
  lemma AllowedExactly(limits: Limits, events: seq<Event>, i: nat)
    requires Timely(events) && i < |events| && events[i].Attempt?
    ensures Decision(limits, events, i) <==>
            WithinBudget(limits, Attempts(events, i, events[i].key) + [events[i].now])
  {
    EvictionIsInvisible(limits, events, i);
    AttemptsTell(limits, events, i, events[i].key);
    AttemptTells(limits, Attempts(events, i, events[i].key), KeptAt(limits, events, i), events[i].key, events[i].now);
  }

  lemma {:induction false} NoAttempts(events: seq<Event>, r: nat, n: nat, key: string)
    requires r < n <= |events| && events[r] == ResetKey(key)
    requires forall j :: r < j < n && events[j].Attempt? ==> events[j].key != key
    ensures Attempts(events, n, key) == []
    decreases n
  {
    if r < n - 1 {
      NoAttempts(events, r, n - 1, key);
    }
  }

  /** The first attempt after a reset is allowed. */
  lemma ResetFrees(limits: Limits, events: seq<Event>, r: nat, i: nat)
    requires Timely(events) && r < i < |events| && events[i].Attempt? && events[r] == ResetKey(events[i].key)
    requires forall j :: r < j < i && events[j].Attempt? ==> events[j].key != events[i].key
    ensures Decision(limits, events, i)
  {
    AllowedExactly(limits, events, i);
    NoAttempts(events, r, i, events[i].key);
  }

  // ---- how much a key is allowed ----

  /** Allowed attempts of `key` among the first `n` events at a time of at least `since`. */
  function AllowedSince(limits: Limits, events: seq<Event>, n: nat, key: string, since: int): nat
    requires n <= |events|
  {
    if n == 0 then 0 else
    AllowedSince(limits, events, n - 1, key, since) + if Counts(limits, events, n - 1, key, since) then 1 else 0
  }

  predicate Counts(limits: Limits, events: seq<Event>, i: nat, key: string, since: int)
    requires i < |events|
  {
    events[i].Attempt? && events[i].key == key && since <= events[i].now && KeptDecision(limits, events, i)
  }

  lemma {:induction false} LaterCountsLess(limits: Limits, events: seq<Event>, n: nat, key: string, a: int, b: int)
    requires n <= |events| && a <= b
    ensures AllowedSince(limits, events, n, key, b) <= AllowedSince(limits, events, n, key, a)
  {
    if n > 0 {
      LaterCountsLess(limits, events, n - 1, key, a, b);
    }
  }

  ghost predicate NeverReset(events: seq<Event>, key: string) {
    ResetKey(key) !in events
  }

  /** The current window has been charged for every attempt allowed in it, and it together with the
      window before it for every attempt allowed within one window length of its start. */
  ghost predicate Charged(limits: Limits, events: seq<Event>, n: nat, key: string)
    requires n <= |events|
  {
    var kept := KeptAt(limits, events, n);
    if key !in kept then forall a :: AllowedSince(limits, events, n, key, a) == 0
    else
      var w := kept[key];
      && 1 <= w.count <= Budget(limits)
      && (forall i :: n <= i < |events| && events[i].Attempt? ==> w.resetAt - limits.window <= events[i].now)
      && (forall a :: a > w.resetAt ==> AllowedSince(limits, events, n, key, a) == 0)
      && (forall a :: a >= w.resetAt - limits.window ==> AllowedSince(limits, events, n, key, a) <= w.count)
      && (forall a :: a >= w.resetAt - 2 * limits.window ==>
            AllowedSince(limits, events, n, key, a) <= Budget(limits) + w.count)
  }

  lemma {:induction false} ChargedHolds(limits: Limits, events: seq<Event>, n: nat, key: string)
    requires Timely(events) && NeverReset(events, key) && limits.window >= 0 && n <= |events|
    ensures Charged(limits, events, n, key)
  {
    if n > 0 {
      ChargedHolds(limits, events, n - 1, key);
      var e, kept := events[n - 1], KeptAt(limits, events, n - 1);
      if e.Attempt? && e.key == key {
        if key in kept && e.now > kept[key].resetAt {
          NewWindowIsCharged(limits, events, n, key);
        } else {
          OldWindowIsCharged(limits, events, n, key);
        }
      } else {
        assert e in events;
        assert key in kept <==> key in KeptAt(limits, events, n);
        forall a ensures AllowedSince(limits, events, n, key, a) == AllowedSince(limits, events, n - 1, key, a) {
        }
      }
    }
  }

  lemma OldWindowIsCharged(limits: Limits, events: seq<Event>, n: nat, key: string)
    requires Timely(events) && limits.window >= 0 && 0 < n <= |events|
    requires Charged(limits, events, n - 1, key)
    requires var e, kept := events[n - 1], KeptAt(limits, events, n - 1);
      e.Attempt? && e.key == key && (key in kept ==> e.now <= kept[key].resetAt)
    ensures Charged(limits, events, n, key)
  {
    var allowed := if KeptDecision(limits, events, n - 1) then 1 else 0;
    forall a
      ensures AllowedSince(limits, events, n, key, a) ==
        AllowedSince(limits, events, n - 1, key, a) + if a <= events[n - 1].now then allowed else 0
    {
    }
  }

  lemma NewWindowIsCharged(limits: Limits, events: seq<Event>, n: nat, key: string)
    requires Timely(events) && limits.window >= 0 && 0 < n <= |events|
    requires Charged(limits, events, n - 1, key)
    requires var e, kept := events[n - 1], KeptAt(limits, events, n - 1);
      e.Attempt? && e.key == key && key in kept && e.now > kept[key].resetAt
    ensures Charged(limits, events, n, key)
  {
    var now, previous := events[n - 1].now, KeptAt(limits, events, n - 1)[key];
    forall a | a >= now - limits.window
      ensures AllowedSince(limits, events, n, key, a) <= Budget(limits) + 1
    {
      assert AllowedSince(limits, events, n - 1, key, a) <= previous.count;
    }
  }

  /** Allowed attempts of `key` among the first `n` events in the closed interval from `since` to `until`. */
  function AllowedIn(limits: Limits, events: seq<Event>, n: nat, key: string, since: int, until: int): nat
    requires n <= |events|
  {
    if n == 0 then 0 else
    AllowedIn(limits, events, n - 1, key, since, until) +
    if events[n - 1].Attempt? && events[n - 1].key == key && since <= events[n - 1].now <= until
       && Decision(limits, events, n - 1) then 1 else 0
  }

  lemma {:induction false} IntervalIsAtMostSince(limits: Limits, events: seq<Event>, n: nat, key: string, since: int, until: int)
    requires Timely(events) && n <= |events|
    ensures AllowedIn(limits, events, n, key, since, until) <= AllowedSince(limits, events, n, key, since)
  {
    if n > 0 {
      IntervalIsAtMostSince(limits, events, n - 1, key, since, until);
      EvictionIsInvisible(limits, events, n - 1);
    }
  }

  /** Without resets, a key is allowed at most twice its budget in any interval of one window length. */
  lemma {:induction false} TwoBudgetsPerInterval(limits: Limits, events: seq<Event>, n: nat, key: string, since: int)
    requires Timely(events) && NeverReset(events, key) && limits.window >= 0 && n <= |events|
    ensures AllowedIn(limits, events, n, key, since, since + limits.window) <= 2 * Budget(limits)
  {
    if n > 0 {
      var e := events[n - 1];
      if e.Attempt? && e.key == key && since <= e.now <= since + limits.window && Decision(limits, events, n - 1) {
        ChargedHolds(limits, events, n, key);
        ChargedHolds(limits, events, n - 1, key);
        IntervalIsAtMostSince(limits, events, n, key, since, since + limits.window);
        var w := KeptAt(limits, events, n)[key];
        assert w.resetAt - limits.window <= e.now;
      } else {
        TwoBudgetsPerInterval(limits, events, n - 1, key, since);
      }
    }
  }

  /** Within its current window a key is allowed at most its budget. */
  lemma OneBudgetPerWindow(limits: Limits, events: seq<Event>, n: nat, key: string)
    requires Timely(events) && NeverReset(events, key) && limits.window >= 0 && n <= |events|
    requires key in KeptAt(limits, events, n)
    ensures AllowedSince(limits, events, n, key, KeptAt(limits, events, n)[key].resetAt - limits.window) <= Budget(limits)
  {
    ChargedHolds(limits, events, n, key);
  }

  /** The count of the current window is the number of attempts allowed in it. */
  lemma {:induction false} CountIsExact(limits: Limits, events: seq<Event>, n: nat, key: string)
    requires Timely(events) && NeverReset(events, key) && limits.window >= 0 && n <= |events|
    requires key in KeptAt(limits, events, n)
    ensures var w := KeptAt(limits, events, n)[key];
      w.count == AllowedSince(limits, events, n, key, w.resetAt - limits.window)
  {
    var e, kept := events[n - 1], KeptAt(limits, events, n - 1);
    ChargedHolds(limits, events, n - 1, key);
    assert e in events;
    if key in kept {
      CountIsExact(limits, events, n - 1, key);
    }
  }

  /** An attempt is refused only if the budget was spent: as many attempts as the budget were allowed
      within one window length before it. */
  lemma RefusedOnlyWhenSpent(limits: Limits, events: seq<Event>, i: nat)
    requires Timely(events) && limits.window >= 0 && i < |events| && events[i].Attempt?
    requires NeverReset(events, events[i].key) && !Decision(limits, events, i)
    ensures AllowedIn(limits, events, i, events[i].key, events[i].now - limits.window, events[i].now) >= Budget(limits)
  {
    var key, now := events[i].key, events[i].now;
    EvictionIsInvisible(limits, events, i);
    CountIsExact(limits, events, i, key);
    ChargedHolds(limits, events, i, key);
    LaterCountsLess(limits, events, i, key, now - limits.window, KeptAt(limits, events, i)[key].resetAt - limits.window);
    SinceIsInInterval(limits, events, i, key, now - limits.window, now);
  }

  lemma {:induction false} SinceIsInInterval(limits: Limits, events: seq<Event>, n: nat, key: string, since: int, until: int)
    requires Timely(events) && n <= |events|
    requires forall i :: 0 <= i < n && events[i].Attempt? ==> events[i].now <= until
    ensures AllowedIn(limits, events, n, key, since, until) == AllowedSince(limits, events, n, key, since)
  {
    if n > 0 {
      SinceIsInInterval(limits, events, n - 1, key, since, until);
      EvictionIsInvisible(limits, events, n - 1);
    }
  }

  /** A limit below one still lets the first attempt of a window through. */
  lemma LimitBelowOneAllowsOne(limits: Limits, key: string, now: int)
    requires limits.max < 1 && limits.window >= 0
    ensures Decision(limits, [Attempt(key, now)], 0)
    ensures KeptAt(limits, [Attempt(key, now)], 1) == map[key := Window(1, now + limits.window)]
    ensures AllowedIn(limits, [Attempt(key, now)], 1, key, now, now + limits.window) == 1
  {
    var events := [Attempt(key, now)];
    assert StateAt(limits, events, 0) == FRESH && KeptAt(limits, events, 0) == map[];
    assert AllowedIn(limits, events, 0, key, now, now + limits.window) == 0;
  }

  /** Only a negative limit gets that far: the configuration replaces zero by a default. */
  lemma NegativeLimitAllowsOne()
    ensures Decision(Limits(-1, 900), [Attempt("login", 0)], 0)
  {
    LimitBelowOneAllowsOne(Limits(-1, 900), "login", 0);
  }

  /** The documented bound: within a window no more than `max` attempts are allowed. */
  ghost predicate KeepsDocumentedBound(limits: Limits) {
    forall events, n: nat, key ::
      Timely(events) && NeverReset(events, key) && n <= |events| && key in KeptAt(limits, events, n) ==>
      AllowedInWindow(limits, events, n, key) <= limits.max
  }

  /** The allowed attempts of the key in its current window. */
  function AllowedInWindow(limits: Limits, events: seq<Event>, n: nat, key: string): nat
    requires n <= |events| && key in KeptAt(limits, events, n)
  {
    var resetAt := KeptAt(limits, events, n)[key].resetAt;
    AllowedIn(limits, events, n, key, resetAt - limits.window, resetAt)
  }

  /** It holds on every trace without resets exactly when the limit is at least one. */
  lemma DocumentedBoundExactly(limits: Limits)
    requires limits.window >= 0
    ensures KeepsDocumentedBound(limits) <==> limits.max >= 1
  {
    if limits.max >= 1 {
      forall events, n: nat, key | Timely(events) && NeverReset(events, key) && n <= |events| && key in KeptAt(limits, events, n)
        ensures AllowedInWindow(limits, events, n, key) <= limits.max
      {
        var resetAt := KeptAt(limits, events, n)[key].resetAt;
        OneBudgetPerWindow(limits, events, n, key);
        IntervalIsAtMostSince(limits, events, n, key, resetAt - limits.window, resetAt);
      }
    } else {
      var events := [Attempt("login", 0)];
      LimitBelowOneAllowsOne(limits, "login", 0);
      assert Timely(events) && NeverReset(events, "login");
      assert AllowedInWindow(limits, events, 1, "login") == 1;
    }
  }

  // ---- what is tracked ----

  /** No attempt comes before Go's zero time. */
  ghost predicate AfterZero(events: seq<Event>) {
    forall i :: 0 <= i < |events| && events[i].Attempt? ==> 0 <= events[i].now
  }

  ghost predicate StartedAt(limits: Limits, events: seq<Event>, n: nat, key: string, w: Window)
    requires n <= |events|
  {
    exists i: nat :: i < n && events[i] == Attempt(key, w.resetAt - limits.window)
  }

  ghost predicate Recent(limits: Limits, events: seq<Event>, n: nat)
    requires n <= |events|
  {
    var s := StateAt(limits, events, n);
    && (forall i :: n <= i < |events| && events[i].Attempt? ==> s.nextSweep - limits.window <= events[i].now)
    && (forall key :: key in s.hits ==>
          s.nextSweep - limits.window <= s.hits[key].resetAt && StartedAt(limits, events, n, key, s.hits[key]))
  }

  lemma AttemptKeepsBound(limits: Limits, s: State, key: string, now: int, other: string)
    requires limits.window > 0 && s.nextSweep - limits.window <= now
    requires other in s.hits ==> s.nextSweep - limits.window <= s.hits[other].resetAt
    ensures var s' := AllowStep(limits, s, key, now).0;
      && s'.nextSweep - limits.window <= now < s'.nextSweep
      && (other in s'.hits ==>
            s'.nextSweep - limits.window <= s'.hits[other].resetAt &&
            ((other in s.hits && s'.hits[other].resetAt == s.hits[other].resetAt) ||
             (other == key && s'.hits[other].resetAt == now + limits.window)))
  {
  }

  lemma {:induction false} RecentHolds(limits: Limits, events: seq<Event>, n: nat)
    requires Timely(events) && AfterZero(events) && limits.window > 0 && n <= |events|
    ensures Recent(limits, events, n)
    ensures n > 0 && events[n - 1].Attempt? ==> events[n - 1].now < StateAt(limits, events, n).nextSweep
  {
    if n > 0 {
      RecentHolds(limits, events, n - 1);
      var s, s', e := StateAt(limits, events, n - 1), StateAt(limits, events, n), events[n - 1];
      forall key | key in s'.hits
        ensures s'.nextSweep - limits.window <= s'.hits[key].resetAt && StartedAt(limits, events, n, key, s'.hits[key])
      {
        if e.Attempt? {
          AttemptKeepsBound(limits, s, e.key, e.now, key);
        }
        if key in s.hits && s.hits[key].resetAt == s'.hits[key].resetAt {
          assert StartedAt(limits, events, n - 1, key, s.hits[key]);
        } else {
          assert events[n - 1] == Attempt(key, s'.hits[key].resetAt - limits.window);
        }
      }
      if e.Attempt? {
        AttemptKeepsBound(limits, s, e.key, e.now, e.key);
      }
    }
  }

  /** The keys attempted after `since`. */
  ghost function KeysSince(events: seq<Event>, since: int): set<string> {
    set i | 0 <= i < |events| && events[i].Attempt? && since < events[i].now :: events[i].key
  }

  lemma StartIsCounted(limits: Limits, events: seq<Event>, n: nat, key: string, w: Window, since: int)
    requires n <= |events| && StartedAt(limits, events, n, key, w) && since < w.resetAt - limits.window
    ensures key in KeysSince(events[..n], since)
  {
    var i: nat :| i < n && events[i] == Attempt(key, w.resetAt - limits.window);
    assert events[..n][i] == events[i];
  }

  /** After each attempt, every tracked window began less than two window lengths ago, so the map is no
      larger than the set of keys attempted in that time. */
  lemma TrackedKeysAreRecent(limits: Limits, events: seq<Event>, n: nat)
    requires Timely(events) && AfterZero(events) && limits.window > 0 && 0 < n <= |events| && events[n - 1].Attempt?
    ensures var hits, now := StateAt(limits, events, n).hits, events[n - 1].now;
      && (forall key :: key in hits ==> now - 2 * limits.window < hits[key].resetAt - limits.window)
      && hits.Keys <= KeysSince(events[..n], now - 2 * limits.window)
      && |hits| <= |KeysSince(events[..n], now - 2 * limits.window)|
  {
    RecentHolds(limits, events, n);
    var hits, since := StateAt(limits, events, n).hits, events[n - 1].now - 2 * limits.window;
    forall key | key in hits ensures key in KeysSince(events[..n], since) {
      assert StartedAt(limits, events, n, key, hits[key]);
      StartIsCounted(limits, events, n, key, hits[key], since);
    }
    SubsetSize(hits.Keys, KeysSince(events[..n], since));
    assert |hits.Keys| == |hits|;
  }
}
