/** Whole runs of passes and sweeps: how often a broken source is asked, and which listings go stale. */
module IngestionRuns {
  import opened ConditionalFetch
  import opened FeedQuery
  import opened Ingestion
  import opened ListingStore
  import opened Options
  import opened PassTheorems

  // ---- the breaker of one source ----

  /** A fetch that was made. */
  datatype Attempt = Attempt(now: int, ok: bool)

  function CircuitFrom(policy: Policy, attempts: seq<Attempt>): Circuit {
    if attempts == [] then CLOSED else
    var last := attempts[|attempts| - 1];
    if last.ok then CLOSED else AfterFailure(policy, CircuitFrom(policy, attempts[..|attempts| - 1]), last.now)
  }

  /** The latest `n` fetches were made and failed. */
  predicate LastFailed(attempts: seq<Attempt>, n: nat) {
    n <= |attempts| && forall i :: |attempts| - n <= i < |attempts| ==> !attempts[i].ok
  }

  lemma {:induction false} CircuitCounts(policy: Policy, attempts: seq<Attempt>, n: nat)
    requires policy.maxFailures > 0
    ensures var c := CircuitFrom(policy, attempts);
      && (n <= c.failures <==> LastFailed(attempts, n))
      && (c.failures >= policy.maxFailures ==> attempts != [] && c.openedAt == attempts[|attempts| - 1].now)
  {
    if attempts != [] {
      var front := attempts[..|attempts| - 1];
      CircuitCounts(policy, front, if n > 0 then n - 1 else 0);
      if n > 0 && !attempts[|attempts| - 1].ok {
        assert LastFailed(attempts, n) <==> LastFailed(front, n - 1);
      }
    }
  }

  /** A source is skipped exactly when its latest maxFailures fetches all failed and the cooldown since the
      last of them has not passed. One success therefore restores the whole failure budget. */
  lemma SkippedExactly(policy: Policy, attempts: seq<Attempt>, now: int)
    requires policy.maxFailures > 0
    ensures !Allows(policy, CircuitFrom(policy, attempts), now) <==>
            LastFailed(attempts, policy.maxFailures) && now - attempts[|attempts| - 1].now < policy.cooldown
  {
    CircuitCounts(policy, attempts, policy.maxFailures);
  }

  /** How often a source that keeps failing is fetched when a pass comes by at each of these times. */
  function Tries(policy: Policy, c: Circuit, times: seq<int>): nat
    decreases |times|
  {
    if times == [] then 0
    else if Allows(policy, c, times[0]) then 1 + Tries(policy, AfterFailure(policy, c, times[0]), times[1..])
    else Tries(policy, c, times[1..])
  }

  /** The first tries use up the budget; after that there is a cooldown between two of them. */
  predicate WithinBudget(policy: Policy, c: Circuit, first: int, last: int, tries: nat) {
    var budget := policy.maxFailures - c.failures;
    if budget > 0 then tries <= budget || policy.cooldown * (tries - budget) <= last - first
    else tries == 0 || policy.cooldown * tries <= last - c.openedAt
  }

  lemma SkippedTry(policy: Policy, c: Circuit, first: int, second: int, last: int, tries: nat)
    requires policy.cooldown > 0 && first <= second && WithinBudget(policy, c, second, last, tries)
    ensures WithinBudget(policy, c, first, last, tries)
  {
  }

  lemma OneMoreTry(policy: Policy, c: Circuit, first: int, second: int, last: int, tries: nat)
    requires policy.maxFailures > 0 && policy.cooldown > 0 && first <= second <= last && Allows(policy, c, first)
    requires WithinBudget(policy, AfterFailure(policy, c, first), second, last, tries)
    ensures WithinBudget(policy, c, first, last, tries + 1)
  {
    var budget := policy.maxFailures - c.failures;
    if budget <= 0 {
      assert policy.cooldown * (tries + 1) == policy.cooldown * tries + policy.cooldown;
    } else if budget == 1 {
      assert policy.cooldown * (tries + 1 - budget) == policy.cooldown * tries;
    } else {
      assert tries + 1 - budget == tries - (budget - 1);
    }
  }

  lemma {:induction false} TriesAtMost(policy: Policy, c: Circuit, times: seq<int>)
    requires policy.maxFailures > 0 && policy.cooldown > 0
    requires times != [] && forall i, k :: 0 <= i < k < |times| ==> times[i] <= times[k]
    ensures WithinBudget(policy, c, times[0], times[|times| - 1], Tries(policy, c, times))
    decreases |times|
  {
    var allowed, first, last := Allows(policy, c, times[0]), times[0], times[|times| - 1];
    var next := if allowed then AfterFailure(policy, c, first) else c;
    var later := Tries(policy, next, times[1..]);
    if |times| == 1 {
      assert later == 0;
      if allowed {
        OneMoreTry(policy, c, first, first, last, later);
      }
    } else {
      TriesAtMost(policy, next, times[1..]);
      if allowed {
        OneMoreTry(policy, c, first, times[1], last, later);
      } else {
        SkippedTry(policy, c, first, times[1], last, later);
      }
    }
  }

  lemma AtMostQuotient(k: int, x: int, d: int)
    requires d > 0 && d * k <= x
    ensures k <= x / d
  {
    var m := k - x / d;
    assert d * m <= x % d < d;
  }

  lemma TriesAtMostQuotient(policy: Policy, c: Circuit, times: seq<int>, first: int, last: int)
    requires policy.maxFailures > c.failures && policy.cooldown > 0 && first <= last
    requires OrderedWithin(times, first, last)
    ensures Tries(policy, c, times) <= policy.maxFailures + (last - first) / policy.cooldown
  {
    var tries, budget := Tries(policy, c, times), policy.maxFailures - c.failures;
    AtMostQuotient(0, last - first, policy.cooldown);
    if times != [] {
      TriesAtMost(policy, c, times);
      if tries > budget {
        AtMostQuotient(tries - budget, last - first, policy.cooldown);
      }
    }
  }

  // ---- runs ----

  datatype Setup = Setup(rules: Rules, policy: Policy)

  /** A pass, with what each source would deliver, or a sweep. */
  datatype Event =
    | PassEvent(sources: seq<Source>, now: int, seenAt: int)
    | SweepEvent(now: int, maxAge: int)

  function Next(u: Setup, s: State, e: Event): State {
    match e
    case PassEvent(sources, now, seenAt) => Pass(u.rules, u.policy, s, sources, now, seenAt)
    case SweepEvent(now, maxAge) => s.(jobs := Swept(s.jobs, now, maxAge))
  }

  /** The states of a run: `run[i]` is the state before event `i`. */
  ghost predicate IsRun(u: Setup, run: seq<State>, es: seq<Event>) {
    && |run| == |es| + 1
    && forall i :: 0 <= i < |es| ==> Leads(u, run[i], es[i], run[i + 1])
  }

  /** Sources cannot be registered twice. */
  ghost predicate Leads(u: Setup, s: State, e: Event, next: State) {
    (e.PassEvent? ==> DistinctIds(e.sources)) && next == Next(u, s, e)
  }

  // ---- a permanently failing source ----

  /** The event is a pass over this source, whose fetch fails. */
  predicate Fails(e: Event, source: nat, id: string) {
    e.PassEvent? && source < |e.sources| && e.sources[source].id == id && e.sources[source].fetch.Failed?
  }

  /** The pass asks the source instead of skipping it. */
  ghost predicate Asks(u: Setup, s: State, e: Event, source: nat) {
    e.PassEvent? && source < |Reports(u.rules, u.policy, s, e.sources, e.now, e.seenAt)| &&
    !Reports(u.rules, u.policy, s, e.sources, e.now, e.seenAt)[source].skipped
  }

  ghost function Asked(u: Setup, run: seq<State>, es: seq<Event>, source: nat): nat
    requires |run| == |es| + 1
  {
    if es == [] then 0 else (if Asks(u, run[0], es[0], source) then 1 else 0) + Asked(u, run[1..], es[1..], source)
  }

  /** The registry is fixed: every pass visits the source at the same place. */
  ghost predicate Visits(es: seq<Event>, source: nat, id: string) {
    forall i :: 0 <= i < |es| && es[i].PassEvent? ==> source < |es[i].sources| && es[i].sources[source].id == id
  }

  /** The fetches from the source that the first `n` events made. */
  ghost function AttemptsOf(u: Setup, run: seq<State>, es: seq<Event>, n: nat, source: nat): seq<Attempt>
    requires n <= |es| < |run|
  {
    if n == 0 then [] else AttemptsOf(u, run, es, n - 1, source) + Made(u, run[n - 1], es[n - 1], source)
  }

  ghost function Made(u: Setup, s: State, e: Event, source: nat): seq<Attempt> {
    if e.PassEvent? && source < |e.sources| && Asks(u, s, e, source)
    then [Attempt(e.now, e.sources[source].fetch.Got?)] else []
  }

  lemma VisitStep(u: Setup, s: State, e: Event, next: State, source: nat)
    requires Leads(u, s, e, next) && e.PassEvent? && source < |e.sources|
    ensures var c := CircuitOf(s.circuits, e.sources[source].id);
      && |Reports(u.rules, u.policy, s, e.sources, e.now, e.seenAt)| == |e.sources|
      && (Asks(u, s, e, source) <==> Allows(u.policy, c, e.now))
      && CircuitOf(next.circuits, e.sources[source].id) == NextCircuit(u.policy, c, e.sources[source].fetch, e.now)
  {
    CircuitAfterPass(u.rules, u.policy, s, e.sources, e.now, e.seenAt, source);
    PassTells(u.rules, u.policy, s, e.sources, e.now, e.seenAt);
    assert Tells(u.rules, u.policy, s.circuits, e.sources[source], e.now,
                 Reports(u.rules, u.policy, s, e.sources, e.now, e.seenAt)[source]);
  }

  lemma CircuitExtends(policy: Policy, attempts: seq<Attempt>, last: Attempt)
    ensures CircuitFrom(policy, attempts + [last]) ==
            if last.ok then CLOSED else AfterFailure(policy, CircuitFrom(policy, attempts), last.now)
  {
    assert (attempts + [last])[..|attempts|] == attempts;
  }

  lemma CircuitStep(u: Setup, s: State, e: Event, next: State, source: nat, id: string, before: seq<Attempt>)
    requires Leads(u, s, e, next) && CircuitOf(s.circuits, id) == CircuitFrom(u.policy, before)
    requires e.PassEvent? ==> source < |e.sources| && e.sources[source].id == id
    ensures CircuitOf(next.circuits, id) == CircuitFrom(u.policy, before + Made(u, s, e, source))
  {
    var made := Made(u, s, e, source);
    if e.PassEvent? {
      VisitStep(u, s, e, next, source);
    }
    if made == [] {
      assert before + made == before;
    } else {
      CircuitExtends(u.policy, before, made[0]);
    }
  }

  lemma RunStep(u: Setup, run: seq<State>, es: seq<Event>, i: nat)
    requires IsRun(u, run, es) && i < |es|
    ensures Leads(u, run[i], es[i], run[i + 1])
  {
  }

  lemma AttemptsExtend(u: Setup, run: seq<State>, es: seq<Event>, n: nat, source: nat)
    requires n < |es| < |run|
    ensures AttemptsOf(u, run, es, n + 1, source) ==
            AttemptsOf(u, run, es, n, source) + Made(u, run[n], es[n], source)
  {
  }

  lemma {:induction false} CircuitOfRun(u: Setup, run: seq<State>, es: seq<Event>, n: nat, source: nat, id: string)
    requires IsRun(u, run, es) && n <= |es| && Visits(es, source, id) && CircuitOf(run[0].circuits, id) == CLOSED
    ensures CircuitOf(run[n].circuits, id) == CircuitFrom(u.policy, AttemptsOf(u, run, es, n, source))
  {
    if n > 0 {
      var m := n - 1;
      CircuitOfRun(u, run, es, m, source, id);
      RunStep(u, run, es, m);
      CircuitStep(u, run[m], es[m], run[n], source, id, AttemptsOf(u, run, es, m, source));
      AttemptsExtend(u, run, es, m, source);
    }
  }

  /** In every run, the report of a pass says that the source was skipped exactly when its latest
      maxFailures fetches in the run all failed and the last of them is less than a cooldown ago. */
  lemma ReportSkipsExactly(u: Setup, run: seq<State>, es: seq<Event>, n: nat, source: nat, id: string)
    requires IsRun(u, run, es) && n < |es| && es[n].PassEvent? && Visits(es, source, id)
    requires u.policy.maxFailures > 0 && CircuitOf(run[0].circuits, id) == CLOSED
    ensures |Reports(u.rules, u.policy, run[n], es[n].sources, es[n].now, es[n].seenAt)| == |es[n].sources|
    ensures var attempts := AttemptsOf(u, run, es, n, source);
      Reports(u.rules, u.policy, run[n], es[n].sources, es[n].now, es[n].seenAt)[source].skipped <==>
      LastFailed(attempts, u.policy.maxFailures) && es[n].now - attempts[|attempts| - 1].now < u.policy.cooldown
  {
    CircuitOfRun(u, run, es, n, source, id);
    assert Leads(u, run[n], es[n], run[n + 1]);
    VisitStep(u, run[n], es[n], run[n + 1], source);
    SkippedExactly(u.policy, AttemptsOf(u, run, es, n, source), es[n].now);
  }

  /** Every pass among the events finds the source failing; sweeps may come in between. */
  ghost predicate KeepsFailing(es: seq<Event>, source: nat, id: string) {
    forall i :: 0 <= i < |es| && es[i].PassEvent? ==> Fails(es[i], source, id)
  }

  /** The passes take place between the two instants, in order. */
  ghost predicate PassesWithin(es: seq<Event>, first: int, last: int) {
    && (forall i :: 0 <= i < |es| && es[i].PassEvent? ==> first <= es[i].now <= last)
    && (forall i, k :: 0 <= i < k < |es| && es[i].PassEvent? && es[k].PassEvent? ==> es[i].now <= es[k].now)
  }

  function PassTimes(es: seq<Event>): seq<int>
    decreases |es|
  {
    if es == [] then [] else (if es[0].PassEvent? then [es[0].now] else []) + PassTimes(es[1..])
  }

  predicate OrderedWithin(times: seq<int>, first: int, last: int) {
    && (forall i :: 0 <= i < |times| ==> first <= times[i] <= last)
    && (forall i, k :: 0 <= i < k < |times| ==> times[i] <= times[k])
  }

  lemma OneEarlier(time: int, times: seq<int>, first: int, last: int)
    requires first <= time <= last && OrderedWithin(times, time, last)
    ensures OrderedWithin([time] + times, first, last)
  {
  }

  lemma TailWithin(es: seq<Event>, first: int, last: int)
    requires es != [] && PassesWithin(es, first, last)
    ensures PassesWithin(es[1..], if es[0].PassEvent? then es[0].now else first, last)
  {
    assert forall i :: 0 <= i < |es[1..]| ==> es[1..][i] == es[i + 1];
  }

  lemma {:induction false} PassTimesAreOrdered(es: seq<Event>, first: int, last: int)
    requires PassesWithin(es, first, last)
    ensures OrderedWithin(PassTimes(es), first, last)
    decreases |es|
  {
    if es != [] {
      TailWithin(es, first, last);
      if es[0].PassEvent? {
        PassTimesAreOrdered(es[1..], es[0].now, last);
        OneEarlier(es[0].now, PassTimes(es[1..]), first, last);
      } else {
        PassTimesAreOrdered(es[1..], first, last);
        assert PassTimes(es) == PassTimes(es[1..]);
      }
    }
  }

  lemma RunTail(u: Setup, run: seq<State>, es: seq<Event>)
    requires IsRun(u, run, es) && es != []
    ensures Leads(u, run[0], es[0], run[1]) && IsRun(u, run[1..], es[1..])
  {
    assert Leads(u, run[0], es[0], run[0 + 1]);
    forall i | 0 <= i < |es[1..]| ensures Leads(u, run[1..][i], es[1..][i], run[1..][i + 1]) {
      assert Leads(u, run[i + 1], es[i + 1], run[i + 1 + 1]);
    }
  }

  lemma {:induction false} AskedAreTries(u: Setup, run: seq<State>, es: seq<Event>, source: nat, id: string)
    requires IsRun(u, run, es) && KeepsFailing(es, source, id)
    ensures Asked(u, run, es, source) == Tries(u.policy, CircuitOf(run[0].circuits, id), PassTimes(es))
    decreases |es|
  {
    if es != [] {
      RunTail(u, run, es);
      AskedAreTries(u, run[1..], es[1..], source, id);
      if es[0].PassEvent? {
        VisitStep(u, run[0], es[0], run[1], source);
        assert PassTimes(es)[1..] == PassTimes(es[1..]);
      } else {
        assert PassTimes(es) == PassTimes(es[1..]);
      }
    }
  }

  /** In any run in which a source fails at every pass between two instants, it is asked at most
      maxFailures + floor(T / cooldown) times for the time T between them, provided that its breaker was
      not open at the start. */
  lemma FailingSourceIsAskedSeldom(u: Setup, run: seq<State>, es: seq<Event>, source: nat, id: string, first: int, last: int)
    requires u.policy.maxFailures > 0 && u.policy.cooldown > 0 && first <= last
    requires IsRun(u, run, es) && KeepsFailing(es, source, id) && PassesWithin(es, first, last)
    requires CircuitOf(run[0].circuits, id).failures < u.policy.maxFailures
    ensures Asked(u, run, es, source) <= u.policy.maxFailures + (last - first) / u.policy.cooldown
  {
    AskedAreTries(u, run, es, source, id);
    PassTimesAreOrdered(es, first, last);
    TriesAtMostQuotient(u.policy, CircuitOf(run[0].circuits, id), PassTimes(es), first, last);
  }

  // ---- staleness ----

  /** The pass stores a listing under the key. */
  predicate Sees(u: Setup, s: State, e: Event, key: string) {
    e.PassEvent? && Latest(Delivered(u.rules, u.policy, s.circuits, e.sources, e.now), key).Some?
  }

  /** The sweep finds the listing too old. */
  predicate Ages(e: Event, lastSeen: int) {
    e.SweepEvent? && lastSeen != 0 && e.now - lastSeen >= e.maxAge
  }

  lemma UnseenStep(u: Setup, s: State, e: Event, next: State, key: string)
    requires Leads(u, s, e, next) && !Sees(u, s, e, key)
    ensures key in next.jobs <==> key in s.jobs
    ensures key in s.jobs ==> next.jobs[key] == if e.SweepEvent? then Aged(s.jobs[key], e.now, e.maxAge) else s.jobs[key]
  {
    if e.PassEvent? {
      PassTells(u.rules, u.policy, s, e.sources, e.now, e.seenAt);
      assert StoresAt(s.jobs, Latest(Delivered(u.rules, u.policy, s.circuits, e.sources, e.now), key), e.seenAt, next.jobs, key);
    }
  }

  lemma SeenStep(u: Setup, s: State, e: Event, next: State, key: string)
    requires Leads(u, s, e, next) && Sees(u, s, e, key)
    ensures key in next.jobs && next.jobs[key].lastSeen == e.seenAt
    ensures !next.jobs[key].stale && next.jobs[key].staleAt == None
  {
    PassTells(u.rules, u.policy, s, e.sources, e.now, e.seenAt);
    assert StoresAt(s.jobs, Latest(Delivered(u.rules, u.policy, s.circuits, e.sources, e.now), key), e.seenAt, next.jobs, key);
  }

  /** `first` is the first sweep after event `p` that finds the listing too old, if there is one. */
  ghost predicate FirstAging(es: seq<Event>, p: nat, n: nat, lastSeen: int, first: Option<nat>)
    requires n <= |es|
  {
    match first
    case None => forall i :: p < i < n ==> !Ages(es[i], lastSeen)
    case Some(f) => p < f < n && Ages(es[f], lastSeen) && forall i :: p < i < f ==> !Ages(es[i], lastSeen)
  }

  /** A stored listing is stale exactly when some sweep since it was last seen found it too old, and it
      has been stale since the first such sweep. */
  lemma {:induction false} StaleExactly(u: Setup, run: seq<State>, es: seq<Event>, n: nat, p: nat, key: string)
    returns (first: Option<nat>)
    requires IsRun(u, run, es) && p < n <= |es|
    requires Sees(u, run[p], es[p], key) && forall i :: p < i < n ==> !Sees(u, run[i], es[i], key)
    ensures key in run[n].jobs && FirstAging(es, p, n, es[p].seenAt, first)
    ensures var stored := run[n].jobs[key];
      && stored.lastSeen == es[p].seenAt
      && (stored.stale <==> first.Some?)
      && stored.staleAt == (if first.None? then None else Some(es[first.value].now))
    decreases n
  {
    assert Leads(u, run[n - 1], es[n - 1], run[n - 1 + 1]);
    if n == p + 1 {
      SeenStep(u, run[p], es[p], run[n], key);
      first := None;
    } else {
      first := StaleExactly(u, run, es, n - 1, p, key);
      UnseenStep(u, run[n - 1], es[n - 1], run[n], key);
      if first.None? && Ages(es[n - 1], es[p].seenAt) {
        first := Some(n - 1);
      }
    }
  }

  /** A listing that no pass delivered is not in the store. */
  lemma {:induction false} UnseenIsUnknown(u: Setup, run: seq<State>, es: seq<Event>, n: nat, key: string)
    requires IsRun(u, run, es) && n <= |es|
    requires key !in run[0].jobs && forall i :: 0 <= i < n ==> !Sees(u, run[i], es[i], key)
    ensures key !in run[n].jobs
  {
    if n > 0 {
      UnseenIsUnknown(u, run, es, n - 1, key);
      assert Leads(u, run[n - 1], es[n - 1], run[n - 1 + 1]);
      UnseenStep(u, run[n - 1], es[n - 1], run[n], key);
    }
  }

  /** Every listing stays under its own key, which the listing of the store's jobs relies on. */
  lemma {:induction false} ListingsKeepTheirKeys(u: Setup, run: seq<State>, es: seq<Event>, n: nat)
    requires IsRun(u, run, es) && n <= |es| && Keyed(run[0].jobs)
    ensures Keyed(run[n].jobs)
  {
    if n > 0 {
      ListingsKeepTheirKeys(u, run, es, n - 1);
      var s, e := run[n - 1], es[n - 1];
      assert Leads(u, s, e, run[n - 1 + 1]);
      forall key | key in run[n].jobs ensures run[n].jobs[key].job.dedupKey == key {
        if Sees(u, s, e, key) {
          PassTells(u.rules, u.policy, s, e.sources, e.now, e.seenAt);
          assert StoresAt(s.jobs, Latest(Delivered(u.rules, u.policy, s.circuits, e.sources, e.now), key), e.seenAt,
                          run[n].jobs, key);
        } else {
          UnseenStep(u, s, e, run[n], key);
        }
      }
    }
  }

  function Instant(e: Event): int {
    if e.PassEvent? then e.seenAt else e.now
  }

  /** The clock of the store runs forwards. */
  ghost predicate Clocked(es: seq<Event>) {
    forall i, k :: 0 <= i <= k < |es| ==> Instant(es[i]) <= Instant(es[k])
  }

  /** The last pass before event `n` that delivered the listing. */
  lemma {:induction false} LastSighting(u: Setup, run: seq<State>, es: seq<Event>, n: nat, p: nat, key: string) returns (q: nat)
    requires p < n <= |es| < |run| && Sees(u, run[p], es[p], key)
    ensures p <= q < n && Sees(u, run[q], es[q], key) && forall i :: q < i < n ==> !Sees(u, run[i], es[i], key)
    decreases n
  {
    if n == p + 1 || Sees(u, run[n - 1], es[n - 1], key) {
      q := n - 1;
    } else {
      q := LastSighting(u, run, es, n - 1, p, key);
    }
  }

  /** The sweep comes less than its maximal age after a pass that delivered the listing. */
  ghost predicate SeenBefore(u: Setup, run: seq<State>, es: seq<Event>, sweep: nat, key: string)
    requires sweep < |es| < |run| && es[sweep].SweepEvent?
  {
    exists q :: 0 <= q < sweep && Sees(u, run[q], es[q], key) && es[sweep].now - es[q].seenAt < es[sweep].maxAge
  }

  /** A listing is active after any event if each sweep since it was first seen comes soon enough after a
      pass that delivered it. */
  lemma SeenOftenStaysActive(u: Setup, run: seq<State>, es: seq<Event>, n: nat, p: nat, key: string)
    requires IsRun(u, run, es) && Clocked(es) && p < n <= |es| && Sees(u, run[p], es[p], key)
    requires forall i :: p < i < n && es[i].SweepEvent? ==> SeenBefore(u, run, es, i, key)
    ensures key in run[n].jobs && !run[n].jobs[key].stale
  {
    var q := LastSighting(u, run, es, n, p, key);
    var first := StaleExactly(u, run, es, n, q, key);
    forall i | q < i < n && es[i].SweepEvent? ensures !Ages(es[i], es[q].seenAt) {
      assert SeenBefore(u, run, es, i, key);
      var r :| 0 <= r < i && Sees(u, run[r], es[r], key) && es[i].now - es[r].seenAt < es[i].maxAge;
      assert Instant(es[r]) <= Instant(es[q]);
    }
  }
}
