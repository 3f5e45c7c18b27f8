/** One ingestion pass with a circuit breaker per source (backend/internal/ingest/runner.go). */
module Ingestion {
  import opened ConditionalFetch
  import opened FeedQuery
  import opened ListingStore
  import opened Options

  // ---- the circuit breaker ----

  const MINUTE := 60_000_000_000

  datatype Policy = Policy(maxFailures: int, cooldown: int)

  /** Zero and negative settings fall back to the defaults. */
  function PolicyOf(maxFailures: int, cooldown: int): Policy {
    Policy(if maxFailures <= 0 then 3 else maxFailures, if cooldown <= 0 then 10 * MINUTE else cooldown)
  }

  datatype Circuit = Circuit(failures: nat, openedAt: int)

  const CLOSED := Circuit(0, NEVER)

  predicate Allows(policy: Policy, c: Circuit, now: int) {
    c.failures < policy.maxFailures || now - c.openedAt >= policy.cooldown
  }

  function AfterFailure(policy: Policy, c: Circuit, now: int): Circuit {
    Circuit(c.failures + 1, if c.failures + 1 >= policy.maxFailures then now else c.openedAt)
  }

  class Breaker {
    const policy: Policy
    var failures: nat
    var openedAt: int

    function Reading(): Circuit
      reads this
    {
      Circuit(failures, openedAt)
    }

    constructor (policy: Policy)
      ensures this.policy == policy && Reading() == CLOSED
    {
      this.policy := policy;
      failures := 0;
      openedAt := NEVER;
    }

    method Allow(now: int) returns (ok: bool)
      ensures ok <==> Allows(policy, Reading(), now)
    {
      if failures < policy.maxFailures {
        return true;
      }
      return now - openedAt >= policy.cooldown;
    }

    method OnSuccess()
      modifies this
      ensures Reading() == CLOSED
    {
      failures := 0;
      openedAt := NEVER;
    }

    method OnFailure(now: int)
      modifies this
      ensures Reading() == AfterFailure(policy, old(Reading()), now)
    {
      failures := failures + 1;
      if failures >= policy.maxFailures {
        openedAt := now;
      }
    }
  }

  // ---- listings ----

  /** Normalization, the region filter and the URL check. */
  datatype Rules = Rules(normalize: Listing -> Option<Job>, inRegion: Job -> bool, validUrl: string -> bool)

  /** The listing as a job of the feed's region, if it is one. */
  function Accepted(rules: Rules, raw: Listing): Option<Job> {
    match rules.normalize(raw)
    case None => None
    case Some(job) => if rules.inRegion(job) then Some(job) else None
  }

  datatype Tally = Tally(jobs: Jobs, fetched: nat, created: nat, updated: nat, persistErr: Option<string>)

  function Count(rules: Rules, t: Tally, raw: Listing, seenAt: int): Tally {
    match Accepted(rules, raw)
    case None => t
    case Some(job) =>
      if !rules.validUrl(job.sourceUrl) then t.(fetched := t.fetched + 1, persistErr := Some(job.sourceUrl))
      else if job.dedupKey in t.jobs then
        t.(jobs := Put(t.jobs, job, seenAt), fetched := t.fetched + 1, updated := t.updated + 1)
      else
        t.(jobs := Put(t.jobs, job, seenAt), fetched := t.fetched + 1, created := t.created + 1)
  }

  function Counted(rules: Rules, jobs: Jobs, raws: seq<Listing>, seenAt: int): Tally {
    if raws == [] then Tally(jobs, 0, 0, 0, None)
    else Count(rules, Counted(rules, jobs, raws[..|raws| - 1], seenAt), raws[|raws| - 1], seenAt)
  }

  // ---- a pass ----

  datatype Fetch = Failed(error: string) | Got(raws: seq<Listing>)

  /** A registered source and what its fetch yields when it is asked in this pass. */
  datatype Source = Source(id: string, fetch: Fetch)

  datatype SourceReport = SourceReport(source: string, fetched: nat, created: nat, updated: nat, skipped: bool,
                                       err: Option<string>, persistErr: Option<string>)

  type Circuits = map<string, Circuit>

  function CircuitOf(circuits: Circuits, id: string): Circuit {
    if id in circuits then circuits[id] else CLOSED
  }

  function NextCircuit(policy: Policy, c: Circuit, fetch: Fetch, now: int): Circuit {
    if !Allows(policy, c, now) then c else if fetch.Failed? then AfterFailure(policy, c, now) else CLOSED
  }

  predicate Served(policy: Policy, circuits: Circuits, source: Source, now: int) {
    Allows(policy, CircuitOf(circuits, source.id), now) && source.fetch.Got?
  }

  function Report(rules: Rules, policy: Policy, c: Circuit, jobs: Jobs, source: Source, now: int, seenAt: int): SourceReport {
    if !Allows(policy, c, now) then SourceReport(source.id, 0, 0, 0, true, None, None)
    else match source.fetch
    case Failed(error) => SourceReport(source.id, 0, 0, 0, false, Some(error), None)
    case Got(raws) =>
      var t := Counted(rules, jobs, raws, seenAt);
      SourceReport(source.id, t.fetched, t.created, t.updated, false, None, t.persistErr)
  }

  datatype State = State(circuits: Circuits, jobs: Jobs)

  function VisitJobs(rules: Rules, policy: Policy, s: State, source: Source, now: int, seenAt: int): Jobs {
    if Served(policy, s.circuits, source, now) then Counted(rules, s.jobs, source.fetch.raws, seenAt).jobs else s.jobs
  }

  function Visit(rules: Rules, policy: Policy, s: State, source: Source, now: int, seenAt: int): State {
    State(s.circuits[source.id := NextCircuit(policy, CircuitOf(s.circuits, source.id), source.fetch, now)],
          VisitJobs(rules, policy, s, source, now, seenAt))
  }

  function VisitReport(rules: Rules, policy: Policy, s: State, source: Source, now: int, seenAt: int): SourceReport {
    Report(rules, policy, CircuitOf(s.circuits, source.id), s.jobs, source, now, seenAt)
  }

  function Pass(rules: Rules, policy: Policy, s: State, sources: seq<Source>, now: int, seenAt: int): State {
    if sources == [] then s else
    var front := sources[..|sources| - 1];
    Visit(rules, policy, Pass(rules, policy, s, front, now, seenAt), sources[|sources| - 1], now, seenAt)
  }

  function Reports(rules: Rules, policy: Policy, s: State, sources: seq<Source>, now: int, seenAt: int): seq<SourceReport> {
    if sources == [] then [] else
    var front := sources[..|sources| - 1];
    Reports(rules, policy, s, front, now, seenAt) +
    [VisitReport(rules, policy, Pass(rules, policy, s, front, now, seenAt), sources[|sources| - 1], now, seenAt)]
  }

  function SumCreated(reports: seq<SourceReport>): nat {
    if reports == [] then 0 else SumCreated(reports[..|reports| - 1]) + reports[|reports| - 1].created
  }

  /** Writing down a circuit that was closed by default changes nothing. */
  lemma SettledVisit(rules: Rules, policy: Policy, s: State, source: Source, now: int, seenAt: int)
    ensures var settled := s.(circuits := s.circuits[source.id := CircuitOf(s.circuits, source.id)]);
      && Visit(rules, policy, settled, source, now, seenAt) == Visit(rules, policy, s, source, now, seenAt)
      && VisitReport(rules, policy, settled, source, now, seenAt) == VisitReport(rules, policy, s, source, now, seenAt)
  {
  }

  method TotalCreated(reports: seq<SourceReport>) returns (n: nat)
    ensures n == SumCreated(reports)
  {
    n := 0;
    for i := 0 to |reports|
      invariant n == SumCreated(reports[..i])
    {
      assert reports[..i + 1][..i] == reports[..i];
      n := n + reports[i].created;
    }
    assert reports[..|reports|] == reports;
  }

  class Runner {
    const policy: Policy
    const rules: Rules
    const store: MemoryStore
    var breakers: map<string, Breaker>

    /** Every source has a breaker of its own. */
    ghost predicate Valid()
      reads this, breakers.Values
    {
      && store.validUrl == rules.validUrl
      && (forall id :: id in breakers ==> breakers[id].policy == policy)
      && (forall a, b :: a in breakers && b in breakers && a != b ==> breakers[a] != breakers[b])
    }

    ghost function Circuits(): Circuits
      reads this, breakers.Values
    {
      map id | id in breakers :: breakers[id].Reading()
    }

    ghost function Snapshot(): State
      reads this, breakers.Values, store
    {
      State(Circuits(), store.jobs)
    }

    constructor (store: MemoryStore, rules: Rules, maxFailures: int, cooldown: int)
      requires store.validUrl == rules.validUrl
      ensures Valid() && this.store == store && this.rules == rules && breakers == map[]
      ensures policy == PolicyOf(maxFailures, cooldown) && policy.maxFailures > 0 && policy.cooldown > 0
      ensures maxFailures <= 0 ==> policy.maxFailures == 3
      ensures cooldown <= 0 ==> policy.cooldown == 10 * 60 * 1_000_000_000   // ten minutes
    {
      this.store := store;
      this.rules := rules;
      policy := Policy(if maxFailures <= 0 then 3 else maxFailures, if cooldown <= 0 then 10 * MINUTE else cooldown);
      breakers := map[];
    }

    /** Breakers are not shared: what happens to one source's breaker shows in its circuit alone. */
    twostate lemma OthersKeepTheirCircuit(id: string)
      requires old(Valid()) && breakers == old(breakers) && id in breakers
      requires forall other :: other in breakers && other != id ==> unchanged(breakers[other])
      ensures Valid() && Circuits() == old(Circuits())[id := breakers[id].Reading()]
    {
    }

    method BreakerFor(id: string) returns (b: Breaker)
      requires Valid()
      modifies this
      ensures Valid() && id in breakers && breakers[id] == b
      ensures breakers == old(breakers)[id := b] && (b in old(breakers.Values) || fresh(b))
      ensures b.Reading() == CircuitOf(old(Circuits()), id)
      ensures Circuits() == old(Circuits())[id := b.Reading()]
    {
      if id in breakers {
        b := breakers[id];
        assert breakers == breakers[id := b];
      } else {
        b := new Breaker(policy);
        breakers := breakers[id := b];
      }
    }

    method Ingest(raws: seq<Listing>, seenAt: int, report: SourceReport) returns (filled: SourceReport)
      requires store.validUrl == rules.validUrl
      requires report == SourceReport(report.source, 0, 0, 0, false, None, None)
      modifies store
      ensures var t := Counted(rules, old(store.jobs), raws, seenAt);
        store.jobs == t.jobs &&
        filled == report.(fetched := t.fetched, created := t.created, updated := t.updated, persistErr := t.persistErr)
    {
      filled := report;
      for i := 0 to |raws|
        invariant var t := Counted(rules, old(store.jobs), raws[..i], seenAt);
          store.jobs == t.jobs &&
          filled == report.(fetched := t.fetched, created := t.created, updated := t.updated, persistErr := t.persistErr)
      {
        assert raws[..i + 1][..i] == raws[..i];
        var normalized := rules.normalize(raws[i]);
        if normalized.None? {
          continue;
        }
        var job := normalized.value;
        if !rules.inRegion(job) {
          continue;
        }
        filled := filled.(fetched := filled.fetched + 1);
        var created := store.Upsert(job, seenAt);
        if created.None? {
          filled := filled.(persistErr := Some(job.sourceUrl));
          continue;
        }
        if created.value {
          filled := filled.(created := filled.created + 1);
        } else {
          filled := filled.(updated := filled.updated + 1);
        }
      }
      assert raws[..|raws|] == raws;
    }

    /** One source of a pass, behind its breaker. */
    method Attempt(b: Breaker, source: Source, now: int, seenAt: int) returns (report: SourceReport)
      requires Valid() && source.id in breakers && breakers[source.id] == b
      modifies b, store
      ensures Valid()
      ensures Circuits() == old(Circuits())[source.id := NextCircuit(policy, old(b.Reading()), source.fetch, now)]
      ensures store.jobs == VisitJobs(rules, policy, old(Snapshot()), source, now, seenAt)
      ensures report == VisitReport(rules, policy, old(Snapshot()), source, now, seenAt)
    {
      report := SourceReport(source.id, 0, 0, 0, false, None, None);
      var allowed := b.Allow(now);
      if !allowed {
        report := report.(skipped := true);
        assert Circuits() == Circuits()[source.id := b.Reading()];
        return;
      }
      if source.fetch.Failed? {
        b.OnFailure(now);
        OthersKeepTheirCircuit(source.id);
        report := report.(err := Some(source.fetch.error));
        return;
      }
      b.OnSuccess();
      report := Ingest(source.fetch.raws, seenAt, report);
      OthersKeepTheirCircuit(source.id);
    }

    method VisitSource(source: Source, now: int, seenAt: int) returns (report: SourceReport)
      requires Valid()
      modifies this, breakers.Values, store
      ensures Valid() && fresh(breakers.Values - old(breakers.Values))
      ensures Snapshot() == Visit(rules, policy, old(Snapshot()), source, now, seenAt)
      ensures report == VisitReport(rules, policy, old(Snapshot()), source, now, seenAt)
    {
      ghost var s := Snapshot();
      var b := BreakerFor(source.id);
      SettledVisit(rules, policy, s, source, now, seenAt);
      report := Attempt(b, source, now, seenAt);
    }

    method RunOnce(sources: seq<Source>, now: int, seenAt: int) returns (reports: seq<SourceReport>)
      requires Valid()
      modifies this, breakers.Values, store
      ensures Valid() && fresh(breakers.Values - old(breakers.Values))
      ensures Snapshot() == Pass(rules, policy, old(Snapshot()), sources, now, seenAt)
      ensures reports == Reports(rules, policy, old(Snapshot()), sources, now, seenAt)
    {
      reports := [];
      for i := 0 to |sources|
        invariant Valid() && fresh(breakers.Values - old(breakers.Values))
        invariant Snapshot() == Pass(rules, policy, old(Snapshot()), sources[..i], now, seenAt)
        invariant reports == Reports(rules, policy, old(Snapshot()), sources[..i], now, seenAt)
      {
        assert sources[..i + 1][..i] == sources[..i];
        var report := VisitSource(sources[i], now, seenAt);
        reports := reports + [report];
      }
      assert sources[..|sources|] == sources;
    }
  }
}
