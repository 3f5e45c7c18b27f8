/** What a pass stores and reports, told without following its loops. */
module PassTheorems {
  import opened ConditionalFetch
  import opened FeedQuery
  import opened Ingestion
  import opened ListingStore
  import opened Options

  /** A source can be registered only once. */
  predicate DistinctIds(sources: seq<Source>) {
    forall i, k :: 0 <= i < k < |sources| ==> sources[i].id != sources[k].id
  }

  /** The jobs of the region among the listings, in order. */
  function Wanted(rules: Rules, raws: seq<Listing>): seq<Job> {
    if raws == [] then [] else
    var last := Accepted(rules, raws[|raws| - 1]);
    Wanted(rules, raws[..|raws| - 1]) + if last.Some? then [last.value] else []
  }

  function Storable(rules: Rules, jobs: seq<Job>): seq<Job> {
    if jobs == [] then [] else
    var last := jobs[|jobs| - 1];
    Storable(rules, jobs[..|jobs| - 1]) + if rules.validUrl(last.sourceUrl) then [last] else []
  }

  /** The jobs that the served sources of a pass deliver to the store, in order. */
  function Delivered(rules: Rules, policy: Policy, circuits: Circuits, sources: seq<Source>, now: int): seq<Job> {
    if sources == [] then [] else
    var last := sources[|sources| - 1];
    Delivered(rules, policy, circuits, sources[..|sources| - 1], now) +
    if Served(policy, circuits, last, now) then Storable(rules, Wanted(rules, last.fetch.raws)) else []
  }

  /** The last job under a key. */
  function Latest(jobs: seq<Job>, key: string): (r: Option<Job>)
    ensures r.Some? <==> exists i :: 0 <= i < |jobs| && jobs[i].dedupKey == key
    ensures r.Some? ==> r.value in jobs && r.value.dedupKey == key
  {
    if jobs == [] then None
    else if jobs[|jobs| - 1].dedupKey == key then Some(jobs[|jobs| - 1])
    else Latest(jobs[..|jobs| - 1], key)
  }

  lemma {:induction false} LatestOfBoth(a: seq<Job>, b: seq<Job>, key: string)
    ensures Latest(a + b, key) == if Latest(b, key).Some? then Latest(b, key) else Latest(a, key)
  {
    if b == [] {
      assert a + b == a;
    } else {
      assert (a + b)[..|a + b| - 1] == a + b[..|b| - 1];
      LatestOfBoth(a, b[..|b| - 1], key);
    }
  }

  /** The delivered jobs are stored, the last one under each key, as seen now and active; nothing else
      changes. */
  ghost predicate Stores(before: Jobs, delivered: seq<Job>, seenAt: int, after: Jobs) {
    forall key :: StoresAt(before, Latest(delivered, key), seenAt, after, key)
  }

  predicate StoresAt(before: Jobs, latest: Option<Job>, seenAt: int, after: Jobs, key: string) {
    match latest
    case Some(job) => key in after && after[key] == Stored(job, seenAt, false, None)
    case None => (key in after <==> key in before) && (key in before ==> after[key] == before[key])
  }

  lemma StoresInTurn(a: Jobs, js: seq<Job>, b: Jobs, ks: seq<Job>, c: Jobs, seenAt: int)
    requires Stores(a, js, seenAt, b) && Stores(b, ks, seenAt, c)
    ensures Stores(a, js + ks, seenAt, c)
  {
    forall key ensures StoresAt(a, Latest(js + ks, key), seenAt, c, key) {
      LatestOfBoth(js, ks, key);
      assert StoresAt(a, Latest(js, key), seenAt, b, key) && StoresAt(b, Latest(ks, key), seenAt, c, key);
    }
  }

  lemma StoresNothing(jobs: Jobs, seenAt: int)
    ensures Stores(jobs, [], seenAt, jobs)
  {
  }

  lemma StoresOne(jobs: Jobs, job: Job, seenAt: int)
    ensures Stores(jobs, [job], seenAt, Put(jobs, job, seenAt))
  {
    forall key ensures StoresAt(jobs, Latest([job], key), seenAt, Put(jobs, job, seenAt), key) {
      assert Latest([job], key) == if job.dedupKey == key then Some(job) else None;
    }
  }

  /** Every job of the region is counted once, as new, as known or as refused, and the store grows by the
      new ones. */
  ghost predicate AddsUp(jobs: Jobs, wanted: seq<Job>, storable: seq<Job>, seenAt: int, t: Tally) {
    && t.fetched == |wanted|
    && t.created + t.updated == |storable| <= |wanted|
    && |t.jobs| == |jobs| + t.created
    && (t.persistErr.None? <==> |storable| == |wanted|)
    && Stores(jobs, storable, seenAt, t.jobs)
  }

  lemma StorableExtends(rules: Rules, wanted: seq<Job>, job: Job)
    ensures Storable(rules, wanted + [job]) == Storable(rules, wanted) + if rules.validUrl(job.sourceUrl) then [job] else []
  {
    assert (wanted + [job])[..|wanted|] == wanted;
  }

  lemma CountAddsUp(rules: Rules, jobs: Jobs, wanted: seq<Job>, storable: seq<Job>, seenAt: int, t: Tally, raw: Listing)
    requires AddsUp(jobs, wanted, storable, seenAt, t) && Accepted(rules, raw).Some?
    ensures var job := Accepted(rules, raw).value;
      AddsUp(jobs, wanted + [job], storable + if rules.validUrl(job.sourceUrl) then [job] else [], seenAt,
             Count(rules, t, raw, seenAt))
  {
    var job := Accepted(rules, raw).value;
    StoresOne(t.jobs, job, seenAt);
    StoresInTurn(jobs, storable, t.jobs, [job], Put(t.jobs, job, seenAt), seenAt);
    assert storable + [] == storable;
  }

  /** The tally of one source. */
  lemma {:induction false} TallyAddsUp(rules: Rules, jobs: Jobs, raws: seq<Listing>, seenAt: int)
    ensures AddsUp(jobs, Wanted(rules, raws), Storable(rules, Wanted(rules, raws)), seenAt,
                   Counted(rules, jobs, raws, seenAt))
  {
    if raws == [] {
      StoresNothing(jobs, seenAt);
    } else {
      var front, last := raws[..|raws| - 1], raws[|raws| - 1];
      TallyAddsUp(rules, jobs, front, seenAt);
      var wanted, t := Wanted(rules, front), Counted(rules, jobs, front, seenAt);
      if Accepted(rules, last).Some? {
        CountAddsUp(rules, jobs, wanted, Storable(rules, wanted), seenAt, t, last);
        StorableExtends(rules, wanted, Accepted(rules, last).value);
      } else {
        assert wanted + [] == wanted;
      }
    }
  }

  /** A visit changes the circuit of its own source alone. */
  lemma {:induction false} OthersAreUntouched(rules: Rules, policy: Policy, s: State, sources: seq<Source>, now: int,
                                              seenAt: int, id: string)
    requires forall i :: 0 <= i < |sources| ==> sources[i].id != id
    ensures CircuitOf(Pass(rules, policy, s, sources, now, seenAt).circuits, id) == CircuitOf(s.circuits, id)
  {
    if sources != [] {
      OthersAreUntouched(rules, policy, s, sources[..|sources| - 1], now, seenAt, id);
    }
  }

  /** After a pass, the circuit of each source is one step on. */
  lemma {:induction false} CircuitAfterPass(rules: Rules, policy: Policy, s: State, sources: seq<Source>, now: int,
                                            seenAt: int, i: nat)
    requires DistinctIds(sources) && i < |sources|
    ensures CircuitOf(Pass(rules, policy, s, sources, now, seenAt).circuits, sources[i].id) ==
            NextCircuit(policy, CircuitOf(s.circuits, sources[i].id), sources[i].fetch, now)
  {
    var front := sources[..|sources| - 1];
    if i == |sources| - 1 {
      OthersAreUntouched(rules, policy, s, front, now, seenAt, sources[i].id);
    } else {
      CircuitAfterPass(rules, policy, s, front, now, seenAt, i);
    }
  }

  /** What the report of a source must say, from the state before the pass. */
  ghost predicate Tells(rules: Rules, policy: Policy, circuits: Circuits, source: Source, now: int, r: SourceReport) {
    && r.source == source.id
    && (r.skipped <==> !Allows(policy, CircuitOf(circuits, source.id), now))
    && r.err == (if !r.skipped && source.fetch.Failed? then Some(source.fetch.error) else None)
    && r.fetched == (if Served(policy, circuits, source, now) then |Wanted(rules, source.fetch.raws)| else 0)
    && r.created + r.updated ==
       (if Served(policy, circuits, source, now) then |Storable(rules, Wanted(rules, source.fetch.raws))| else 0)
    && (r.persistErr.None? <==> r.fetched == r.created + r.updated)
  }

  lemma VisitTells(rules: Rules, policy: Policy, s: State, source: Source, now: int, seenAt: int)
    ensures Tells(rules, policy, s.circuits, source, now, VisitReport(rules, policy, s, source, now, seenAt))
    ensures |VisitJobs(rules, policy, s, source, now, seenAt)| ==
            |s.jobs| + VisitReport(rules, policy, s, source, now, seenAt).created
    ensures Stores(s.jobs,
                   if Served(policy, s.circuits, source, now) then Storable(rules, Wanted(rules, source.fetch.raws)) else [],
                   seenAt, VisitJobs(rules, policy, s, source, now, seenAt))
  {
    StoresNothing(s.jobs, seenAt);
    if source.fetch.Got? {
      TallyAddsUp(rules, s.jobs, source.fetch.raws, seenAt);
    }
  }

  lemma SameCircuitSameService(rules: Rules, policy: Policy, a: Circuits, b: Circuits, source: Source, now: int)
    requires CircuitOf(a, source.id) == CircuitOf(b, source.id)
    ensures Served(policy, a, source, now) == Served(policy, b, source, now)
    ensures forall r :: Tells(rules, policy, a, source, now, r) == Tells(rules, policy, b, source, now, r)
  {
  }

  /** One report for each source, in their order; the store grows by exactly the total of created jobs and
      holds exactly what the served sources delivered. */
  lemma {:induction false} PassTells(rules: Rules, policy: Policy, s: State, sources: seq<Source>, now: int, seenAt: int)
    requires DistinctIds(sources)
    ensures |Reports(rules, policy, s, sources, now, seenAt)| == |sources|
    ensures forall i :: 0 <= i < |sources| ==>
      Tells(rules, policy, s.circuits, sources[i], now, Reports(rules, policy, s, sources, now, seenAt)[i])
    ensures |Pass(rules, policy, s, sources, now, seenAt).jobs| ==
            |s.jobs| + SumCreated(Reports(rules, policy, s, sources, now, seenAt))
    ensures Stores(s.jobs, Delivered(rules, policy, s.circuits, sources, now), seenAt,
                   Pass(rules, policy, s, sources, now, seenAt).jobs)
  {
    if sources == [] {
      StoresNothing(s.jobs, seenAt);
    } else {
      var front, last := sources[..|sources| - 1], sources[|sources| - 1];
      PassTells(rules, policy, s, front, now, seenAt);
      var mid := Pass(rules, policy, s, front, now, seenAt);
      OthersAreUntouched(rules, policy, s, front, now, seenAt, last.id);
      SameCircuitSameService(rules, policy, s.circuits, mid.circuits, last, now);
      VisitTells(rules, policy, mid, last, now, seenAt);
      var reports := Reports(rules, policy, s, sources, now, seenAt);
      assert reports[..|reports| - 1] == Reports(rules, policy, s, front, now, seenAt);
      var more := if Served(policy, s.circuits, last, now) then Storable(rules, Wanted(rules, last.fetch.raws)) else [];
      StoresInTurn(s.jobs, Delivered(rules, policy, s.circuits, front, now), mid.jobs, more,
                   VisitJobs(rules, policy, mid, last, now, seenAt), seenAt);
    }
  }

  // ---- failing and skipped sources have no effect ----

  function ServedOnly(policy: Policy, circuits: Circuits, sources: seq<Source>, now: int): seq<Source> {
    if sources == [] then [] else
    var last := sources[|sources| - 1];
    ServedOnly(policy, circuits, sources[..|sources| - 1], now) + if Served(policy, circuits, last, now) then [last] else []
  }

  lemma {:induction false} ServedOnlyIsPart(policy: Policy, circuits: Circuits, sources: seq<Source>, now: int)
    requires DistinctIds(sources)
    ensures var part := ServedOnly(policy, circuits, sources, now);
      DistinctIds(part) && forall source :: source in part <==> source in sources && Served(policy, circuits, source, now)
  {
    if sources != [] {
      var front, last := sources[..|sources| - 1], sources[|sources| - 1];
      ServedOnlyIsPart(policy, circuits, front, now);
      var part := ServedOnly(policy, circuits, front, now);
      assert forall i :: 0 <= i < |part| ==> part[i] in front;
      assert sources == front + [last];
    }
  }

  /** The reports of the served sources. */
  function ReportsOfServed(reports: seq<SourceReport>): seq<SourceReport> {
    if reports == [] then [] else
    var last := reports[|reports| - 1];
    ReportsOfServed(reports[..|reports| - 1]) + if !last.skipped && last.err.None? then [last] else []
  }

  lemma SameVisit(rules: Rules, policy: Policy, a: State, b: State, source: Source, now: int, seenAt: int)
    requires a.jobs == b.jobs && CircuitOf(a.circuits, source.id) == CircuitOf(b.circuits, source.id)
    ensures VisitJobs(rules, policy, a, source, now, seenAt) == VisitJobs(rules, policy, b, source, now, seenAt)
    ensures VisitReport(rules, policy, a, source, now, seenAt) == VisitReport(rules, policy, b, source, now, seenAt)
  {
  }

  lemma PassExtends(rules: Rules, policy: Policy, s: State, front: seq<Source>, last: Source, now: int, seenAt: int)
    ensures Pass(rules, policy, s, front + [last], now, seenAt) ==
            Visit(rules, policy, Pass(rules, policy, s, front, now, seenAt), last, now, seenAt)
    ensures Reports(rules, policy, s, front + [last], now, seenAt) ==
            Reports(rules, policy, s, front, now, seenAt) +
            [VisitReport(rules, policy, Pass(rules, policy, s, front, now, seenAt), last, now, seenAt)]
  {
    assert (front + [last])[..|front|] == front;
  }

  lemma ReportsOfServedExtends(reports: seq<SourceReport>, last: SourceReport)
    ensures ReportsOfServed(reports + [last]) ==
            ReportsOfServed(reports) + if !last.skipped && last.err.None? then [last] else []
  {
    assert (reports + [last])[..|reports|] == reports;
  }

  lemma ServedOnlyExtends(policy: Policy, circuits: Circuits, front: seq<Source>, last: Source, now: int)
    ensures ServedOnly(policy, circuits, front + [last], now) ==
            ServedOnly(policy, circuits, front, now) + if Served(policy, circuits, last, now) then [last] else []
  {
    assert (front + [last])[..|front|] == front;
  }

  lemma LastIsDistinct(front: seq<Source>, last: Source)
    requires DistinctIds(front + [last])
    ensures DistinctIds(front) && forall source :: source in front ==> source.id != last.id
  {
    forall i, k | 0 <= i < k < |front| ensures front[i].id != front[k].id {
      assert (front + [last])[i] == front[i] && (front + [last])[k] == front[k];
    }
    forall source | source in front ensures source.id != last.id {
      var i :| 0 <= i < |front| && front[i] == source;
      assert (front + [last])[i] == source && (front + [last])[|front|] == last;
    }
  }

  lemma PartIsUntouched(rules: Rules, policy: Policy, s: State, front: seq<Source>, last: Source, now: int, seenAt: int)
    requires DistinctIds(front + [last])
    ensures var part := ServedOnly(policy, s.circuits, front, now);
      CircuitOf(Pass(rules, policy, s, front, now, seenAt).circuits, last.id) ==
      CircuitOf(Pass(rules, policy, s, part, now, seenAt).circuits, last.id) == CircuitOf(s.circuits, last.id)
  {
    var part := ServedOnly(policy, s.circuits, front, now);
    LastIsDistinct(front, last);
    ServedOnlyIsPart(policy, s.circuits, front, now);
    assert forall i :: 0 <= i < |front| ==> front[i] in front;
    assert forall i :: 0 <= i < |part| ==> part[i] in front;
    OthersAreUntouched(rules, policy, s, front, now, seenAt, last.id);
    OthersAreUntouched(rules, policy, s, part, now, seenAt, last.id);
  }

  /** The pass stores and reports for the healthy sources what it would without the failing and the
      skipped ones. */
  lemma {:induction false} FailuresAreIsolated(rules: Rules, policy: Policy, s: State, sources: seq<Source>, now: int,
                                               seenAt: int)
    requires DistinctIds(sources)
    ensures Pass(rules, policy, s, ServedOnly(policy, s.circuits, sources, now), now, seenAt).jobs ==
            Pass(rules, policy, s, sources, now, seenAt).jobs
    ensures Reports(rules, policy, s, ServedOnly(policy, s.circuits, sources, now), now, seenAt) ==
            ReportsOfServed(Reports(rules, policy, s, sources, now, seenAt))
  {
    if sources != [] {
      var front, last := sources[..|sources| - 1], sources[|sources| - 1];
      assert sources == front + [last];
      LastIsDistinct(front, last);
      FailuresAreIsolated(rules, policy, s, front, now, seenAt);
      PartIsUntouched(rules, policy, s, front, last, now, seenAt);
      IsolationStep(rules, policy, s, front, ServedOnly(policy, s.circuits, front, now),
                    Pass(rules, policy, s, front, now, seenAt),
                    Pass(rules, policy, s, ServedOnly(policy, s.circuits, front, now), now, seenAt), last, now, seenAt);
      ServedOnlyExtends(policy, s.circuits, front, last, now);
    }
  }

  lemma IsolationStep(rules: Rules, policy: Policy, s: State, front: seq<Source>, part: seq<Source>, whole: State,
                      healthy: State, last: Source, now: int, seenAt: int)
    requires whole == Pass(rules, policy, s, front, now, seenAt) && healthy == Pass(rules, policy, s, part, now, seenAt)
    requires whole.jobs == healthy.jobs
    requires Reports(rules, policy, s, part, now, seenAt) == ReportsOfServed(Reports(rules, policy, s, front, now, seenAt))
    requires CircuitOf(whole.circuits, last.id) == CircuitOf(healthy.circuits, last.id) == CircuitOf(s.circuits, last.id)
    ensures var more := part + if Served(policy, s.circuits, last, now) then [last] else [];
      && Pass(rules, policy, s, more, now, seenAt).jobs == Pass(rules, policy, s, front + [last], now, seenAt).jobs
      && Reports(rules, policy, s, more, now, seenAt) ==
         ReportsOfServed(Reports(rules, policy, s, front + [last], now, seenAt))
  {
    PassExtends(rules, policy, s, front, last, now, seenAt);
    var report := VisitReport(rules, policy, whole, last, now, seenAt);
    ReportsOfServedExtends(Reports(rules, policy, s, front, now, seenAt), report);
    SameVisit(rules, policy, whole, healthy, last, now, seenAt);
    VisitTells(rules, policy, whole, last, now, seenAt);
    if Served(policy, s.circuits, last, now) {
      PassExtends(rules, policy, s, part, last, now, seenAt);
    } else {
      assert part + [] == part;
    }
  }
}
