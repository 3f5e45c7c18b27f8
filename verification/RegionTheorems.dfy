/** What a pass stores and counts, told by normalization, the region and the URL check alone. */
module RegionTheorems {
  import opened ConditionalFetch
  import opened FeedQuery
  import opened Ingestion
  import opened ListingStore
  import opened Options
  import opened PassTheorems

  /** The listing normalizes to a job of the region. */
  predicate IsLocal(rules: Rules, raw: Listing) {
    rules.normalize(raw).Some? && rules.inRegion(rules.normalize(raw).value)
  }

  function LocalPlaces(rules: Rules, raws: seq<Listing>): set<nat> {
    set k: nat | k < |raws| && IsLocal(rules, raws[k])
  }

  lemma OneMorePlace(rules: Rules, raws: seq<Listing>, raw: Listing)
    ensures LocalPlaces(rules, raws + [raw]) ==
            if IsLocal(rules, raw) then LocalPlaces(rules, raws) + {|raws|} else LocalPlaces(rules, raws)
  {
    forall k: nat
      ensures k in LocalPlaces(rules, raws + [raw]) <==>
        k in LocalPlaces(rules, raws) || (k == |raws| && IsLocal(rules, raw))
    {
      assert k < |raws| ==> (raws + [raw])[k] == raws[k];
    }
  }

  lemma {:induction false} WantedCount(rules: Rules, raws: seq<Listing>)
    ensures |Wanted(rules, raws)| == |LocalPlaces(rules, raws)|
  {
    if raws != [] {
      var front, last := raws[..|raws| - 1], raws[|raws| - 1];
      WantedCount(rules, front);
      assert raws == front + [last];
      OneMorePlace(rules, front, last);
      assert |front| !in LocalPlaces(rules, front);
    }
  }

  /** It is accepted by the store as well. */
  function AcceptablePlaces(rules: Rules, raws: seq<Listing>): set<nat> {
    set k: nat | k < |raws| && IsLocal(rules, raws[k]) && rules.validUrl(rules.normalize(raws[k]).value.sourceUrl)
  }

  lemma OneMoreAcceptable(rules: Rules, raws: seq<Listing>, raw: Listing)
    ensures AcceptablePlaces(rules, raws + [raw]) ==
            if IsLocal(rules, raw) && rules.validUrl(rules.normalize(raw).value.sourceUrl)
            then AcceptablePlaces(rules, raws) + {|raws|} else AcceptablePlaces(rules, raws)
  {
    forall k: nat
      ensures k in AcceptablePlaces(rules, raws + [raw]) <==>
        k in AcceptablePlaces(rules, raws) ||
        (k == |raws| && IsLocal(rules, raw) && rules.validUrl(rules.normalize(raw).value.sourceUrl))
    {
      assert k < |raws| ==> (raws + [raw])[k] == raws[k];
    }
  }

  lemma {:induction false} StorableCount(rules: Rules, raws: seq<Listing>)
    ensures |Storable(rules, Wanted(rules, raws))| == |AcceptablePlaces(rules, raws)|
  {
    if raws != [] {
      var front, last := raws[..|raws| - 1], raws[|raws| - 1];
      StorableCount(rules, front);
      assert raws == front + [last];
      OneMoreAcceptable(rules, front, last);
      assert |front| !in AcceptablePlaces(rules, front);
      if IsLocal(rules, last) {
        StorableExtends(rules, Wanted(rules, front), rules.normalize(last).value);
      } else {
        assert Wanted(rules, front) + [] == Wanted(rules, front);
      }
    }
  }

  lemma {:induction false} WantedExactly(rules: Rules, raws: seq<Listing>, job: Job)
    ensures job in Wanted(rules, raws) <==>
      exists raw :: raw in raws && rules.normalize(raw) == Some(job) && rules.inRegion(job)
  {
    if raws != [] {
      var front, last := raws[..|raws| - 1], raws[|raws| - 1];
      WantedExactly(rules, front, job);
      assert raws == front + [last];
      if rules.normalize(last) == Some(job) && rules.inRegion(job) {
        assert last in raws;
      }
    }
  }

  lemma {:induction false} StorableExactly(rules: Rules, jobs: seq<Job>, job: Job)
    ensures job in Storable(rules, jobs) <==> job in jobs && rules.validUrl(job.sourceUrl)
  {
    if jobs != [] {
      var front, last := jobs[..|jobs| - 1], jobs[|jobs| - 1];
      StorableExactly(rules, front, job);
      assert jobs == front + [last];
    }
  }

  /** The source is asked in this pass, and one of the listings it delivers normalizes to the job. */
  ghost predicate Delivers(rules: Rules, policy: Policy, circuits: Circuits, source: Source, now: int, job: Job) {
    Allows(policy, CircuitOf(circuits, source.id), now) && source.fetch.Got? &&
    exists raw :: raw in source.fetch.raws && rules.normalize(raw) == Some(job)
  }

  lemma {:induction false} DeliveredExactly(rules: Rules, policy: Policy, circuits: Circuits, sources: seq<Source>, now: int,
                                            job: Job)
    ensures job in Delivered(rules, policy, circuits, sources, now) <==>
      rules.inRegion(job) && rules.validUrl(job.sourceUrl) &&
      exists i :: 0 <= i < |sources| && Delivers(rules, policy, circuits, sources[i], now, job)
  {
    if sources != [] {
      var n := |sources| - 1;
      var front, last := sources[..n], sources[n];
      DeliveredExactly(rules, policy, circuits, front, now, job);
      if last.fetch.Got? {
        WantedExactly(rules, last.fetch.raws, job);
        StorableExactly(rules, Wanted(rules, last.fetch.raws), job);
      }
      assert (exists i :: 0 <= i < |sources| && Delivers(rules, policy, circuits, sources[i], now, job)) <==>
        (exists i :: 0 <= i < |front| && Delivers(rules, policy, circuits, front[i], now, job)) ||
        Delivers(rules, policy, circuits, last, now, job);
    }
  }

  /** A served source's Fetched is the number of its listings that normalize to a job of the region; Created and
      Updated together are the number of those with a valid URL. */
  lemma FetchedCountsTheRegion(rules: Rules, policy: Policy, s: State, sources: seq<Source>, now: int, seenAt: int, i: nat)
    requires DistinctIds(sources) && i < |sources|
    ensures |Reports(rules, policy, s, sources, now, seenAt)| == |sources|
    ensures Reports(rules, policy, s, sources, now, seenAt)[i].fetched ==
            if Allows(policy, CircuitOf(s.circuits, sources[i].id), now) && sources[i].fetch.Got?
            then |LocalPlaces(rules, sources[i].fetch.raws)| else 0
    ensures var r := Reports(rules, policy, s, sources, now, seenAt)[i];
      r.created + r.updated ==
        if Allows(policy, CircuitOf(s.circuits, sources[i].id), now) && sources[i].fetch.Got?
        then |AcceptablePlaces(rules, sources[i].fetch.raws)| else 0
  {
    PassTells(rules, policy, s, sources, now, seenAt);
    assert Tells(rules, policy, s.circuits, sources[i], now, Reports(rules, policy, s, sources, now, seenAt)[i]);
    if sources[i].fetch.Got? {
      WantedCount(rules, sources[i].fetch.raws);
      StorableCount(rules, sources[i].fetch.raws);
    }
  }

  /** Whatever a pass changes in the store is a job of the region with a valid URL that an asked source
      delivered, as seen now and active. */
  lemma OnlyTheRegionIsStored(rules: Rules, policy: Policy, s: State, sources: seq<Source>, now: int, seenAt: int,
                              key: string)
    requires DistinctIds(sources)
    requires var after := Pass(rules, policy, s, sources, now, seenAt).jobs;
      key in after && (key in s.jobs ==> after[key] != s.jobs[key])
    ensures var stored := Pass(rules, policy, s, sources, now, seenAt).jobs[key];
      && stored.job.dedupKey == key && rules.inRegion(stored.job) && rules.validUrl(stored.job.sourceUrl)
      && stored.lastSeen == seenAt && !stored.stale && stored.staleAt == None
      && exists i :: 0 <= i < |sources| && Delivers(rules, policy, s.circuits, sources[i], now, stored.job)
  {
    PassTells(rules, policy, s, sources, now, seenAt);
    var delivered := Delivered(rules, policy, s.circuits, sources, now);
    assert StoresAt(s.jobs, Latest(delivered, key), seenAt, Pass(rules, policy, s, sources, now, seenAt).jobs, key);
    DeliveredExactly(rules, policy, s.circuits, sources, now, Latest(delivered, key).value);
  }

  /** Every job of the region with a valid URL that an asked source delivers has its key stored, seen now and
      active; no listing is ever removed. */
  lemma TheRegionIsStored(rules: Rules, policy: Policy, s: State, sources: seq<Source>, now: int, seenAt: int, i: nat,
                          job: Job)
    requires DistinctIds(sources) && i < |sources| && Delivers(rules, policy, s.circuits, sources[i], now, job)
    requires rules.inRegion(job) && rules.validUrl(job.sourceUrl)
    ensures var after := Pass(rules, policy, s, sources, now, seenAt).jobs;
      && job.dedupKey in after
      && after[job.dedupKey].lastSeen == seenAt && !after[job.dedupKey].stale
      && s.jobs.Keys <= after.Keys
  {
    PassTells(rules, policy, s, sources, now, seenAt);
    var delivered := Delivered(rules, policy, s.circuits, sources, now);
    var after := Pass(rules, policy, s, sources, now, seenAt).jobs;
    DeliveredExactly(rules, policy, s.circuits, sources, now, job);
    var k :| 0 <= k < |delivered| && delivered[k] == job;
    assert StoresAt(s.jobs, Latest(delivered, job.dedupKey), seenAt, after, job.dedupKey);
    forall key | key in s.jobs ensures key in after {
      assert StoresAt(s.jobs, Latest(delivered, key), seenAt, after, key);
    }
  }
}
