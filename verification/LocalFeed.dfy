/** The feed over the in-memory store: from a listing at its source to a page of the feed. */
module LocalFeed {
  import opened ConditionalFetch
  import opened FeedQuery
  import opened FeedStore
  import opened Ingestion
  import opened IngestionRuns
  import opened ListingStore
  import opened PresentListings
  import opened ServedFeed

  /** Some listing of the active jobs, each once. */
  ghost predicate ListsActive(jobs: Jobs, listed: seq<Job>) {
    DistinctKeys(listed) && forall job :: job in listed <==> Selected(jobs, true, job)
  }

  lemma SameJobsSameMultiset(a: seq<Job>, b: seq<Job>)
    requires DistinctKeys(a) && DistinctKeys(b) && forall job :: job in a <==> job in b
    ensures multiset(a) == multiset(b)
  {
    forall job ensures multiset(a)[job] == multiset(b)[job] {
      OnceInMultiset(a, job);
      OnceInMultiset(b, job);
      assert job in a <==> job in multiset(a);
      assert job in b <==> job in multiset(b);
    }
  }

  /** A request without personal states: the active jobs are listed and searched. The answer is the
      reference answer, however the active jobs are listed. */
  method ServeActive(store: MemoryStore, query: JobQuery) returns (page: Page)
    requires Keyed(store.jobs)
    ensures forall listed :: ListsActive(store.jobs, listed) ==> page == ServedPage(listed, query)
  {
    var jobs := store.Snapshot(true);
    page := Search(jobs, NormalizeQuery(query));
    forall listed | ListsActive(store.jobs, listed) ensures page == ServedPage(listed, query) {
      SameJobsSameMultiset(jobs, listed);
      FeedPageIgnoresOrder(jobs, listed, NormalizeQuery(query));
    }
  }

  /** From source to page: while a listing stays at its source, its details changing as they may, and successful
      passes are frequent enough, the job stored for it is on a page that the service serves exactly if it matches the
      query and its feed position is reached; with a limit between one and the maximum, exactly if it matches. */
  lemma PresentListingIsServed(u: Setup, run: seq<State>, es: seq<Event>, n: nat, p: nat, source: nat, decode: Decoder,
                               xs: seq<Exchange>, slots: seq<nat>, key: string, listed: seq<Job>, q: JobQuery, limit: int)
    requires IsRun(u, run, es) && Clocked(es) && Labelled(xs) && Keyed(run[0].jobs)
    requires p < n <= |es| && Succeeds(u, run[p], es[p], source) && Frequent(u, run, es, p, n, source)
    requires StaysOffered(u, run, es, p, n, source, decode, xs, slots, key)
    requires ListsActive(run[n].jobs, listed)
    ensures key in run[n].jobs && run[n].jobs[key].job.dedupKey == key
    ensures var stored := run[n].jobs[key].job;
      && (ServedFeed.Served(listed, q, limit, stored) <==>
          Matches(q, stored) && AtReachedPosition(listed, q, limit, stored))
      && (1 <= limit <= MAX_LIMIT ==> (ServedFeed.Served(listed, q, limit, stored) <==> Matches(q, stored)))
  {
    PresentListingStaysActive(u, run, es, n, p, source, decode, xs, slots, key);
    ListingsKeepTheirKeys(u, run, es, n);
    var stored := run[n].jobs[key].job;
    assert Selected(run[n].jobs, true, stored);
    JobServedExactly(listed, q, limit, stored);
  }
}
