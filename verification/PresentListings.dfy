/** A listing that stays at its source stays in the feed, also through 304 replays. */
module PresentListings {
  import opened ConditionalFetch
  import opened FeedQuery
  import opened Ingestion
  import opened IngestionRuns
  import opened ListingStore
  import opened Options
  import opened PassTheorems

  /** A source that fetches through the conditional store: its fetch number `i`. */
  function Via(decode: Decoder, xs: seq<Exchange>, i: nat): Fetch
    requires i < |xs|
  {
    var listings := Fetched(decode, xs, i);
    if listings.Some? then Got(listings.value) else Failed("fetch failed")
  }

  /** The source holds this listing at the time of the exchange. */
  predicate Offers(decode: Decoder, x: Exchange, raw: Listing) {
    var listings := decode(Limited(x.version.body));
    listings.Some? && raw in listings.value
  }

  /** The job that a listing becomes in the store, if it becomes one. */
  predicate Becomes(rules: Rules, raw: Listing, job: Job) {
    rules.normalize(raw) == Some(job) && rules.inRegion(job) && rules.validUrl(job.sourceUrl)
  }

  lemma {:induction false} WantedIncludes(rules: Rules, raws: seq<Listing>, raw: Listing, job: Job)
    requires raw in raws && Becomes(rules, raw, job)
    ensures job in Wanted(rules, raws)
  {
    var front := raws[..|raws| - 1];
    assert raws == front + [raws[|raws| - 1]];
    if raw != raws[|raws| - 1] {
      WantedIncludes(rules, front, raw, job);
    }
  }

  lemma {:induction false} StorableIncludes(rules: Rules, jobs: seq<Job>, job: Job)
    requires job in jobs && rules.validUrl(job.sourceUrl)
    ensures job in Storable(rules, jobs)
  {
    var front := jobs[..|jobs| - 1];
    assert jobs == front + [jobs[|jobs| - 1]];
    if job != jobs[|jobs| - 1] {
      StorableIncludes(rules, front, job);
    }
  }

  lemma {:induction false} DeliveredIncludes(rules: Rules, policy: Policy, circuits: Circuits, sources: seq<Source>, now: int,
                                             source: nat, raw: Listing, job: Job)
    requires source < |sources| && Served(policy, circuits, sources[source], now)
    requires raw in sources[source].fetch.raws && Becomes(rules, raw, job)
    ensures job in Delivered(rules, policy, circuits, sources, now)
  {
    if source == |sources| - 1 {
      WantedIncludes(rules, sources[source].fetch.raws, raw, job);
      StorableIncludes(rules, Wanted(rules, sources[source].fetch.raws), job);
    } else {
      DeliveredIncludes(rules, policy, circuits, sources[..|sources| - 1], now, source, raw, job);
    }
  }

  /** It holds the listing with this key, whatever its details are at the moment. */
  ghost predicate OffersKey(decode: Decoder, x: Exchange, rules: Rules, key: string) {
    exists raw, job :: OffersAs(decode, x, rules, key, raw, job)
  }

  predicate OffersAs(decode: Decoder, x: Exchange, rules: Rules, key: string, raw: Listing, job: Job) {
    Offers(decode, x, raw) && Becomes(rules, raw, job) && job.dedupKey == key
  }

  /** The source is asked in this pass and answers. */
  predicate Succeeds(u: Setup, s: State, e: Event, source: nat) {
    e.PassEvent? && source < |e.sources| && Served(u.policy, s.circuits, e.sources[source], e.now)
  }

  lemma PresentIsSeen(u: Setup, s: State, e: Event, source: nat, decode: Decoder, xs: seq<Exchange>, i: nat, key: string)
    requires Labelled(xs) && i < |xs| && OffersKey(decode, xs[i], u.rules, key)
    requires Succeeds(u, s, e, source) && e.sources[source].fetch == Via(decode, xs, i)
    ensures Sees(u, s, e, key)
  {
    var raw, job :| OffersAs(decode, xs[i], u.rules, key, raw, job);
    ReplayIsTransparent(decode, xs, i);
    DeliveredIncludes(u.rules, u.policy, s.circuits, e.sources, e.now, source, raw, job);
  }

  lemma {:induction false} LastSuccess(u: Setup, run: seq<State>, es: seq<Event>, n: nat, p: nat, source: nat) returns (q: nat)
    requires p < n <= |es| < |run| && Succeeds(u, run[p], es[p], source)
    ensures p <= q < n && Succeeds(u, run[q], es[q], source) && forall i :: q < i < n ==> !Succeeds(u, run[i], es[i], source)
    decreases n
  {
    if n == p + 1 || Succeeds(u, run[n - 1], es[n - 1], source) {
      q := n - 1;
    } else {
      q := LastSuccess(u, run, es, n - 1, p, source);
    }
  }

  /** After a successful pass the next one follows in less than the maximal age. */
  ghost predicate Followed(u: Setup, run: seq<State>, es: seq<Event>, q: nat, source: nat, maxAge: int)
    requires q < |es| < |run| && es[q].PassEvent?
  {
    exists next :: q < next < |es| && Succeeds(u, run[next], es[next], source) && es[next].seenAt - es[q].seenAt < maxAge
  }

  /** From event `p` on, every pass that the source answers fetches through its conditional store, at a moment
      at which the source holds the listing with this key. */
  ghost predicate StaysOffered(u: Setup, run: seq<State>, es: seq<Event>, p: nat, n: nat, source: nat, decode: Decoder,
                               xs: seq<Exchange>, slots: seq<nat>, key: string)
    requires n <= |es| < |run|
  {
    && |slots| == |es|
    && forall i :: p <= i < n && Succeeds(u, run[i], es[i], source) ==>
         slots[i] < |xs| && es[i].sources[source].fetch == Via(decode, xs, slots[i]) &&
         OffersKey(decode, xs[slots[i]], u.rules, key)
  }

  /** From event `p` on, successful passes are less than the maximal age of each sweep apart. */
  ghost predicate Frequent(u: Setup, run: seq<State>, es: seq<Event>, p: nat, n: nat, source: nat)
    requires n <= |es| < |run|
  {
    forall q, i :: p <= q < i < n && Succeeds(u, run[q], es[q], source) && es[i].SweepEvent? ==>
      Followed(u, run, es, q, source, es[i].maxAge)
  }

  /** The last successful pass before a sweep was less than the maximal age ago. */
  lemma SweepIsInTime(u: Setup, run: seq<State>, es: seq<Event>, n: nat, p: nat, i: nat, source: nat) returns (q: nat)
    requires Clocked(es) && p < i < n <= |es| < |run| && es[i].SweepEvent?
    requires Succeeds(u, run[p], es[p], source) && Frequent(u, run, es, p, n, source)
    ensures p <= q < i && Succeeds(u, run[q], es[q], source) && es[i].now - es[q].seenAt < es[i].maxAge
  {
    q := LastSuccess(u, run, es, i, p, source);
    assert Followed(u, run, es, q, source, es[i].maxAge);
    var next :| q < next < |es| && Succeeds(u, run[next], es[next], source) && es[next].seenAt - es[q].seenAt < es[i].maxAge;
    assert i < next;
    assert Instant(es[i]) <= Instant(es[next]);
  }

  /** A listing that stays at its source, though its details may change, is stored by the first successful pass
      and is active ever after, whatever the server answers with 304, when successful passes are less than
      the maximal age apart. */
  lemma PresentListingStaysActive(u: Setup, run: seq<State>, es: seq<Event>, n: nat, p: nat, source: nat, decode: Decoder,
                                  xs: seq<Exchange>, slots: seq<nat>, key: string)
    requires IsRun(u, run, es) && Clocked(es) && Labelled(xs)
    requires p < n <= |es| && Succeeds(u, run[p], es[p], source) && Frequent(u, run, es, p, n, source)
    requires StaysOffered(u, run, es, p, n, source, decode, xs, slots, key)
    ensures key in run[n].jobs && !run[n].jobs[key].stale
  {
    PresentIsSeen(u, run[p], es[p], source, decode, xs, slots[p], key);
    forall i | p < i < n && es[i].SweepEvent? ensures SeenBefore(u, run, es, i, key) {
      var q := SweepIsInTime(u, run, es, n, p, i, source);
      PresentIsSeen(u, run[q], es[q], source, decode, xs, slots[q], key);
    }
    SeenOftenStaysActive(u, run, es, n, p, key);
  }
}
