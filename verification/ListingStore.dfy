/** The in-memory store of listings (backend/internal/ingest/memstore.go) and the age rule of
    backend/internal/ingest/staleness.go. */
module ListingStore {
  import opened FeedQuery
  import opened Options
  import opened Text

  /** Go's zero time, counted as the instant 0. */
  const NEVER := 0

  datatype Stored = Stored(job: Job, lastSeen: int, stale: bool, staleAt: Option<int>)

  type Jobs = map<string, Stored>

  predicate IsStale(lastSeen: int, now: int, maxAge: int) {
    lastSeen != NEVER && now - lastSeen >= maxAge
  }

  function Put(jobs: Jobs, job: Job, seenAt: int): Jobs {
    jobs[job.dedupKey := Stored(job, seenAt, false, None)]
  }

  /** The keys that a sweep newly marks. */
  function Marked(jobs: Jobs, now: int, maxAge: int): set<string> {
    set key | key in jobs && !jobs[key].stale && IsStale(jobs[key].lastSeen, now, maxAge)
  }

  function Aged(stored: Stored, now: int, maxAge: int): Stored {
    if !stored.stale && IsStale(stored.lastSeen, now, maxAge) then stored.(stale := true, staleAt := Some(now))
    else stored
  }

  function Swept(jobs: Jobs, now: int, maxAge: int): Jobs {
    map key | key in jobs :: Aged(jobs[key], now, maxAge)
  }

  /** A sweep that has yet to visit the keys in `rest`. */
  function SweptBut(jobs: Jobs, now: int, maxAge: int, rest: set<string>): Jobs {
    map key | key in jobs :: if key in rest then jobs[key] else Aged(jobs[key], now, maxAge)
  }

  lemma SweepEnds(jobs: Jobs, now: int, maxAge: int)
    ensures SweptBut(jobs, now, maxAge, jobs.Keys) == jobs
    ensures SweptBut(jobs, now, maxAge, {}) == Swept(jobs, now, maxAge)
    ensures Marked(jobs, now, maxAge) - jobs.Keys == {}
    ensures Marked(jobs, now, maxAge) - {} == Marked(jobs, now, maxAge)
  {
  }

  lemma SweepVisits(jobs: Jobs, now: int, maxAge: int, rest: set<string>, key: string)
    requires key in rest && key in jobs
    ensures SweptBut(jobs, now, maxAge, rest)[key] == jobs[key]
    ensures SweptBut(jobs, now, maxAge, rest - {key}) ==
            SweptBut(jobs, now, maxAge, rest)[key := Aged(jobs[key], now, maxAge)]
    ensures Aged(jobs[key], now, maxAge) == jobs[key] ==>
              SweptBut(jobs, now, maxAge, rest - {key}) == SweptBut(jobs, now, maxAge, rest)
  {
  }

  /** Taking one key out of the rest: the members of `s` outside the rest gain it or stay. */
  lemma OneFewer(s: set<string>, rest: set<string>, key: string)
    requires key in rest
    ensures s - (rest - {key}) == if key in s then s - rest + {key} else s - rest
    ensures |s - (rest - {key})| == |s - rest| + if key in s then 1 else 0
  {
    assert s - (rest - {key}) == if key in s then s - rest + {key} else s - rest;
  }

  function RealActive(jobs: Jobs): set<string> {
    set key | key in jobs && !jobs[key].stale && !jobs[key].job.synthetic
  }

  /** Every listing is stored under its own key. */
  predicate Keyed(jobs: Jobs) {
    forall key :: key in jobs ==> jobs[key].job.dedupKey == key
  }

  predicate Selected(jobs: Jobs, activeOnly: bool, job: Job) {
    job.dedupKey in jobs && jobs[job.dedupKey].job == job && (activeOnly ==> !jobs[job.dedupKey].stale)
  }

  predicate NoLater(a: Job, b: Job) {
    if a.source != b.source then Before(a.source, b.source) else !Before(b.title, a.title)
  }

  lemma NoLaterOrders(a: Job, b: Job, c: Job)
    ensures NoLater(a, b) || NoLater(b, a)
    ensures NoLater(a, b) && NoLater(b, c) ==> NoLater(a, c)
  {
    BeforeIsTotal(a.source, b.source);
    BeforeIsTotal(b.source, c.source);
    BeforeIsTotal(a.source, c.source);
    BeforeIsTotal(a.title, b.title);
    BeforeIsTotal(b.title, c.title);
    BeforeIsTotal(a.title, c.title);
    if Before(a.source, b.source) && Before(b.source, c.source) { BeforeIsTransitive(a.source, b.source, c.source); }
    if Before(c.title, a.title) && Before(a.title, b.title) { BeforeIsTransitive(c.title, a.title, b.title); }
    if Before(b.title, c.title) && Before(c.title, a.title) { BeforeIsTransitive(b.title, c.title, a.title); }
  }

  class MemoryStore {
    const validUrl: string -> bool
    var jobs: Jobs

    constructor (validUrl: string -> bool)
      ensures jobs == map[] && Keyed(jobs) && this.validUrl == validUrl
    {
      this.validUrl := validUrl;
      jobs := map[];
    }

    /** Whether the listing is new; None when its source URL is refused. */
    method Upsert(job: Job, now: int) returns (created: Option<bool>)
      modifies this
      ensures created.None? <==> !validUrl(job.sourceUrl)
      ensures created.None? ==> jobs == old(jobs)
      ensures created.Some? ==> jobs == Put(old(jobs), job, now) && (created.value <==> job.dedupKey !in old(jobs))
      ensures old(Keyed(jobs)) ==> Keyed(jobs)
    {
      if !validUrl(job.sourceUrl) {
        return None;
      }
      var existed := job.dedupKey in jobs;
      jobs := jobs[job.dedupKey := Stored(job, now, false, None)];
      return Some(!existed);
    }

    method SweepStale(maxAge: int, now: int) returns (marked: nat)
      modifies this
      ensures jobs == Swept(old(jobs), now, maxAge)
      ensures marked == |Marked(old(jobs), now, maxAge)|
      ensures old(Keyed(jobs)) ==> Keyed(jobs)
    {
      marked := 0;
      ghost var before := jobs;
      var rest := jobs.Keys;
      SweepEnds(before, now, maxAge);
      while rest != {}
        invariant rest <= before.Keys && jobs == SweptBut(before, now, maxAge, rest)
        invariant marked == |Marked(before, now, maxAge) - rest|
        decreases |rest|
      {
        var key :| key in rest;
        OneFewer(Marked(before, now, maxAge), rest, key);
        SweepVisits(before, now, maxAge, rest, key);
        var stored := jobs[key];
        if !stored.stale && IsStale(stored.lastSeen, now, maxAge) {
          jobs := jobs[key := stored.(stale := true, staleAt := Some(now))];
          marked := marked + 1;
        }
        rest := rest - {key};
      }
    }

    method RealActiveCount() returns (count: nat)
      ensures count == |RealActive(jobs)|
    {
      count := 0;
      var rest := jobs.Keys;
      assert RealActive(jobs) - rest == {};
      while rest != {}
        invariant rest <= jobs.Keys
        invariant count == |RealActive(jobs) - rest|
        decreases |rest|
      {
        var key :| key in rest;
        OneFewer(RealActive(jobs), rest, key);
        if !jobs[key].stale && !jobs[key].job.synthetic {
          count := count + 1;
        }
        rest := rest - {key};
      }
      assert RealActive(jobs) - rest == RealActive(jobs);
    }

    /** Every listing, or every active one, once, by source and title. */
    method Snapshot(activeOnly: bool) returns (out: seq<Job>)
      requires Keyed(jobs)
      ensures forall job :: job in out <==> Selected(jobs, activeOnly, job)
      ensures DistinctKeys(out)
      ensures forall i, k :: 0 <= i < k < |out| ==> NoLater(out[i], out[k])
      ensures forall i, k :: 0 <= i < k < |out| ==>
        out[i].source == out[k].source || Before(out[i].source, out[k].source)
      ensures forall i, k :: 0 <= i < k < |out| && out[i].source == out[k].source ==>
        out[i].title == out[k].title || Before(out[i].title, out[k].title)
    {
      forall a, b
        ensures NoLater(a, b) <==> Before(a.source, b.source) || (a.source == b.source && !Before(b.title, a.title))
      {
        BeforeIsTotal(a.source, b.source);
      }
      forall a, b: string ensures Before(a, b) || a == b || Before(b, a) {
        BeforeIsTotal(a, b);
      }
      out := [];
      var rest := jobs.Keys;
      while rest != {}
        invariant rest <= jobs.Keys
        invariant forall job :: job in out <==> Selected(jobs, activeOnly, job) && job.dedupKey !in rest
        invariant DistinctKeys(out)
        invariant forall i, k :: 0 <= i < k < |out| ==> NoLater(out[i], out[k])
        decreases |rest|
      {
        var key :| key in rest;
        if !(activeOnly && jobs[key].stale) {
          out := Place(jobs[key].job, out);
        }
        rest := rest - {key};
      }
    }
  }

  method Place(job: Job, ordered: seq<Job>) returns (out: seq<Job>)
    requires forall i, k :: 0 <= i < k < |ordered| ==> NoLater(ordered[i], ordered[k])
    requires DistinctKeys(ordered) && forall other :: other in ordered ==> other.dedupKey != job.dedupKey
    ensures forall other :: other in out <==> other in ordered || other == job
    ensures DistinctKeys(out)
    ensures forall i, k :: 0 <= i < k < |out| ==> NoLater(out[i], out[k])
  {
    var at := 0;
    while at < |ordered| && NoLater(ordered[at], job)
      invariant at <= |ordered|
      invariant forall i :: 0 <= i < at ==> NoLater(ordered[i], job)
    {
      at := at + 1;
    }
    forall k | at <= k < |ordered| ensures NoLater(job, ordered[k]) {
      NoLaterOrders(job, ordered[at], ordered[k]);
    }
    out := ordered[..at] + [job] + ordered[at..];
  }

  /** A second sweep at the same instant marks nothing and changes nothing. */
  lemma SecondSweepMarksNothing(jobs: Jobs, now: int, maxAge: int)
    ensures Marked(Swept(jobs, now, maxAge), now, maxAge) == {}
    ensures Swept(Swept(jobs, now, maxAge), now, maxAge) == Swept(jobs, now, maxAge)
  {
    var swept := Swept(jobs, now, maxAge);
    assert forall key :: key in swept && IsStale(swept[key].lastSeen, now, maxAge) ==> swept[key].stale;
  }

  /** The real active listings: storing one adds it unless it is synthetic, a sweep takes away exactly the marked. */
  lemma RealActiveMoves(jobs: Jobs, job: Job, seenAt: int, now: int, maxAge: int)
    ensures RealActive(Put(jobs, job, seenAt)) ==
            if job.synthetic then RealActive(jobs) - {job.dedupKey} else RealActive(jobs) + {job.dedupKey}
    ensures RealActive(Swept(jobs, now, maxAge)) == RealActive(jobs) - Marked(jobs, now, maxAge)
  {
    var put := Put(jobs, job, seenAt);
    forall key ensures key in RealActive(put) <==>
      if key == job.dedupKey then !job.synthetic else key in RealActive(jobs)
    {
    }
  }

  /** A sweep marks exactly the active listings last seen at least `maxAge` ago, with the time of the sweep. */
  lemma MarkedExactly(jobs: Jobs, now: int, maxAge: int, key: string)
    requires key in jobs
    ensures key in Marked(jobs, now, maxAge) <==>
      !jobs[key].stale && jobs[key].lastSeen != 0 && now - jobs[key].lastSeen >= maxAge
    ensures Swept(jobs, now, maxAge)[key] ==
      if key in Marked(jobs, now, maxAge) then Stored(jobs[key].job, jobs[key].lastSeen, true, Some(now)) else jobs[key]
  {
  }

  /** Seeing a listing again makes it active, whatever its state; the others keep theirs. */
  lemma SeenAgainIsActive(jobs: Jobs, job: Job, seenAt: int, now: int, maxAge: int)
    requires now - seenAt < maxAge
    ensures job.dedupKey !in Marked(Put(jobs, job, seenAt), now, maxAge)
    ensures Marked(Put(jobs, job, seenAt), now, maxAge) == Marked(jobs, now, maxAge) - {job.dedupKey}
  {
    var put := Put(jobs, job, seenAt);
    forall key ensures key in Marked(put, now, maxAge) <==> key in Marked(jobs, now, maxAge) && key != job.dedupKey {
    }
  }
}
