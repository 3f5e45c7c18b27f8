/** The pages that the service hands out when a client asks for one after the other. */
module ServedFeed {
  import opened FeedQuery
  import opened FeedStore
  import opened Options
  import opened Sql
  import Text

  /** How long a page is after the limit has been bounded, and where page `k` starts. */
  function PageLength(limit: int): nat {
    if limit <= 0 then DEFAULT_LIMIT else if limit > MAX_LIMIT then MAX_LIMIT else limit
  }

  function ServedStart(limit: int, k: nat): nat {
    if limit <= 0 then 0 else PageStart(limit, k)
  }

  lemma ServedPageIsSlice(jobs: seq<Job>, q: JobQuery, limit: int, k: nat)
    ensures ServedPage(jobs, At(q, limit, k)).jobs ==
            Slice(Sorted(Matching(jobs, q)), ServedStart(limit, k), PageLength(limit))
  {
    assert NormalizeQuery(At(q, limit, k)) == q.(limit := PageLength(limit), offset := ServedStart(limit, k));
    PageIsSlice(jobs, q, PageLength(limit), ServedStart(limit, k));
  }

  // ---- which feed positions are reached ----

  /** Positions past the bounded length of a page are skipped when the client goes on by the limit it asked
      for; without a limit it gets the first page again and again. */
  predicate Reached(limit: int, i: nat) {
    if limit <= 0 then i < DEFAULT_LIMIT else i % limit < MAX_LIMIT
  }

  predicate OnPage(limit: int, i: nat, k: nat) {
    ServedStart(limit, k) <= i < ServedStart(limit, k) + PageLength(limit)
  }

  lemma {:induction false} PageStartIsProduct(limit: int, k: nat)
    ensures PageStart(limit, k) == limit * k
  {
    if k > 0 {
      PageStartIsProduct(limit, k - 1);
      assert limit * (k - 1) + limit == limit * k;
    }
  }

  lemma SmallMultiple(d: int, m: int)
    requires d >= 1 && d * m < d
    ensures m <= 0
  {
  }

  lemma RemainderOf(limit: int, i: nat, k: nat)
    requires limit >= 1 && limit * k <= i < limit * k + limit
    ensures i % limit == i - limit * k
  {
    var m := i / limit - k;
    assert limit * m == i - i % limit - limit * k;
    SmallMultiple(limit, m);
    assert limit * -m == -(limit * m);
    SmallMultiple(limit, -m);
  }

  lemma OnPageIsReached(limit: int, i: nat, k: nat)
    requires OnPage(limit, i, k)
    ensures Reached(limit, i)
  {
    if limit > 0 {
      PageStartIsProduct(limit, k);
      RemainderOf(limit, i, k);
    }
  }

  lemma Quotient(limit: int, i: nat)
    requires limit >= 1
    ensures 0 <= i / limit && i == limit * (i / limit) + i % limit && 0 <= i % limit < limit
  {
  }

  lemma ReachedIsOnPage(limit: int, i: nat) returns (k: nat)
    requires Reached(limit, i)
    ensures OnPage(limit, i, k)
  {
    if limit <= 0 {
      k := 0;
    } else {
      k := i / limit;
      Quotient(limit, i);
      PageStartIsProduct(limit, k);
    }
  }

  lemma ReachedExactly(limit: int, i: nat)
    ensures (exists k: nat :: OnPage(limit, i, k)) <==> Reached(limit, i)
  {
    if Reached(limit, i) {
      var k := ReachedIsOnPage(limit, i);
    }
    forall k: nat | OnPage(limit, i, k) ensures Reached(limit, i) {
      OnPageIsReached(limit, i, k);
    }
  }

  lemma PositionsInSlice(s: seq<Job>, offset: nat, length: nat, i: nat)
    requires DistinctKeys(s) && i < |s|
    ensures s[i] in Slice(s, offset, length) <==> offset <= i < offset + length
  {
    var slice := Slice(s, offset, length);
    if offset <= i < offset + length {
      assert slice[i - offset] == s[i];
    }
    if s[i] in slice {
      var k :| 0 <= k < |slice| && slice[k] == s[i];
      assert slice[k] == s[offset + k];
    }
  }

  lemma SortedHasDistinctKeys(jobs: seq<Job>, q: JobQuery)
    requires DistinctKeys(jobs)
    ensures DistinctKeys(Sorted(Matching(jobs, q))) && |Sorted(Matching(jobs, q))| == |Matching(jobs, q)|
    ensures forall j :: j in Sorted(Matching(jobs, q)) <==> j in jobs && Matches(q, j)
  {
    var matched := Matching(jobs, q);
    MatchingKeepsKeysDistinct(jobs, q);
    MatchingIsAFilter(jobs, q);
    SortedPermutes(matched);
    SortedLength(matched);
    SameMultisetKeys(Sorted(matched), matched);
    forall j ensures j in Sorted(matched) <==> j in matched {
      assert j in multiset(Sorted(matched)) <==> j in multiset(matched);
    }
  }

  ghost predicate Served(jobs: seq<Job>, q: JobQuery, limit: int, j: Job) {
    exists k: nat :: j in ServedPage(jobs, At(q, limit, k)).jobs
  }

  /** The job at feed position `i` is on a page exactly if the position is reached. */
  lemma PositionServedExactly(jobs: seq<Job>, q: JobQuery, limit: int, i: nat)
    requires DistinctKeys(jobs) && i < |Sorted(Matching(jobs, q))|
    ensures Served(jobs, q, limit, Sorted(Matching(jobs, q))[i]) <==> Reached(limit, i)
    ensures Reached(limit, i) <==> if limit <= 0 then i < 20 else i % limit < 100
  {
    var s := Sorted(Matching(jobs, q));
    SortedHasDistinctKeys(jobs, q);
    ReachedExactly(limit, i);
    forall k: nat ensures s[i] in ServedPage(jobs, At(q, limit, k)).jobs <==> OnPage(limit, i, k) {
      ServedPageIsSlice(jobs, q, limit, k);
      PositionsInSlice(s, ServedStart(limit, k), PageLength(limit), i);
    }
  }

  /** The job's position in the feed is reached. */
  ghost predicate AtReachedPosition(jobs: seq<Job>, q: JobQuery, limit: int, j: Job) {
    exists i :: 0 <= i < |Sorted(Matching(jobs, q))| && Sorted(Matching(jobs, q))[i] == j && Reached(limit, i)
  }

  lemma ServedMatches(jobs: seq<Job>, q: JobQuery, limit: int, j: Job)
    requires DistinctKeys(jobs) && Served(jobs, q, limit, j)
    ensures j in Sorted(Matching(jobs, q))
  {
    var k: nat :| j in ServedPage(jobs, At(q, limit, k)).jobs;
    ServedPageIsSlice(jobs, q, limit, k);
    var slice := Slice(Sorted(Matching(jobs, q)), ServedStart(limit, k), PageLength(limit));
    assert forall x :: x in slice ==> x in Sorted(Matching(jobs, q));
  }

  lemma BoundedLimitReaches(limit: int, i: nat)
    requires 1 <= limit <= MAX_LIMIT
    ensures Reached(limit, i)
  {
  }

  lemma IsServedAt(jobs: seq<Job>, q: JobQuery, limit: int, j: Job, i: nat)
    requires DistinctKeys(jobs) && i < |Sorted(Matching(jobs, q))| && Sorted(Matching(jobs, q))[i] == j
    ensures Served(jobs, q, limit, j) <==> AtReachedPosition(jobs, q, limit, j)
  {
    SortedHasDistinctKeys(jobs, q);
    PositionServedExactly(jobs, q, limit, i);
    var s := Sorted(Matching(jobs, q));
    forall k | 0 <= k < |s| && s[k] == j ensures k == i {
      SamePlace(s, k, i);
    }
  }

  lemma SamePlace(s: seq<Job>, k: nat, i: nat)
    requires DistinctKeys(s) && k < |s| && i < |s| && s[k] == s[i]
    ensures k == i
  {
  }

  /** A job is on some page exactly if it matches and its position is reached; with a limit between one and the
      maximum, exactly if it matches. */
  lemma JobServedExactly(jobs: seq<Job>, q: JobQuery, limit: int, j: Job)
    requires DistinctKeys(jobs) && j in jobs
    ensures Served(jobs, q, limit, j) <==> Matches(q, j) && AtReachedPosition(jobs, q, limit, j)
    ensures 1 <= limit <= MAX_LIMIT ==> (Served(jobs, q, limit, j) <==> Matches(q, j))
  {
    var s := Sorted(Matching(jobs, q));
    SortedHasDistinctKeys(jobs, q);
    if j in s {
      var i :| 0 <= i < |s| && s[i] == j;
      IsServedAt(jobs, q, limit, j, i);
      if 1 <= limit <= MAX_LIMIT {
        BoundedLimitReaches(limit, i);
      }
    } else if Served(jobs, q, limit, j) {
      ServedMatches(jobs, q, limit, j);
    }
  }

  // ---- every match once ----

  function PagesOf(jobs: seq<Job>, q: JobQuery, limit: int, n: nat): seq<seq<Job>> {
    seq(n, k requires 0 <= k < n => ServedPage(jobs, At(q, limit, k)).jobs)
  }

  /** The first `n` pages, put together. */
  function ServedPages(jobs: seq<Job>, q: JobQuery, limit: int, n: nat): seq<Job> {
    Concat(PagesOf(jobs, q, limit, n))
  }

  /** With a limit between one and the maximum the pages hold every match exactly once, newest first. */
  lemma ServedPagesCover(jobs: seq<Job>, q: JobQuery, limit: int, n: nat)
    requires DistinctKeys(jobs) && 1 <= limit <= MAX_LIMIT && PageStart(limit, n) >= |Matching(jobs, q)|
    ensures var all := ServedPages(jobs, q, limit, n);
      && multiset(all) == multiset(Matching(jobs, q)) && Ascending(all) && DistinctKeys(all)
      && (forall j :: j in all <==> j in jobs && Matches(q, j))
  {
    forall k: nat | k < n ensures ServedPage(jobs, At(q, limit, k)).jobs == FeedPage(jobs, At(q, limit, k)).jobs {
      assert NormalizeQuery(At(q, limit, k)) == At(q, limit, k);
    }
    assert PagesOf(jobs, q, limit, n) == seq(n, k requires 0 <= k < n => FeedPage(jobs, At(q, limit, k)).jobs);
    PagesCoverEachMatchOnce(jobs, q, limit, n);
  }

  /** Some number of pages holds every match exactly once. */
  ghost predicate CoversOnce(jobs: seq<Job>, q: JobQuery, limit: int) {
    exists n: nat :: multiset(ServedPages(jobs, q, limit, n)) == multiset(Matching(jobs, q))
  }

  lemma {:induction false} InNoPage(pages: seq<seq<Job>>, j: Job)
    requires forall k :: 0 <= k < |pages| ==> j !in pages[k]
    ensures j !in Concat(pages)
  {
    if pages != [] {
      InNoPage(pages[..|pages| - 1], j);
    }
  }

  lemma PastABoundedPage(limit: int)
    requires !(1 <= limit <= MAX_LIMIT)
    ensures !Reached(limit, PageLength(limit))
  {
    if limit > MAX_LIMIT {
      RemainderOf(limit, MAX_LIMIT, 0);
    }
  }

  /** The first job past a bounded page is on no page when the limit is out of bounds. */
  lemma FirstMissedJob(jobs: seq<Job>, q: JobQuery, limit: int)
    requires DistinctKeys(jobs) && !(1 <= limit <= MAX_LIMIT) && |Matching(jobs, q)| > PageLength(limit)
    ensures |Sorted(Matching(jobs, q))| == |Matching(jobs, q)|
    ensures var missed := Sorted(Matching(jobs, q))[PageLength(limit)];
      missed in jobs && Matches(q, missed) && !Served(jobs, q, limit, missed)
  {
    var s, i := Sorted(Matching(jobs, q)), PageLength(limit);
    SortedHasDistinctKeys(jobs, q);
    PastABoundedPage(limit);
    assert i < |s| && s[i] in s;
    PositionServedExactly(jobs, q, limit, i);
  }

  lemma MissedIsNotCovered(jobs: seq<Job>, q: JobQuery, limit: int, missed: Job)
    requires missed in jobs && Matches(q, missed) && !Served(jobs, q, limit, missed)
    ensures !CoversOnce(jobs, q, limit)
  {
    MatchingIsAFilter(jobs, q);
    assert missed in multiset(Matching(jobs, q));
    forall n: nat ensures missed !in multiset(ServedPages(jobs, q, limit, n)) {
      var pages := PagesOf(jobs, q, limit, n);
      forall k: nat | k < n ensures missed !in pages[k] {
        assert pages[k] == ServedPage(jobs, At(q, limit, k)).jobs;
      }
      InNoPage(pages, missed);
    }
  }

  lemma OnePage(page: seq<Job>)
    ensures Concat([page]) == page
  {
    assert [page][..0] == [];
  }

  lemma OnePageIsAll(jobs: seq<Job>, q: JobQuery, limit: int)
    requires |Matching(jobs, q)| <= PageLength(limit)
    ensures CoversOnce(jobs, q, limit)
  {
    var s, page := Sorted(Matching(jobs, q)), ServedPage(jobs, At(q, limit, 0)).jobs;
    ServedPageIsSlice(jobs, q, limit, 0);
    SortedLength(Matching(jobs, q));
    SortedPermutes(Matching(jobs, q));
    assert page == s;
    assert PagesOf(jobs, q, limit, 1) == [page];
    OnePage(page);
    assert multiset(ServedPages(jobs, q, limit, 1)) == multiset(Matching(jobs, q));
  }

  lemma {:induction false} EnoughPages(limit: nat, n: nat)
    requires limit >= 1
    ensures PageStart(limit, n) >= n
  {
    if n > 0 {
      EnoughPages(limit, n - 1);
    }
  }

  lemma ManyPagesAreAll(jobs: seq<Job>, q: JobQuery, limit: int)
    requires DistinctKeys(jobs) && 1 <= limit <= MAX_LIMIT
    ensures CoversOnce(jobs, q, limit)
  {
    EnoughPages(limit, |Matching(jobs, q)|);
    ServedPagesCover(jobs, q, limit, |Matching(jobs, q)|);
  }

  /** For each store and query: the pages cover every match once exactly if the limit is between one and the
      maximum, or all matches fit on one page. */
  lemma CoversOnceExactly(jobs: seq<Job>, q: JobQuery, limit: int)
    requires DistinctKeys(jobs)
    ensures CoversOnce(jobs, q, limit) <==> 1 <= limit <= MAX_LIMIT || |Matching(jobs, q)| <= PageLength(limit)
  {
    if 1 <= limit <= MAX_LIMIT {
      ManyPagesAreAll(jobs, q, limit);
    } else if |Matching(jobs, q)| <= PageLength(limit) {
      OnePageIsAll(jobs, q, limit);
    } else {
      FirstMissedJob(jobs, q, limit);
      MissedIsNotCovered(jobs, q, limit, Sorted(Matching(jobs, q))[PageLength(limit)]);
    }
  }

  // ---- a store that needs a second page ----

  function Numbered(n: nat): Job {
    Job("board", seq(n, _ => 'x'), "", "", "", true, None, None, "", None, [], None, "", false)
  }

  const ANY_JOB := JobQuery("", None, None, "", None, [], None, "", "", None, 0, 0)

  function Many(n: nat): (jobs: seq<Job>)
    ensures |jobs| == n && forall i :: 0 <= i < n ==> jobs[i] == Numbered(i)
  {
    if n == 0 then [] else Many(n - 1) + [Numbered(n - 1)]
  }

  lemma {:induction false} ManyMatch(n: nat)
    ensures DistinctKeys(Many(n)) && Matching(Many(n), ANY_JOB) == Many(n)
  {
    if n > 0 {
      ManyMatch(n - 1);
      assert Many(n)[..n - 1] == Many(n - 1);
      assert Text.Trim("") == "";
      assert Matches(ANY_JOB, Numbered(n - 1));
    }
    forall i, k | 0 <= i < k < n ensures Many(n)[i].dedupKey != Many(n)[k].dedupKey {
      assert |Many(n)[i].dedupKey| == i && |Many(n)[k].dedupKey| == k;
    }
  }

  /** More jobs than a page holds, under a limit out of bounds: one is on no page. */
  lemma MissedAmongMany(n: nat, limit: int)
    requires !(1 <= limit <= MAX_LIMIT) && n > PageLength(limit)
    ensures DistinctKeys(Many(n)) && !CoversOnce(Many(n), ANY_JOB, limit)
    ensures |Sorted(Matching(Many(n), ANY_JOB))| == n
    ensures var missed := Sorted(Matching(Many(n), ANY_JOB))[PageLength(limit)];
      missed in Many(n) && Matches(ANY_JOB, missed) && !Served(Many(n), ANY_JOB, limit, missed)
  {
    ManyMatch(n);
    FirstMissedJob(Many(n), ANY_JOB, limit);
    CoversOnceExactly(Many(n), ANY_JOB, limit);
  }

  /** With 101 jobs and a limit of 101 the last job of the feed is on no page. */
  lemma JobMissedAtLimit101()
    ensures |Sorted(Matching(Many(101), ANY_JOB))| == 101
    ensures var missed := Sorted(Matching(Many(101), ANY_JOB))[100];
      missed in Many(101) && Matches(ANY_JOB, missed) && !Served(Many(101), ANY_JOB, 101, missed)
  {
    MissedAmongMany(101, 101);
  }

  /** Over all stores and queries: the pages cover every match once exactly if the limit is between one and
      the maximum. */
  lemma PageSizesExactly(limit: int)
    ensures (forall jobs, q :: DistinctKeys(jobs) ==> CoversOnce(jobs, q, limit)) <==> 1 <= limit <= 100
  {
    if 1 <= limit <= MAX_LIMIT {
      forall jobs, q | DistinctKeys(jobs) ensures CoversOnce(jobs, q, limit) {
        CoversOnceExactly(jobs, q, limit);
      }
    } else {
      MissedAmongMany(PageLength(limit) + 1, limit);
    }
  }

  /** The same for the pages that Postgres serves one user, whose reference is the list of active jobs that
      the user has not hidden; paging does not change whether the query is accepted. */
  lemma SqlPagesExactly(table: Table, dismissed: set<(string, string)>, user: string, q: JobQuery, limit: int)
    requires TableOk(table)
    ensures var jobs := Visible(Active(table), dismissed, user);
      && DistinctKeys(jobs)
      && (CoversOnce(jobs, q, limit) <==> 1 <= limit <= MAX_LIMIT || |Matching(jobs, q)| <= PageLength(limit))
      && (forall j :: j in jobs ==> (Served(jobs, q, limit, j) <==> Matches(q, j) && AtReachedPosition(jobs, q, limit, j)))
    ensures forall k: nat :: ValidQuery(At(q, limit, k)) == ValidQuery(q)
  {
    var jobs := Visible(Active(table), dismissed, user);
    ActiveKeepsKeysDistinct(table);
    VisibleKeepsKeysDistinct(Active(table), dismissed, user);
    CoversOnceExactly(jobs, q, limit);
    forall j | j in jobs
      ensures Served(jobs, q, limit, j) <==> Matches(q, j) && AtReachedPosition(jobs, q, limit, j)
    {
      JobServedExactly(jobs, q, limit, j);
    }
  }
}
