/** The feed query: its direct semantics, its order and its pages (backend/internal/feed/query.go). */
module FeedQuery {
  import opened Options
  import opened Text

  /** A listing; times are counted from one fixed instant. */
  datatype Job = Job(
    source: string, dedupKey: string, title: string, company: string, location: string, remote: bool,
    statedMin: Option<int>, statedMax: Option<int>, employmentType: string, yearsExperience: Option<int>,
    requirements: seq<string>, postedAt: Option<int>, sourceUrl: string, synthetic: bool)

  datatype JobQuery = JobQuery(
    search: string, payMin: Option<int>, payMax: Option<int>, location: string, remote: Option<bool>,
    skills: seq<string>, maxYoE: Option<int>, employmentType: string, source: string,
    postedAfter: Option<int>, limit: int, offset: int)

  // ---- the ten filters ----

  predicate SearchTest(q: JobQuery, j: Job) {
    Trim(Lower(q.search)) != "" ==> Contains(Lower(j.title + " " + j.company), Trim(Lower(q.search)))
  }

  predicate PayMinTest(q: JobQuery, j: Job) {
    q.payMin.Some? ==> j.statedMax.Some? && q.payMin.value <= j.statedMax.value
  }

  predicate PayMaxTest(q: JobQuery, j: Job) {
    q.payMax.Some? ==> j.statedMin.Some? && j.statedMin.value <= q.payMax.value
  }

  predicate LocationTest(q: JobQuery, j: Job) {
    Trim(Lower(q.location)) != "" ==> Contains(Lower(j.location), Trim(Lower(q.location)))
  }

  predicate RemoteTest(q: JobQuery, j: Job) {
    q.remote.Some? ==> j.remote == q.remote.value
  }

  predicate EmploymentTest(q: JobQuery, j: Job) {
    q.employmentType != "" ==> j.employmentType == q.employmentType
  }

  predicate SourceTest(q: JobQuery, j: Job) {
    q.source != "" ==> j.source == q.source
  }

  predicate ExperienceTest(q: JobQuery, j: Job) {
    q.maxYoE.Some? ==> j.yearsExperience.None? || j.yearsExperience.value <= q.maxYoE.value
  }

  predicate PostedTest(q: JobQuery, j: Job) {
    q.postedAfter.Some? ==> j.postedAt.Some? && q.postedAfter.value <= j.postedAt.value
  }

  predicate SkillTest(skill: string, j: Job) {
    Lower(Trim(skill)) != "" ==>
      exists r :: r in j.requirements && Contains(Lower(r), Lower(Trim(skill)))
  }

  predicate SkillsTest(skills: seq<string>, j: Job) {
    forall skill :: skill in skills ==> SkillTest(skill, j)
  }

  /** A listing satisfies every filter of the query. */
  predicate Matches(q: JobQuery, j: Job) {
    && SearchTest(q, j) && PayMinTest(q, j) && PayMaxTest(q, j) && LocationTest(q, j) && RemoteTest(q, j)
    && EmploymentTest(q, j) && SourceTest(q, j) && ExperienceTest(q, j) && PostedTest(q, j)
    && SkillsTest(q.skills, j)
  }

  /** `matches`, with its early returns and search loops. */
  method CheckMatch(j: Job, q: JobQuery) returns (ok: bool)
    ensures ok <==> Matches(q, j)
  {
    var s := Trim(Lower(q.search));
    if s != "" {
      if !Contains(Lower(j.title + " " + j.company), s) { return false; }
    }
    if q.payMin.Some? {
      if j.statedMax.None? || j.statedMax.value < q.payMin.value { return false; }
    }
    if q.payMax.Some? {
      if j.statedMin.None? || j.statedMin.value > q.payMax.value { return false; }
    }
    var loc := Trim(Lower(q.location));
    if loc != "" {
      if !Contains(Lower(j.location), loc) { return false; }
    }
    if q.remote.Some? && j.remote != q.remote.value { return false; }
    if q.employmentType != "" && j.employmentType != q.employmentType { return false; }
    if q.source != "" && j.source != q.source { return false; }
    if q.maxYoE.Some? {
      if j.yearsExperience.Some? && j.yearsExperience.value > q.maxYoE.value { return false; }
    }
    if q.postedAfter.Some? {
      if j.postedAt.None? || j.postedAt.value < q.postedAfter.value { return false; }
    }
    ok := CheckSkills(j, q.skills);
  }

  method CheckSkills(j: Job, skills: seq<string>) returns (ok: bool)
    ensures ok <==> SkillsTest(skills, j)
  {
    for i := 0 to |skills|
      invariant forall k :: 0 <= k < i ==> SkillTest(skills[k], j)
    {
      var want := Lower(Trim(skills[i]));
      if want != "" {
        var found := false;
        for r := 0 to |j.requirements|
          invariant found ==> exists x :: x in j.requirements && Contains(Lower(x), want)
          invariant !found ==> forall k :: 0 <= k < r ==> !Contains(Lower(j.requirements[k]), want)
        {
          if Contains(Lower(j.requirements[r]), want) {
            found := true;
            break;
          }
        }
        if !found {
          assert !SkillTest(skills[i], j);
          return false;
        }
      }
    }
    return true;
  }

  // ---- the order ----

  /** Newest first, undated last, then title, then dedup key. */
  predicate Less(a: Job, b: Job) {
    if a.postedAt.Some? && b.postedAt.Some? && a.postedAt.value != b.postedAt.value then
      a.postedAt.value > b.postedAt.value
    else if a.postedAt.None? != b.postedAt.None? then a.postedAt.Some?
    else if a.title != b.title then Before(a.title, b.title)
    else Before(a.dedupKey, b.dedupKey)
  }

  lemma LessIsTotal(a: Job, b: Job)
    ensures a.dedupKey != b.dedupKey ==> (Less(a, b) <==> !Less(b, a))
    ensures !(Less(a, b) && Less(b, a))
  {
    BeforeIsTotal(a.title, b.title);
    BeforeIsTotal(a.dedupKey, b.dedupKey);
  }

  lemma LessIsTransitive(a: Job, b: Job, c: Job)
    requires Less(a, b) && Less(b, c)
    ensures Less(a, c)
  {
    if Before(a.title, b.title) && Before(b.title, c.title) {
      BeforeIsTransitive(a.title, b.title, c.title);
      BeforeIsTotal(a.title, b.title);
      BeforeIsTotal(b.title, c.title);
      BeforeIsTotal(a.title, c.title);
    }
    if Before(a.dedupKey, b.dedupKey) && Before(b.dedupKey, c.dedupKey) {
      BeforeIsTransitive(a.dedupKey, b.dedupKey, c.dedupKey);
    }
  }

  ghost predicate DistinctKeys(jobs: seq<Job>) {
    forall i, k :: 0 <= i < k < |jobs| ==> jobs[i].dedupKey != jobs[k].dedupKey
  }

  /** What a sort by `Less` promises: no pair is out of order. */
  ghost predicate InOrder(jobs: seq<Job>) {
    forall i, k :: 0 <= i < k < |jobs| ==> !Less(jobs[k], jobs[i])
  }

  function Insert(j: Job, sorted: seq<Job>): seq<Job> {
    if sorted == [] || Less(j, sorted[0]) then [j] + sorted else [sorted[0]] + Insert(j, sorted[1..])
  }

  /** The jobs in feed order. */
  function Sorted(jobs: seq<Job>): seq<Job> {
    if jobs == [] then [] else Insert(jobs[|jobs| - 1], Sorted(jobs[..|jobs| - 1]))
  }

  lemma {:induction false} InsertAdds(j: Job, sorted: seq<Job>)
    ensures multiset(Insert(j, sorted)) == multiset(sorted) + multiset{j}
  {
    if sorted != [] && !Less(j, sorted[0]) {
      InsertAdds(j, sorted[1..]);
      assert sorted == [sorted[0]] + sorted[1..];
    }
  }

  lemma LastAdds(front: seq<Job>, last: Job)
    ensures multiset(front + [last]) == multiset(front) + multiset{last}
  {
  }

  lemma {:induction false} SortedPermutes(jobs: seq<Job>)
    ensures multiset(Sorted(jobs)) == multiset(jobs)
  {
    if jobs != [] {
      var front, last := jobs[..|jobs| - 1], jobs[|jobs| - 1];
      SortedPermutes(front);
      InsertAdds(last, Sorted(front));
      LastAdds(front, last);
      assert jobs == front + [last];
    }
  }

  /** Each job comes strictly before all later ones. */
  ghost predicate Ascending(jobs: seq<Job>) {
    forall i, k :: 0 <= i < k < |jobs| ==> Less(jobs[i], jobs[k])
  }

  lemma {:induction false} InsertAscending(j: Job, sorted: seq<Job>)
    requires Ascending(sorted) && forall k :: 0 <= k < |sorted| ==> sorted[k].dedupKey != j.dedupKey
    ensures Ascending(Insert(j, sorted))
  {
    if sorted == [] {
    } else if Less(j, sorted[0]) {
      forall k | 1 <= k < |sorted| ensures Less(j, sorted[k]) {
        LessIsTransitive(j, sorted[0], sorted[k]);
      }
    } else {
      InsertAscending(j, sorted[1..]);
      LessIsTotal(j, sorted[0]);
      var rest := Insert(j, sorted[1..]);
      InsertAdds(j, sorted[1..]);
      forall k | 0 <= k < |rest| ensures Less(sorted[0], rest[k]) {
        assert rest[k] in multiset(rest);
        assert rest[k] == j || rest[k] in sorted[1..];
      }
    }
  }

  lemma {:induction false} SortedAscending(jobs: seq<Job>)
    requires DistinctKeys(jobs)
    ensures Ascending(Sorted(jobs))
  {
    if jobs != [] {
      var front, last := jobs[..|jobs| - 1], jobs[|jobs| - 1];
      SortedAscending(front);
      SortedPermutes(front);
      forall k | 0 <= k < |Sorted(front)| ensures Sorted(front)[k].dedupKey != last.dedupKey {
        assert Sorted(front)[k] in multiset(front);
      }
      InsertAscending(last, Sorted(front));
    }
  }

  lemma SameFirst(s: seq<Job>, t: seq<Job>)
    requires s != [] && t != [] && Ascending(s) && Ascending(t) && multiset(s) == multiset(t)
    ensures s[0] == t[0]
  {
    assert s[0] in multiset(t) && t[0] in multiset(s);
    var i :| 0 <= i < |t| && t[i] == s[0];
    var k :| 0 <= k < |s| && s[k] == t[0];
    if i > 0 && k > 0 {
      LessIsTotal(s[0], t[0]);
    }
  }

  lemma SameRest(s: seq<Job>, t: seq<Job>)
    requires s != [] && t != [] && s[0] == t[0] && multiset(s) == multiset(t)
    ensures multiset(s[1..]) == multiset(t[1..])
  {
    assert s == [s[0]] + s[1..] && t == [t[0]] + t[1..];
    assert multiset(s[1..]) == multiset(s) - multiset{s[0]};
    assert multiset(t[1..]) == multiset(t) - multiset{t[0]};
  }

  /** A strictly ascending arrangement of the same jobs is the only one. */
  lemma {:induction false} AscendingIsUnique(s: seq<Job>, t: seq<Job>)
    requires Ascending(s) && Ascending(t) && multiset(s) == multiset(t)
    ensures s == t
  {
    assert |s| == |multiset(s)| == |multiset(t)| == |t|;
    if s != [] {
      SameFirst(s, t);
      SameRest(s, t);
      AscendingIsUnique(s[1..], t[1..]);
      assert s == [s[0]] + s[1..] && t == [t[0]] + t[1..];
    }
  }

  lemma SameMultisetKeys(s: seq<Job>, t: seq<Job>)
    requires multiset(s) == multiset(t) && DistinctKeys(t)
    ensures DistinctKeys(s)
  {
    forall i, k | 0 <= i < k < |s| ensures s[i].dedupKey != s[k].dedupKey {
      assert s[i] in multiset(t) && s[k] in multiset(t);
      if s[i] == s[k] {
        TwiceInMultiset(s, i, k);
        OnceInMultiset(t, s[i]);
      }
    }
  }

  lemma TwiceInMultiset(s: seq<Job>, i: nat, k: nat)
    requires i < k < |s| && s[i] == s[k]
    ensures multiset(s)[s[i]] >= 2
  {
    assert s == s[..k] + ([s[k]] + s[k + 1..]);
    assert s[..k][i] == s[i];
    assert multiset(s) == multiset(s[..k]) + multiset([s[k]] + s[k + 1..]);
    assert s[i] in multiset(s[..k]);
    assert s[k] in multiset([s[k]] + s[k + 1..]) by {
      assert ([s[k]] + s[k + 1..])[0] == s[k];
    }
  }

  lemma {:induction false} OnceInMultiset(t: seq<Job>, j: Job)
    requires DistinctKeys(t)
    ensures multiset(t)[j] <= 1
  {
    if t != [] {
      var front, last := t[..|t| - 1], t[|t| - 1];
      assert t == front + [last];
      OnceInMultiset(front, j);
      if j == last {
        assert j !in front;
      }
    }
  }

  /** Whatever a correct sort by `Less` returns, on distinct dedup keys it is the feed order. */
  lemma SortIsDetermined(jobs: seq<Job>, r: seq<Job>)
    requires DistinctKeys(jobs) && multiset(r) == multiset(jobs) && InOrder(r)
    ensures r == Sorted(jobs)
  {
    SameMultisetKeys(r, jobs);
    forall i, k | 0 <= i < k < |r| ensures Less(r[i], r[k]) {
      LessIsTotal(r[i], r[k]);
    }
    SortedAscending(jobs);
    SortedPermutes(jobs);
    AscendingIsUnique(r, Sorted(jobs));
  }

  /** What the order means: newest first, undated last, then by title and by key. */
  lemma FeedIsNewestFirst(jobs: seq<Job>, i: nat, k: nat)
    requires DistinctKeys(jobs) && i < k < |Sorted(jobs)|
    ensures var a, b := Sorted(jobs)[i], Sorted(jobs)[k];
      && (b.postedAt.Some? ==> a.postedAt.Some? && a.postedAt.value >= b.postedAt.value)
      && (a.postedAt == b.postedAt ==> a.title == b.title || exists n: nat :: SmallerAt(a.title, b.title, n))
      && (a.postedAt == b.postedAt && a.title == b.title ==> exists n: nat :: SmallerAt(a.dedupKey, b.dedupKey, n))
  {
    var a, b := Sorted(jobs)[i], Sorted(jobs)[k];
    SortedAscending(jobs);
    BeforeIsLexicographic(a.title, b.title);
    BeforeIsLexicographic(a.dedupKey, b.dedupKey);
  }

  // ---- the page ----

  datatype Page = Page(total: nat, jobs: seq<Job>)

  function Matching(jobs: seq<Job>, q: JobQuery): seq<Job> {
    if jobs == [] then [] else
    var last := jobs[|jobs| - 1];
    Matching(jobs[..|jobs| - 1], q) + if Matches(q, last) then [last] else []
  }

  function Min(a: int, b: int): int { if a < b then a else b }

  /** The stretch of at most `limit` jobs that starts at `offset`. */
  function Slice(jobs: seq<Job>, offset: nat, limit: nat): seq<Job> {
    jobs[Min(offset, |jobs|)..Min(Min(offset, |jobs|) + limit, |jobs|)]
  }

  const DEFAULT_LIMIT := 20

  /** The stretch that the query asks for. */
  function Cut(ordered: seq<Job>, q: JobQuery): seq<Job> {
    Slice(ordered, if q.offset < 0 then 0 else q.offset, if q.limit <= 0 then DEFAULT_LIMIT else q.limit)
  }

  /** The reference answer to a query. */
  function FeedPage(jobs: seq<Job>, q: JobQuery): Page {
    var matched := Matching(jobs, q);
    Page(|matched|, Cut(Sorted(matched), q))
  }

  lemma {:induction false} MatchingIsAFilter(jobs: seq<Job>, q: JobQuery)
    ensures forall j :: j in Matching(jobs, q) <==> j in jobs && Matches(q, j)
  {
    if jobs != [] {
      var front, last := jobs[..|jobs| - 1], jobs[|jobs| - 1];
      MatchingIsAFilter(front, q);
      assert jobs == front + [last];
    }
  }

  lemma {:induction false} MatchingKeepsKeysDistinct(jobs: seq<Job>, q: JobQuery)
    requires DistinctKeys(jobs)
    ensures DistinctKeys(Matching(jobs, q))
  {
    if jobs != [] {
      var front, last := jobs[..|jobs| - 1], jobs[|jobs| - 1];
      MatchingKeepsKeysDistinct(front, q);
      MatchingIsAFilter(front, q);
      forall k | 0 <= k < |Matching(front, q)| ensures Matching(front, q)[k].dedupKey != last.dedupKey {
        assert Matching(front, q)[k] in front;
      }
    }
  }

  /** Not coming later is transitive, ties included. */
  lemma NotLessIsTransitive(a: Job, b: Job, c: Job)
    requires !Less(b, a) && !Less(c, b)
    ensures !Less(c, a)
  {
    BeforeIsTotal(a.title, b.title);
    BeforeIsTotal(b.title, c.title);
    BeforeIsTotal(a.title, c.title);
    BeforeIsTotal(a.dedupKey, b.dedupKey);
    BeforeIsTotal(b.dedupKey, c.dedupKey);
    BeforeIsTotal(a.dedupKey, c.dedupKey);
    if Before(a.title, b.title) && Before(b.title, c.title) { BeforeIsTransitive(a.title, b.title, c.title); }
    if Before(a.dedupKey, b.dedupKey) && Before(b.dedupKey, c.dedupKey) {
      BeforeIsTransitive(a.dedupKey, b.dedupKey, c.dedupKey);
    }
  }

  lemma {:induction false} InsertInOrder(j: Job, sorted: seq<Job>)
    requires InOrder(sorted)
    ensures InOrder(Insert(j, sorted))
  {
    if sorted == [] {
    } else if Less(j, sorted[0]) {
      LessIsTotal(j, sorted[0]);
      forall k | 0 <= k < |sorted| ensures !Less(sorted[k], j) {
        if k > 0 { NotLessIsTransitive(j, sorted[0], sorted[k]); }
      }
    } else {
      InsertInOrder(j, sorted[1..]);
      var rest := Insert(j, sorted[1..]);
      InsertAdds(j, sorted[1..]);
      forall k | 0 <= k < |rest| ensures !Less(rest[k], sorted[0]) {
        assert rest[k] in multiset(rest);
        assert rest[k] == j || rest[k] in sorted[1..];
      }
    }
  }

  lemma {:induction false} SortedInOrder(jobs: seq<Job>)
    ensures InOrder(Sorted(jobs))
  {
    if jobs != [] {
      SortedInOrder(jobs[..|jobs| - 1]);
      InsertInOrder(jobs[|jobs| - 1], Sorted(jobs[..|jobs| - 1]));
    }
  }

  /** `ordered` is what some sort by `Less` makes of the jobs. */
  ghost predicate IsSort(ordered: seq<Job>, jobs: seq<Job>) {
    multiset(ordered) == multiset(jobs) && InOrder(ordered)
  }

  /** `sort.Slice`; only what it promises is used. */
  method SortSlice(jobs: seq<Job>) returns (r: seq<Job>)
    ensures IsSort(r, jobs)
  {
    r := Sorted(jobs);
    SortedPermutes(jobs);
    SortedInOrder(jobs);
  }

  method CollectMatches(jobs: seq<Job>, q: JobQuery) returns (matched: seq<Job>)
    ensures matched == Matching(jobs, q)
  {
    matched := [];
    for i := 0 to |jobs|
      invariant matched == Matching(jobs[..i], q)
    {
      assert jobs[..i + 1][..i] == jobs[..i];
      var ok := CheckMatch(jobs[i], q);
      if ok {
        matched := matched + [jobs[i]];
      }
    }
    assert jobs[..|jobs|] == jobs;
  }

  lemma SortedLength(jobs: seq<Job>)
    ensures |Sorted(jobs)| == |jobs|
  {
    SortedPermutes(jobs);
    assert |Sorted(jobs)| == |multiset(Sorted(jobs))| == |multiset(jobs)| == |jobs|;
  }

  /** `Index.Search`: a stretch of the sorted matches. An index may repeat a dedup key, and then the sort is free
      to arrange ties; without repetitions the page is determined. */
  method Search(jobs: seq<Job>, q: JobQuery) returns (page: Page)
    ensures page.total == |Matching(jobs, q)|
    ensures exists ordered :: IsSort(ordered, Matching(jobs, q)) && page.jobs == Cut(ordered, q)
    ensures DistinctKeys(jobs) ==> page == FeedPage(jobs, q)
  {
    var matched := CollectMatches(jobs, q);
    var ordered := SortSlice(matched);
    assert |ordered| == |multiset(ordered)| == |multiset(matched)| == |matched|;
    if DistinctKeys(jobs) {
      MatchingKeepsKeysDistinct(jobs, q);
      SortIsDetermined(matched, ordered);
    }
    var stretch := Clip(ordered, q);
    page := Page(|ordered|, stretch);
  }

  /** Its bounds arithmetic. */
  method Clip(ordered: seq<Job>, q: JobQuery) returns (stretch: seq<Job>)
    ensures stretch == Cut(ordered, q)
  {
    var total := |ordered|;
    var limit := q.limit;
    if limit <= 0 {
      limit := DEFAULT_LIMIT;
    }
    var start := q.offset;
    if start < 0 {
      start := 0;
    }
    if start > total {
      start := total;
    }
    var end := start + limit;
    if end > total {
      end := total;
    }
    return ordered[start..end];
  }

  // ---- paging ----

  /** The offset of page `n`. */
  function PageStart(limit: int, n: nat): (start: int)
    ensures limit >= 0 ==> start >= 0
    ensures limit <= 0 ==> start <= 0
  {
    if n == 0 then 0 else PageStart(limit, n - 1) + limit
  }

  /** The query for page `n`. */
  function At(q: JobQuery, limit: int, n: nat): JobQuery {
    q.(limit := limit, offset := PageStart(limit, n))
  }

  function Concat(pages: seq<seq<Job>>): seq<Job> {
    if pages == [] then [] else Concat(pages[..|pages| - 1]) + pages[|pages| - 1]
  }

  /** The first `n` pages of length `limit`, put together. */
  function FirstPages(jobs: seq<Job>, q: JobQuery, limit: nat, n: nat): seq<Job> {
    Concat(seq(n, k requires 0 <= k < n => FeedPage(jobs, At(q, limit, k)).jobs))
  }

  lemma MatchingIgnoresPaging(jobs: seq<Job>, q: JobQuery, limit: int, offset: int)
    ensures Matching(jobs, q.(limit := limit, offset := offset)) == Matching(jobs, q)
  {
    if jobs != [] {
      MatchingIgnoresPaging(jobs[..|jobs| - 1], q, limit, offset);
    }
  }

  lemma PageIsSlice(jobs: seq<Job>, q: JobQuery, limit: nat, offset: nat)
    requires limit >= 1
    ensures FeedPage(jobs, q.(limit := limit, offset := offset)).jobs == Slice(Sorted(Matching(jobs, q)), offset, limit)
  {
    MatchingIgnoresPaging(jobs, q, limit, offset);
  }

  lemma SliceExtends(sorted: seq<Job>, offset: nat, limit: nat)
    ensures sorted[..Min(offset, |sorted|)] + Slice(sorted, offset, limit) == sorted[..Min(offset + limit, |sorted|)]
  {
  }

  lemma ConcatExtends(pages: seq<seq<Job>>, page: seq<Job>)
    ensures Concat(pages + [page]) == Concat(pages) + page
  {
    assert (pages + [page])[..|pages|] == pages;
  }

  /** Pages are the stretches of this length, one after the other. */
  ghost predicate AreSlices(sorted: seq<Job>, limit: nat, pages: seq<seq<Job>>) {
    forall k: nat :: k < |pages| ==> pages[k] == Slice(sorted, PageStart(limit, k), limit)
  }

  lemma FrontAreSlices(sorted: seq<Job>, limit: nat, front: seq<seq<Job>>, last: seq<Job>)
    requires AreSlices(sorted, limit, front + [last])
    ensures AreSlices(sorted, limit, front) && last == Slice(sorted, PageStart(limit, |front|), limit)
  {
    forall k: nat | k < |front| ensures front[k] == Slice(sorted, PageStart(limit, k), limit) {
      assert (front + [last])[k] == front[k];
    }
    assert (front + [last])[|front|] == last;
  }

  lemma {:induction false} SlicesArePrefix(sorted: seq<Job>, limit: nat, pages: seq<seq<Job>>)
    requires AreSlices(sorted, limit, pages)
    ensures Concat(pages) == sorted[..Min(PageStart(limit, |pages|), |sorted|)]
  {
    if pages != [] {
      var front, last := pages[..|pages| - 1], pages[|pages| - 1];
      assert pages == front + [last];
      FrontAreSlices(sorted, limit, front, last);
      SlicesArePrefix(sorted, limit, front);
      ConcatExtends(front, last);
      SliceExtends(sorted, PageStart(limit, |front|), limit);
    }
  }

  /** The pages at offsets 0, limit, 2 * limit, ... give every matching job exactly once, newest first,
      and each of them reports the number of matching jobs as its total. */
  lemma PagesCoverEachMatchOnce(jobs: seq<Job>, q: JobQuery, limit: nat, n: nat)
    requires DistinctKeys(jobs) && limit >= 1 && PageStart(limit, n) >= |Matching(jobs, q)|
    ensures var all := FirstPages(jobs, q, limit, n);
      && multiset(all) == multiset(Matching(jobs, q))
      && Ascending(all)
      && DistinctKeys(all)
      && (forall j :: j in all <==> j in jobs && Matches(q, j))
    ensures forall offset: int :: FeedPage(jobs, q.(limit := limit, offset := offset)).total == |FirstPages(jobs, q, limit, n)|
  {
    var matched := Matching(jobs, q);
    var sorted := Sorted(matched);
    var all := FirstPages(jobs, q, limit, n);
    SortedLength(matched);
    SortedPermutes(matched);
    var pages := seq(n, k requires 0 <= k < n => FeedPage(jobs, At(q, limit, k)).jobs);
    forall k: nat | k < n ensures pages[k] == Slice(sorted, PageStart(limit, k), limit) {
      PageIsSlice(jobs, q, limit, PageStart(limit, k));
    }
    SlicesArePrefix(sorted, limit, pages);
    assert all == sorted;
    MatchingIsAFilter(jobs, q);
    MatchingKeepsKeysDistinct(jobs, q);
    SortedAscending(matched);
    SameMultisetKeys(all, matched);
    forall j ensures j in all <==> j in jobs && Matches(q, j) {
      assert j in multiset(all) <==> j in multiset(matched);
    }
    forall offset: int ensures FeedPage(jobs, q.(limit := limit, offset := offset)).total == |all| {
      MatchingIgnoresPaging(jobs, q, limit, offset);
    }
  }
}
