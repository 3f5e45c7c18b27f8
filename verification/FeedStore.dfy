/** The Postgres path of the feed (backend/internal/ingest/pgxstore.go) and the in-memory
    fallback of the HTTP service (backend/internal/feed/service.go). */
module FeedStore {
  import opened Options
  import opened Text
  import opened FeedQuery
  import opened Sql

  // ---- the filters, numbered in the order in which they are compiled ----

  ghost predicate TestNo(q: JobQuery, k: nat, j: Job)
    requires k < 9 + |q.skills|
  {
    match k
    case 0 => SearchTest(q, j)
    case 1 => PayMinTest(q, j)
    case 2 => PayMaxTest(q, j)
    case 3 => LocationTest(q, j)
    case 4 => RemoteTest(q, j)
    case 5 => EmploymentTest(q, j)
    case 6 => SourceTest(q, j)
    case 7 => ExperienceTest(q, j)
    case 8 => PostedTest(q, j)
    case _ => SkillTest(q.skills[k - 9], j)
  }

  ghost predicate UpTo(q: JobQuery, k: nat, j: Job)
    requires k <= 9 + |q.skills|
  {
    forall i: nat :: i < k ==> TestNo(q, i, j)
  }

  lemma AllTestsAreMatches(q: JobQuery, j: Job)
    ensures UpTo(q, 9 + |q.skills|, j) <==> Matches(q, j)
  {
    if UpTo(q, 9 + |q.skills|, j) {
      assert TestNo(q, 0, j) && TestNo(q, 1, j) && TestNo(q, 2, j) && TestNo(q, 3, j) && TestNo(q, 4, j);
      assert TestNo(q, 5, j) && TestNo(q, 6, j) && TestNo(q, 7, j) && TestNo(q, 8, j);
      forall skill | skill in q.skills ensures SkillTest(skill, j) {
        var i :| 0 <= i < |q.skills| && q.skills[i] == skill;
        assert TestNo(q, 9 + i, j);
      }
    }
  }

  ghost predicate Accepted(clauses: seq<Expr>, row: Row, args: seq<Value>, dismissed: set<(string, string)>) {
    forall c :: c in clauses ==> Holds(c, Scope(row, args, None, dismissed))
  }

  /** The clauses and arguments built so far accept a row exactly when it is not stale and passes the
      first `k` filters, whatever arguments are appended later. */
  ghost predicate Compiled(q: JobQuery, k: nat, clauses: seq<Expr>, args: seq<Value>)
    requires k <= 9 + |q.skills|
  {
    forall row, extra, dismissed ::
      Accepted(clauses, row, args + extra, dismissed) <==> !row.stale && UpTo(q, k, row.job)
  }

  /** A clause over parameter `n` says what filter `k` says. */
  ghost predicate Says(q: JobQuery, k: nat, clause: Expr, n: nat, v: Value)
    requires k < 9 + |q.skills|
  {
    forall scope: Scope :: 1 <= n <= |scope.args| && scope.args[n - 1] == v && scope.req.None? ==>
      (Holds(clause, scope) <==> TestNo(q, k, scope.row.job))
  }

  lemma AddClause(q: JobQuery, k: nat, clauses: seq<Expr>, args: seq<Value>, clause: Expr, v: Value)
    requires k < 9 + |q.skills| && Compiled(q, k, clauses, args) && Says(q, k, clause, |args| + 1, v)
    ensures Compiled(q, k + 1, clauses + [clause], args + [v])
  {
    forall row, extra, dismissed
      ensures Accepted(clauses + [clause], row, args + [v] + extra, dismissed) <==> !row.stale && UpTo(q, k + 1, row.job)
    {
      assert args + [v] + extra == args + ([v] + extra);
      var scope := Scope(row, args + [v] + extra, None, dismissed);
      assert scope.args[|args|] == v;
      assert Accepted(clauses, row, args + ([v] + extra), dismissed) <==> !row.stale && UpTo(q, k, row.job);
      assert Holds(clause, scope) <==> TestNo(q, k, row.job);
      assert UpTo(q, k + 1, row.job) <==> UpTo(q, k, row.job) && TestNo(q, k, row.job);
      assert forall c :: c in clauses + [clause] <==> c in clauses || c == clause;
    }
  }

  lemma SkipClause(q: JobQuery, k: nat, clauses: seq<Expr>, args: seq<Value>)
    requires k < 9 + |q.skills| && Compiled(q, k, clauses, args) && forall j :: TestNo(q, k, j)
    ensures Compiled(q, k + 1, clauses, args)
  {
    forall row, extra, dismissed
      ensures Accepted(clauses, row, args + extra, dismissed) <==> !row.stale && UpTo(q, k + 1, row.job)
    {
      assert Accepted(clauses, row, args + extra, dismissed) <==> !row.stale && UpTo(q, k, row.job);
      assert UpTo(q, k + 1, row.job) <==> UpTo(q, k, row.job) && TestNo(q, k, row.job);
    }
  }

  // ---- the clauses ----

  function SearchClause(p: nat): Expr {
    Occurs(ConcatOf(ConcatOf(Col(TitleCol), Lit(Txt(" "))), Col(CompanyCol)), Param(p))
  }

  function PayMinClause(p: nat): Expr { And(IsNotNull(Col(SalaryMaxCol)), Ge(Col(SalaryMaxCol), Param(p))) }

  function PayMaxClause(p: nat): Expr { And(IsNotNull(Col(SalaryMinCol)), Le(Col(SalaryMinCol), Param(p))) }

  function LocationClause(p: nat): Expr { Occurs(CoalesceOf(Col(LocationCol), Lit(Txt(""))), Param(p)) }

  function ExperienceClause(p: nat): Expr {
    Or(IsNull(Col(YearsExperienceCol)), Le(Col(YearsExperienceCol), Param(p)))
  }

  function SkillClause(p: nat): Expr { ExistsReq(Occurs(ReqValue, Param(p))) }

  ghost predicate Binds(scope: Scope, n: nat, v: Value) {
    1 <= n <= |scope.args| && scope.args[n - 1] == v && scope.req.None?
  }

  lemma SearchSays(q: JobQuery, n: nat)
    requires Trim(q.search) != ""
    ensures Says(q, 0, SearchClause(n), n, Txt(Trim(q.search)))
  {
    TrimLowerCommute(q.search);
    forall scope: Scope | Binds(scope, n, Txt(Trim(q.search)))
      ensures Holds(SearchClause(n), scope) <==> TestNo(q, 0, scope.row.job)
    {
      var job := scope.row.job;
      var hay := ConcatOf(ConcatOf(Col(TitleCol), Lit(Txt(" "))), Col(CompanyCol));
      assert Eval(ConcatOf(Col(TitleCol), Lit(Txt(" "))), scope) == Txt(job.title + " ");
      OccursHolds(hay, Param(n), scope, job.title + " " + job.company, Trim(q.search));
    }
  }

  lemma LocationSays(q: JobQuery, n: nat)
    requires Trim(q.location) != ""
    ensures Says(q, 3, LocationClause(n), n, Txt(Trim(q.location)))
  {
    TrimLowerCommute(q.location);
    forall scope: Scope | Binds(scope, n, Txt(Trim(q.location)))
      ensures Holds(LocationClause(n), scope) <==> TestNo(q, 3, scope.row.job)
    {
      OccursHolds(CoalesceOf(Col(LocationCol), Lit(Txt(""))), Param(n), scope, scope.row.job.location, Trim(q.location));
    }
  }

  lemma ReqHolds(n: nat, scope: Scope, want: string, r: string)
    requires Binds(scope, n, Txt(want))
    ensures Holds(Occurs(ReqValue, Param(n)), scope.(req := Some(r))) <==> Contains(Lower(r), Lower(want))
  {
    OccursHolds(ReqValue, Param(n), scope.(req := Some(r)), r, want);
  }

  lemma SkillHolds(n: nat, scope: Scope, want: string)
    requires Binds(scope, n, Txt(want))
    ensures Holds(SkillClause(n), scope) <==>
      exists r :: r in scope.row.job.requirements && Contains(Lower(r), Lower(want))
  {
    var clause := Occurs(ReqValue, Param(n));
    assert Eval(SkillClause(n), scope) ==
      Bool(exists r :: r in scope.row.job.requirements && Eval(clause, scope.(req := Some(r))) == Bool(true));
    forall r ensures Eval(clause, scope.(req := Some(r))) == Bool(true) <==> Contains(Lower(r), Lower(want)) {
      ReqHolds(n, scope, want, r);
    }
  }

  lemma SkillSays(q: JobQuery, i: nat, n: nat)
    requires i < |q.skills| && Trim(q.skills[i]) != ""
    ensures Says(q, 9 + i, SkillClause(n), n, Txt(Trim(q.skills[i])))
  {
    forall scope: Scope | Binds(scope, n, Txt(Trim(q.skills[i])))
      ensures Holds(SkillClause(n), scope) <==> TestNo(q, 9 + i, scope.row.job)
    {
      SkillHolds(n, scope, Trim(q.skills[i]));
    }
  }

  lemma PayMinSays(q: JobQuery, n: nat)
    requires q.payMin.Some?
    ensures Says(q, 1, PayMinClause(n), n, Num(q.payMin.value))
  {
    forall scope: Scope | Binds(scope, n, Num(q.payMin.value))
      ensures Holds(PayMinClause(n), scope) <==> TestNo(q, 1, scope.row.job)
    {
      ColumnAgainstParam(SalaryMaxCol, n, scope);
    }
  }

  lemma PayMaxSays(q: JobQuery, n: nat)
    requires q.payMax.Some?
    ensures Says(q, 2, PayMaxClause(n), n, Num(q.payMax.value))
  {
    forall scope: Scope | Binds(scope, n, Num(q.payMax.value))
      ensures Holds(PayMaxClause(n), scope) <==> TestNo(q, 2, scope.row.job)
    {
      ColumnAgainstParam(SalaryMinCol, n, scope);
    }
  }

  lemma RemoteSays(q: JobQuery, n: nat)
    requires q.remote.Some?
    ensures Says(q, 4, Eq(Col(RemoteCol), Param(n)), n, Bool(q.remote.value))
  {
    forall scope: Scope | Binds(scope, n, Bool(q.remote.value))
      ensures Holds(Eq(Col(RemoteCol), Param(n)), scope) <==> TestNo(q, 4, scope.row.job)
    {
      ColumnAgainstParam(RemoteCol, n, scope);
    }
  }

  lemma EmploymentSays(q: JobQuery, n: nat)
    requires q.employmentType != ""
    ensures Says(q, 5, Eq(Col(EmploymentTypeCol), Param(n)), n, Txt(q.employmentType))
  {
    forall scope: Scope | Binds(scope, n, Txt(q.employmentType))
      ensures Holds(Eq(Col(EmploymentTypeCol), Param(n)), scope) <==> TestNo(q, 5, scope.row.job)
    {
      ColumnAgainstParam(EmploymentTypeCol, n, scope);
    }
  }

  lemma SourceSays(q: JobQuery, n: nat)
    requires q.source != ""
    ensures Says(q, 6, Eq(Col(SourceCol), Param(n)), n, Txt(q.source))
  {
    forall scope: Scope | Binds(scope, n, Txt(q.source))
      ensures Holds(Eq(Col(SourceCol), Param(n)), scope) <==> TestNo(q, 6, scope.row.job)
    {
      ColumnAgainstParam(SourceCol, n, scope);
    }
  }

  lemma ExperienceSays(q: JobQuery, n: nat)
    requires q.maxYoE.Some?
    ensures Says(q, 7, ExperienceClause(n), n, Num(q.maxYoE.value))
  {
    forall scope: Scope | Binds(scope, n, Num(q.maxYoE.value))
      ensures Holds(ExperienceClause(n), scope) <==> TestNo(q, 7, scope.row.job)
    {
      ColumnAgainstParam(YearsExperienceCol, n, scope);
    }
  }

  lemma PostedSays(q: JobQuery, n: nat)
    requires q.postedAfter.Some?
    ensures Says(q, 8, Ge(Col(PostedAtCol), Param(n)), n, Instant(q.postedAfter.value))
  {
    forall scope: Scope | Binds(scope, n, Instant(q.postedAfter.value))
      ensures Holds(Ge(Col(PostedAtCol), Param(n)), scope) <==> TestNo(q, 8, scope.row.job)
    {
      ColumnAgainstParam(PostedAtCol, n, scope);
    }
  }

  // ---- compiling ----

  lemma SearchStep(q: JobQuery, clauses: seq<Expr>, args: seq<Value>)
    requires Compiled(q, 0, clauses, args)
    ensures if Trim(q.search) != ""
      then Compiled(q, 1, clauses + [SearchClause(|args| + 1)], args + [Txt(Trim(q.search))])
      else Compiled(q, 1, clauses, args)
  {
    TrimLowerCommute(q.search);
    if Trim(q.search) != "" {
      SearchSays(q, |args| + 1);
      AddClause(q, 0, clauses, args, SearchClause(|args| + 1), Txt(Trim(q.search)));
    } else {
      SkipClause(q, 0, clauses, args);
    }
  }

  lemma PayMinStep(q: JobQuery, clauses: seq<Expr>, args: seq<Value>)
    requires Compiled(q, 1, clauses, args)
    ensures if q.payMin.Some?
      then Compiled(q, 2, clauses + [PayMinClause(|args| + 1)], args + [Num(q.payMin.value)])
      else Compiled(q, 2, clauses, args)
  {
    if q.payMin.Some? {
      PayMinSays(q, |args| + 1);
      AddClause(q, 1, clauses, args, PayMinClause(|args| + 1), Num(q.payMin.value));
    } else {
      SkipClause(q, 1, clauses, args);
    }
  }

  lemma PayMaxStep(q: JobQuery, clauses: seq<Expr>, args: seq<Value>)
    requires Compiled(q, 2, clauses, args)
    ensures if q.payMax.Some?
      then Compiled(q, 3, clauses + [PayMaxClause(|args| + 1)], args + [Num(q.payMax.value)])
      else Compiled(q, 3, clauses, args)
  {
    if q.payMax.Some? {
      PayMaxSays(q, |args| + 1);
      AddClause(q, 2, clauses, args, PayMaxClause(|args| + 1), Num(q.payMax.value));
    } else {
      SkipClause(q, 2, clauses, args);
    }
  }

  lemma LocationStep(q: JobQuery, clauses: seq<Expr>, args: seq<Value>)
    requires Compiled(q, 3, clauses, args)
    ensures if Trim(q.location) != ""
      then Compiled(q, 4, clauses + [LocationClause(|args| + 1)], args + [Txt(Trim(q.location))])
      else Compiled(q, 4, clauses, args)
  {
    TrimLowerCommute(q.location);
    if Trim(q.location) != "" {
      LocationSays(q, |args| + 1);
      AddClause(q, 3, clauses, args, LocationClause(|args| + 1), Txt(Trim(q.location)));
    } else {
      SkipClause(q, 3, clauses, args);
    }
  }

  lemma RemoteStep(q: JobQuery, clauses: seq<Expr>, args: seq<Value>)
    requires Compiled(q, 4, clauses, args)
    ensures if q.remote.Some?
      then Compiled(q, 5, clauses + [Eq(Col(RemoteCol), Param(|args| + 1))], args + [Bool(q.remote.value)])
      else Compiled(q, 5, clauses, args)
  {
    if q.remote.Some? {
      RemoteSays(q, |args| + 1);
      AddClause(q, 4, clauses, args, Eq(Col(RemoteCol), Param(|args| + 1)), Bool(q.remote.value));
    } else {
      SkipClause(q, 4, clauses, args);
    }
  }

  lemma EmploymentStep(q: JobQuery, clauses: seq<Expr>, args: seq<Value>)
    requires Compiled(q, 5, clauses, args)
    ensures if q.employmentType != ""
      then Compiled(q, 6, clauses + [Eq(Col(EmploymentTypeCol), Param(|args| + 1))], args + [Txt(q.employmentType)])
      else Compiled(q, 6, clauses, args)
  {
    if q.employmentType != "" {
      EmploymentSays(q, |args| + 1);
      AddClause(q, 5, clauses, args, Eq(Col(EmploymentTypeCol), Param(|args| + 1)), Txt(q.employmentType));
    } else {
      SkipClause(q, 5, clauses, args);
    }
  }

  lemma SourceStep(q: JobQuery, clauses: seq<Expr>, args: seq<Value>)
    requires Compiled(q, 6, clauses, args)
    ensures if q.source != ""
      then Compiled(q, 7, clauses + [Eq(Col(SourceCol), Param(|args| + 1))], args + [Txt(q.source)])
      else Compiled(q, 7, clauses, args)
  {
    if q.source != "" {
      SourceSays(q, |args| + 1);
      AddClause(q, 6, clauses, args, Eq(Col(SourceCol), Param(|args| + 1)), Txt(q.source));
    } else {
      SkipClause(q, 6, clauses, args);
    }
  }

  lemma ExperienceStep(q: JobQuery, clauses: seq<Expr>, args: seq<Value>)
    requires Compiled(q, 7, clauses, args)
    ensures if q.maxYoE.Some?
      then Compiled(q, 8, clauses + [ExperienceClause(|args| + 1)], args + [Num(q.maxYoE.value)])
      else Compiled(q, 8, clauses, args)
  {
    if q.maxYoE.Some? {
      ExperienceSays(q, |args| + 1);
      AddClause(q, 7, clauses, args, ExperienceClause(|args| + 1), Num(q.maxYoE.value));
    } else {
      SkipClause(q, 7, clauses, args);
    }
  }

  lemma PostedStep(q: JobQuery, clauses: seq<Expr>, args: seq<Value>)
    requires Compiled(q, 8, clauses, args)
    ensures if q.postedAfter.Some?
      then Compiled(q, 9, clauses + [Ge(Col(PostedAtCol), Param(|args| + 1))], args + [Instant(q.postedAfter.value)])
      else Compiled(q, 9, clauses, args)
  {
    if q.postedAfter.Some? {
      PostedSays(q, |args| + 1);
      AddClause(q, 8, clauses, args, Ge(Col(PostedAtCol), Param(|args| + 1)), Instant(q.postedAfter.value));
    } else {
      SkipClause(q, 8, clauses, args);
    }
  }

  lemma SkillStep(q: JobQuery, i: nat, clauses: seq<Expr>, args: seq<Value>)
    requires i < |q.skills| && Compiled(q, 9 + i, clauses, args)
    ensures if Trim(q.skills[i]) != ""
      then Compiled(q, 10 + i, clauses + [SkillClause(|args| + 1)], args + [Txt(Trim(q.skills[i]))])
      else Compiled(q, 10 + i, clauses, args)
  {
    if Trim(q.skills[i]) != "" {
      SkillSays(q, i, |args| + 1);
      AddClause(q, 9 + i, clauses, args, SkillClause(|args| + 1), Txt(Trim(q.skills[i])));
    } else {
      SkipClause(q, 9 + i, clauses, args);
    }
  }

  lemma StaleClauseStarts(q: JobQuery)
    ensures Compiled(q, 0, [Eq(Col(StaleCol), Lit(Bool(false)))], [])
  {
    var clause := Eq(Col(StaleCol), Lit(Bool(false)));
    forall row, extra: seq<Value>, dismissed
      ensures Accepted([clause], row, [] + extra, dismissed) <==> !row.stale && UpTo(q, 0, row.job)
    {
      var scope := Scope(row, [] + extra, None, dismissed);
      assert Eval(Col(StaleCol), scope) == Bool(row.stale);
      assert Eval(Lit(Bool(false)), scope) == Bool(false);
      assert Holds(clause, scope) <==> !row.stale;
      assert clause in [clause] && forall c :: c in [clause] ==> c == clause;
      assert UpTo(q, 0, row.job);
    }
  }

  /** The text and pay filters. */
  method WhereTextAndPay(q: JobQuery, clauses0: seq<Expr>, args0: seq<Value>) returns (clauses: seq<Expr>, args: seq<Value>)
    requires Compiled(q, 0, clauses0, args0) && clauses0 != []
    ensures Compiled(q, 4, clauses, args) && clauses != []
  {
    clauses, args := clauses0, args0;
    SearchStep(q, clauses, args);
    var search := Trim(q.search);
    if search != "" {
      args := args + [Txt(search)];
      clauses := clauses + [SearchClause(|args|)];
    }
    PayMinStep(q, clauses, args);
    if q.payMin.Some? {
      args := args + [Num(q.payMin.value)];
      clauses := clauses + [PayMinClause(|args|)];
    }
    PayMaxStep(q, clauses, args);
    if q.payMax.Some? {
      args := args + [Num(q.payMax.value)];
      clauses := clauses + [PayMaxClause(|args|)];
    }
    LocationStep(q, clauses, args);
    var location := Trim(q.location);
    if location != "" {
      args := args + [Txt(location)];
      clauses := clauses + [LocationClause(|args|)];
    }
  }

  /** The exact, experience and date filters. */
  method WhereExact(q: JobQuery, clauses0: seq<Expr>, args0: seq<Value>) returns (clauses: seq<Expr>, args: seq<Value>)
    requires Compiled(q, 4, clauses0, args0) && clauses0 != []
    ensures Compiled(q, 9, clauses, args) && clauses != []
  {
    clauses, args := clauses0, args0;
    RemoteStep(q, clauses, args);
    if q.remote.Some? {
      args := args + [Bool(q.remote.value)];
      clauses := clauses + [Eq(Col(RemoteCol), Param(|args|))];
    }
    EmploymentStep(q, clauses, args);
    if q.employmentType != "" {
      args := args + [Txt(q.employmentType)];
      clauses := clauses + [Eq(Col(EmploymentTypeCol), Param(|args|))];
    }
    SourceStep(q, clauses, args);
    if q.source != "" {
      args := args + [Txt(q.source)];
      clauses := clauses + [Eq(Col(SourceCol), Param(|args|))];
    }
    ExperienceStep(q, clauses, args);
    if q.maxYoE.Some? {
      args := args + [Num(q.maxYoE.value)];
      clauses := clauses + [ExperienceClause(|args|)];
    }
    PostedStep(q, clauses, args);
    if q.postedAfter.Some? {
      args := args + [Instant(q.postedAfter.value)];
      clauses := clauses + [Ge(Col(PostedAtCol), Param(|args|))];
    }
  }

  method WhereSkills(q: JobQuery, clauses0: seq<Expr>, args0: seq<Value>) returns (clauses: seq<Expr>, args: seq<Value>)
    requires Compiled(q, 9, clauses0, args0) && clauses0 != []
    ensures Compiled(q, 9 + |q.skills|, clauses, args) && clauses != []
  {
    clauses, args := clauses0, args0;
    for i := 0 to |q.skills|
      invariant Compiled(q, 9 + i, clauses, args) && clauses != []
    {
      SkillStep(q, i, clauses, args);
      var skill := Trim(q.skills[i]);
      if skill == "" {
        continue;
      }
      args := args + [Txt(skill)];
      clauses := clauses + [SkillClause(|args|)];
    }
  }

  /** The clauses accept exactly the rows that the search wants, whatever follows in the argument list. */
  ghost predicate AcceptsMatches(clauses: seq<Expr>, args: seq<Value>, q: JobQuery) {
    forall row, extra, dismissed ::
      Accepted(clauses, row, args + extra, dismissed) <==> !row.stale && Matches(q, row.job)
  }

  /** `feedWhere`: appends a clause and its argument for each filter that is set. The result accepts a
      row exactly when it is not stale and its job passes every filter. */
  method FeedWhere(q: JobQuery) returns (clauses: seq<Expr>, args: seq<Value>)
    ensures clauses != [] && AcceptsMatches(clauses, args, q)
  {
    clauses, args := [Eq(Col(StaleCol), Lit(Bool(false)))], [];
    StaleClauseStarts(q);
    clauses, args := WhereTextAndPay(q, clauses, args);
    clauses, args := WhereExact(q, clauses, args);
    clauses, args := WhereSkills(q, clauses, args);
    forall row: Row ensures UpTo(q, 9 + |q.skills|, row.job) <==> Matches(q, row.job) {
      AllTestsAreMatches(q, row.job);
    }
  }

  // ---- the two ways of answering a feed request ----

  predicate ValidQuery(q: JobQuery) {
    && (q.payMin.Some? ==> q.payMin.value >= 0)
    && (q.payMax.Some? ==> q.payMax.value >= 0)
    && (q.maxYoE.Some? ==> q.maxYoE.value >= 0)
    && (q.payMin.Some? && q.payMax.Some? ==> q.payMin.value <= q.payMax.value)
  }

  /** `ValidateJobQuery`: a bound is negative, or the pay bounds are in the wrong order. */
  method ValidateJobQuery(q: JobQuery) returns (ok: bool)
    ensures ok <==> ValidQuery(q)
    ensures !ok <==>
      || (exists n :: n < 0 && (q.payMin == Some(n) || q.payMax == Some(n) || q.maxYoE == Some(n)))
      || (exists lo, hi :: hi < lo && q.payMin == Some(lo) && q.payMax == Some(hi))
  {
    if q.payMin.Some? && q.payMin.value < 0 {
      return false;
    }
    if q.payMax.Some? && q.payMax.value < 0 {
      return false;
    }
    if q.maxYoE.Some? && q.maxYoE.value < 0 {
      return false;
    }
    if q.payMin.Some? && q.payMax.Some? && q.payMin.value > q.payMax.value {
      return false;
    }
    return true;
  }

  const MAX_LIMIT := 100

  function NormalizeQuery(q: JobQuery): JobQuery {
    var limit := if q.limit <= 0 then DEFAULT_LIMIT else q.limit;
    q.(limit := if limit > MAX_LIMIT then MAX_LIMIT else limit, offset := if q.offset < 0 then 0 else q.offset)
  }

  /** The page that a request gets: both paths bound its limit and offset first. */
  function ServedPage(jobs: seq<Job>, q: JobQuery): Page {
    FeedPage(jobs, NormalizeQuery(q))
  }

  /** A negative offset is the first page, and an offset past the matches is an empty one with the same total. */
  lemma OffsetsAreBounded(jobs: seq<Job>, q: JobQuery)
    ensures q.offset <= 0 ==> ServedPage(jobs, q) == ServedPage(jobs, q.(offset := 0))
    ensures q.offset >= |Matching(jobs, q)| > 0 ==> ServedPage(jobs, q) == Page(|Matching(jobs, q)|, [])
  {
    var bounded := NormalizeQuery(q);
    SameFilters(jobs, q, bounded.limit, bounded.offset);
    SortedLength(Matching(jobs, bounded));
  }

  /** Without a limit the page has the default length, and a negative offset is none, also for the index itself. */
  lemma DefaultsOfThePage(jobs: seq<Job>, q: JobQuery)
    ensures q.limit <= 0 ==> FeedPage(jobs, q) == FeedPage(jobs, q.(limit := 20))
    ensures q.offset <= 0 ==> FeedPage(jobs, q) == FeedPage(jobs, q.(offset := 0))
  {
    SameFilters(jobs, q, 20, q.offset);
    SameFilters(jobs, q, q.limit, 0);
  }

  lemma {:induction false} SameFilters(jobs: seq<Job>, q: JobQuery, limit: int, offset: int)
    ensures Matching(jobs, q.(limit := limit, offset := offset)) == Matching(jobs, q)
  {
    if jobs != [] {
      SameFilters(jobs[..|jobs| - 1], q, limit, offset);
    }
  }

  /** The user has not hidden the job; an anonymous visitor hides nothing. */
  predicate Shown(dismissed: set<(string, string)>, user: string, j: Job) {
    user == "" || (user, j.dedupKey) !in dismissed
  }

  function Visible(jobs: seq<Job>, dismissed: set<(string, string)>, user: string): seq<Job> {
    if jobs == [] then [] else
    var last := jobs[|jobs| - 1];
    Visible(jobs[..|jobs| - 1], dismissed, user) + if Shown(dismissed, user, last) then [last] else []
  }

  function Active(table: Table): seq<Job> {
    if table == [] then [] else
    var last := table[|table| - 1];
    Active(table[..|table| - 1]) + if last.stale then [] else [last.job]
  }

  lemma VisibleAppend(jobs: seq<Job>, last: Job, dismissed: set<(string, string)>, user: string)
    ensures Visible(jobs + [last], dismissed, user) ==
            Visible(jobs, dismissed, user) + if Shown(dismissed, user, last) then [last] else []
  {
    assert (jobs + [last])[..|jobs|] == jobs;
  }

  lemma MatchingAppend(jobs: seq<Job>, last: Job, q: JobQuery)
    ensures Matching(jobs + [last], q) == Matching(jobs, q) + if Matches(q, last) then [last] else []
  {
    assert (jobs + [last])[..|jobs|] == jobs;
  }

  lemma KeptAppend(jobs: seq<Job>, last: Job, dismissed: set<(string, string)>, user: string, q: JobQuery)
    ensures Matching(Visible(jobs + [last], dismissed, user), q) ==
            if Shown(dismissed, user, last) && Matches(q, last) then Matching(Visible(jobs, dismissed, user), q) + [last]
            else Matching(Visible(jobs, dismissed, user), q)
  {
    var visible := Visible(jobs, dismissed, user);
    VisibleAppend(jobs, last, dismissed, user);
    if Shown(dismissed, user, last) {
      MatchingAppend(visible, last, q);
      assert Matching(visible, q) + [] == Matching(visible, q);
    } else {
      assert visible + [] == visible;
    }
  }

  lemma ActiveAppend(front: Table, last: Row)
    ensures Active(front + [last]) == if last.stale then Active(front) else Active(front) + [last.job]
  {
    assert (front + [last])[..|front|] == front;
  }

  lemma SelectAppend(front: Table, last: Row, where: Expr, args: seq<Value>, dismissed: set<(string, string)>)
    ensures Select(front + [last], where, args, dismissed) ==
            if Holds(where, Scope(last, args, None, dismissed)) then Select(front, where, args, dismissed) + [last.job]
            else Select(front, where, args, dismissed)
  {
    assert (front + [last])[..|front|] == front;
  }

  /** What the in-memory search returns of a table. */
  function Reference(table: Table, dismissed: set<(string, string)>, user: string, q: JobQuery): seq<Job> {
    Matching(Visible(Active(table), dismissed, user), q)
  }

  lemma ReferenceAppend(front: Table, last: Row, dismissed: set<(string, string)>, user: string, q: JobQuery)
    ensures Reference(front + [last], dismissed, user, q) ==
            if !last.stale && Shown(dismissed, user, last.job) && Matches(q, last.job)
            then Reference(front, dismissed, user, q) + [last.job] else Reference(front, dismissed, user, q)
  {
    ActiveAppend(front, last);
    if !last.stale {
      KeptAppend(Active(front), last.job, dismissed, user, q);
    }
  }

  lemma OneMoreRow(front: Table, last: Row, where: Expr, args: seq<Value>, dismissed: set<(string, string)>, user: string,
                   q: JobQuery)
    requires Select(front, where, args, dismissed) == Reference(front, dismissed, user, q)
    requires Holds(where, Scope(last, args, None, dismissed)) <==>
      !last.stale && Matches(q, last.job) && Shown(dismissed, user, last.job)
    ensures Select(front + [last], where, args, dismissed) == Reference(front + [last], dismissed, user, q)
  {
    SelectAppend(front, last, where, args, dismissed);
    ReferenceAppend(front, last, dismissed, user, q);
  }

  /** A condition that keeps the right rows selects the matching visible active jobs. */
  lemma {:induction false} SelectIsMatching(table: Table, where: Expr, args: seq<Value>, dismissed: set<(string, string)>,
                                            user: string, q: JobQuery)
    requires forall row :: Holds(where, Scope(row, args, None, dismissed)) <==>
      !row.stale && Matches(q, row.job) && Shown(dismissed, user, row.job)
    ensures Select(table, where, args, dismissed) == Reference(table, dismissed, user, q)
  {
    if table != [] {
      var front, last := table[..|table| - 1], table[|table| - 1];
      SelectIsMatching(front, where, args, dismissed, user, q);
      OneMoreRow(front, last, where, args, dismissed, user, q);
      assert table == front + [last];
    }
  }

  lemma JoinKeeps(clauses: seq<Expr>, args: seq<Value>, q: JobQuery, row: Row, extra: seq<Value>,
                  dismissed: set<(string, string)>)
    requires clauses != [] && AcceptsMatches(clauses, args, q)
    ensures Holds(Join(clauses), Scope(row, args + extra, None, dismissed)) <==> !row.stale && Matches(q, row.job)
  {
    assert Accepted(clauses, row, args + extra, dismissed) <==> !row.stale && Matches(q, row.job);
    JoinHolds(clauses, Scope(row, args + extra, None, dismissed));
  }

  lemma BothHold(a: Expr, b: Expr, scope: Scope)
    ensures Holds(And(a, b), scope) <==> Holds(a, scope) && Holds(b, scope)
  {
  }

  lemma NotDismissedHolds(n: nat, scope: Scope, user: string)
    requires 1 <= n <= |scope.args| && scope.args[n - 1] == Txt(user)
    ensures Holds(NotDismissed(Param(n)), scope) <==> (user, scope.row.job.dedupKey) !in scope.dismissed
  {
    assert Eval(Param(n), scope) == Txt(user);
  }

  /** The WHERE condition, alone and with the user's clause appended. */
  lemma WhereKeeps(clauses: seq<Expr>, args: seq<Value>, q: JobQuery, user: string, row: Row, extra: seq<Value>,
                   dismissed: set<(string, string)>)
    requires clauses != [] && AcceptsMatches(clauses, args, q)
    ensures Holds(Join(clauses), Scope(row, args + extra, None, dismissed)) <==> !row.stale && Matches(q, row.job)
    ensures Holds(And(Join(clauses), NotDismissed(Param(|args| + 1))),
                  Scope(row, args + [Txt(user)] + extra, None, dismissed)) <==>
      !row.stale && Matches(q, row.job) && (user, row.job.dedupKey) !in dismissed
  {
    JoinKeeps(clauses, args, q, row, extra, dismissed);
    JoinKeeps(clauses, args, q, row, [Txt(user)] + extra, dismissed);
    assert args + [Txt(user)] + extra == args + ([Txt(user)] + extra);
    var scope := Scope(row, args + [Txt(user)] + extra, None, dismissed);
    BothHold(Join(clauses), NotDismissed(Param(|args| + 1)), scope);
    NotDismissedHolds(|args| + 1, scope, user);
  }

  /** The condition of both statements, for a visitor or a user, selects the reference answer. */
  lemma WhereSelects(table: Table, dismissed: set<(string, string)>, clauses: seq<Expr>, plain: seq<Value>, q: JobQuery,
                     user: string, extra: seq<Value>)
    requires clauses != [] && AcceptsMatches(clauses, plain, q)
    ensures var args := if user == "" then plain else plain + [Txt(user)];
      var where := if user == "" then Join(clauses) else And(Join(clauses), NotDismissed(Param(|args|)));
      Select(table, where, args + extra, dismissed) == Reference(table, dismissed, user, q)
  {
    var args := if user == "" then plain else plain + [Txt(user)];
    var where := if user == "" then Join(clauses) else And(Join(clauses), NotDismissed(Param(|args|)));
    forall row ensures Holds(where, Scope(row, args + extra, None, dismissed)) <==>
      !row.stale && Matches(q, row.job) && Shown(dismissed, user, row.job)
    {
      WhereKeeps(clauses, plain, q, user, row, extra, dismissed);
    }
    SelectIsMatching(table, where, args + extra, dismissed, user, q);
  }

  /** `searchFeed`: None is a rejected query. The page is the reference answer over the active jobs that
      the user has not hidden. */
  method SearchFeed(table: Table, dismissed: set<(string, string)>, query: JobQuery, user: string) returns (r: Option<Page>)
    requires TableOk(table)
    ensures r.Some? <==> ValidQuery(query)
    ensures r.Some? ==> r.value == ServedPage(Visible(Active(table), dismissed, user), query)
  {
    var ok := ValidateJobQuery(query);
    if !ok {
      return None;
    }
    var q := query;
    if q.limit <= 0 {
      q := q.(limit := DEFAULT_LIMIT);
    }
    if q.limit > MAX_LIMIT {
      q := q.(limit := MAX_LIMIT);
    }
    if q.offset < 0 {
      q := q.(offset := 0);
    }
    assert q == NormalizeQuery(query);
    var clauses, args := FeedWhere(q);
    var where := Join(clauses);
    ghost var plain := args;
    if user != "" {
      args := args + [Txt(user)];
      where := And(where, NotDismissed(Param(|args|)));
    }
    WhereSelects(table, dismissed, clauses, plain, q, user, []);
    WhereSelects(table, dismissed, clauses, plain, q, user, [Num(q.limit), Num(q.offset)]);
    assert args + [] == args;
    var total := QueryCount(table, where, args, dismissed);
    var limitParam, offsetParam := |args| + 1, |args| + 2;
    var pageArgs := args + [Num(q.limit), Num(q.offset)];
    var jobs := QueryPage(table, where, pageArgs, dismissed, limitParam, offsetParam);
    return Some(Page(total, jobs));
  }

  lemma {:induction false} ActiveKeepsKeysDistinct(table: Table)
    requires TableOk(table)
    ensures DistinctKeys(Active(table))
    ensures forall j :: j in Active(table) ==> exists i :: 0 <= i < |table| && table[i].job == j
  {
    if table != [] {
      var front := table[..|table| - 1];
      ActiveKeepsKeysDistinct(front);
      var jobs := Active(front);
      forall k | 0 <= k < |jobs| ensures jobs[k].dedupKey != table[|table| - 1].job.dedupKey {
        assert jobs[k] in jobs;
        var i :| 0 <= i < |front| && front[i].job == jobs[k];
        assert table[i].job == jobs[k];
      }
      forall j | j in Active(table) ensures exists i :: 0 <= i < |table| && table[i].job == j {
        if j in jobs {
          var i :| 0 <= i < |front| && front[i].job == j;
          assert table[i].job == j;
        } else {
          assert table[|table| - 1].job == j;
        }
      }
    }
  }

  lemma LastCounts(front: seq<Job>, last: Job, kept: bool, j: Job)
    ensures multiset(front + if kept then [last] else [])[j] == multiset(front)[j] + if kept && last == j then 1 else 0
  {
  }

  lemma {:induction false} CountOfVisible(jobs: seq<Job>, dismissed: set<(string, string)>, user: string, j: Job)
    ensures multiset(Visible(jobs, dismissed, user))[j] == if Shown(dismissed, user, j) then multiset(jobs)[j] else 0
  {
    if jobs != [] {
      var front, last := jobs[..|jobs| - 1], jobs[|jobs| - 1];
      CountOfVisible(front, dismissed, user, j);
      assert jobs == front + [last];
      VisibleAppend(front, last, dismissed, user);
      LastCounts(Visible(front, dismissed, user), last, Shown(dismissed, user, last), j);
      LastCounts(front, last, true, j);
    }
  }

  lemma {:induction false} CountOfMatching(jobs: seq<Job>, q: JobQuery, j: Job)
    ensures multiset(Matching(jobs, q))[j] == if Matches(q, j) then multiset(jobs)[j] else 0
  {
    if jobs != [] {
      var front, last := jobs[..|jobs| - 1], jobs[|jobs| - 1];
      CountOfMatching(front, q, j);
      assert jobs == front + [last];
      MatchingAppend(front, last, q);
      LastCounts(Matching(front, q), last, Matches(q, last), j);
      LastCounts(front, last, true, j);
    }
  }

  /** The answer does not depend on the order in which the store lists the jobs. */
  lemma FeedPageIgnoresOrder(jobs: seq<Job>, other: seq<Job>, q: JobQuery)
    requires multiset(jobs) == multiset(other) && DistinctKeys(other)
    ensures FeedPage(jobs, q) == FeedPage(other, q)
  {
    SameMultisetKeys(jobs, other);
    forall j ensures multiset(Matching(jobs, q))[j] == multiset(Matching(other, q))[j] {
      CountOfMatching(jobs, q, j);
      CountOfMatching(other, q, j);
    }
    var m, n := Matching(jobs, q), Matching(other, q);
    assert multiset(m) == multiset(n);
    MatchingKeepsKeysDistinct(jobs, q);
    MatchingKeepsKeysDistinct(other, q);
    SortedPermutes(m);
    SortedPermutes(n);
    SortedAscending(m);
    SortedAscending(n);
    AscendingIsUnique(Sorted(m), Sorted(n));
    assert |m| == |multiset(m)| == |multiset(n)| == |n|;
  }

  /** The fallback of `handleFeed` for a store without its own search: it drops the hidden jobs first
      and searches the rest. `jobs` lists the active jobs in any order. */
  method FilterFirst(jobs: seq<Job>, dismissed: set<(string, string)>, query: JobQuery, user: string, ghost table: Table)
    returns (page: Page)
    requires TableOk(table) && multiset(jobs) == multiset(Active(table))
    ensures page == ServedPage(Visible(Active(table), dismissed, user), query)
  {
    ActiveKeepsKeysDistinct(table);
    SameMultisetKeys(jobs, Active(table));
    var visible: seq<Job> := [];
    for i := 0 to |jobs|
      invariant visible == Visible(jobs[..i], dismissed, user)
    {
      assert jobs[..i + 1][..i] == jobs[..i];
      if Shown(dismissed, user, jobs[i]) {
        visible := visible + [jobs[i]];
      }
    }
    assert jobs[..|jobs|] == jobs;
    VisibleIgnoresOrder(jobs, Active(table), dismissed, user);
    page := Search(visible, NormalizeQuery(query));
    FeedPageIgnoresOrder(visible, Visible(Active(table), dismissed, user), NormalizeQuery(query));
  }

  lemma VisibleIgnoresOrder(jobs: seq<Job>, other: seq<Job>, dismissed: set<(string, string)>, user: string)
    requires multiset(jobs) == multiset(other) && DistinctKeys(jobs) && DistinctKeys(other)
    ensures multiset(Visible(jobs, dismissed, user)) == multiset(Visible(other, dismissed, user))
    ensures DistinctKeys(Visible(jobs, dismissed, user)) && DistinctKeys(Visible(other, dismissed, user))
  {
    forall j ensures multiset(Visible(jobs, dismissed, user))[j] == multiset(Visible(other, dismissed, user))[j] {
      CountOfVisible(jobs, dismissed, user, j);
      CountOfVisible(other, dismissed, user, j);
    }
    VisibleKeepsKeysDistinct(jobs, dismissed, user);
    VisibleKeepsKeysDistinct(other, dismissed, user);
  }

  lemma {:induction false} VisibleKeepsKeysDistinct(jobs: seq<Job>, dismissed: set<(string, string)>, user: string)
    requires DistinctKeys(jobs)
    ensures DistinctKeys(Visible(jobs, dismissed, user))
    ensures forall j :: j in Visible(jobs, dismissed, user) ==> j in jobs
  {
    if jobs != [] {
      var front, last := jobs[..|jobs| - 1], jobs[|jobs| - 1];
      VisibleKeepsKeysDistinct(front, dismissed, user);
      var shown := Visible(front, dismissed, user);
      forall k | 0 <= k < |shown| ensures shown[k].dedupKey != last.dedupKey {
        assert shown[k] in front;
      }
    }
  }
}
