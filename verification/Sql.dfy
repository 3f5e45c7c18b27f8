/** The fragment of SQL that the feed query is compiled to, under three-valued logic. */
module Sql {
  import opened Options
  import opened Text
  import opened FeedQuery

  datatype Value = Null | Txt(text: string) | Num(num: int) | Bool(b: bool) | Instant(at: int)

  datatype Column =
    | StaleCol | TitleCol | CompanyCol | LocationCol | RemoteCol | SalaryMinCol | SalaryMaxCol
    | EmploymentTypeCol | SourceCol | YearsExperienceCol | PostedAtCol

  /** A stored listing. */
  datatype Row = Row(job: Job, stale: bool)

  /** `ReqValue` is the element bound by `ExistsReq`, the EXISTS over the requirements array.
      `NotDismissed` is the NOT EXISTS over the user's job states. Parameters count from 1. */
  datatype Expr =
    | Col(column: Column)
    | Param(n: nat)
    | Lit(value: Value)
    | ReqValue
    | LowerOf(e: Expr)
    | ConcatOf(a: Expr, b: Expr)
    | StrPosOf(a: Expr, b: Expr)
    | CoalesceOf(a: Expr, b: Expr)
    | Gt(a: Expr, b: Expr)
    | Ge(a: Expr, b: Expr)
    | Le(a: Expr, b: Expr)
    | Eq(a: Expr, b: Expr)
    | IsNull(e: Expr)
    | IsNotNull(e: Expr)
    | And(a: Expr, b: Expr)
    | Or(a: Expr, b: Expr)
    | ExistsReq(e: Expr)
    | NotDismissed(user: Expr)

  /** What an expression is evaluated in; `dismissed` holds the (user, job key) pairs marked dismissed. */
  datatype Scope = Scope(row: Row, args: seq<Value>, req: Option<string>, dismissed: set<(string, string)>)

  function OptNum(v: Option<int>): Value { if v.None? then Null else Num(v.value) }

  /** Columns as Upsert fills them: Go strings are never NULL, nil pointers are. */
  function ColumnValue(row: Row, c: Column): Value {
    match c
    case StaleCol => Bool(row.stale)
    case TitleCol => Txt(row.job.title)
    case CompanyCol => Txt(row.job.company)
    case LocationCol => Txt(row.job.location)
    case RemoteCol => Bool(row.job.remote)
    case SalaryMinCol => OptNum(row.job.statedMin)
    case SalaryMaxCol => OptNum(row.job.statedMax)
    case EmploymentTypeCol => Txt(row.job.employmentType)
    case SourceCol => Txt(row.job.source)
    case YearsExperienceCol => OptNum(row.job.yearsExperience)
    case PostedAtCol => if row.job.postedAt.None? then Null else Instant(row.job.postedAt.value)
  }

  function And3(a: Value, b: Value): Value {
    if a == Bool(false) || b == Bool(false) then Bool(false)
    else if a == Bool(true) && b == Bool(true) then Bool(true)
    else Null
  }

  function Or3(a: Value, b: Value): Value {
    if a == Bool(true) || b == Bool(true) then Bool(true)
    else if a == Bool(false) && b == Bool(false) then Bool(false)
    else Null
  }

  /** A comparison is NULL as soon as one side is; sides of different types do not compare. */
  function AtMost(a: Value, b: Value): Value {
    match (a, b)
    case (Num(x), Num(y)) => Bool(x <= y)
    case (Instant(x), Instant(y)) => Bool(x <= y)
    case _ => Null
  }

  function Not3(a: Value): Value {
    if a.Bool? then Bool(!a.b) else Null
  }

  function Equal(a: Value, b: Value): Value {
    if (a.Txt? && b.Txt?) || (a.Num? && b.Num?) || (a.Bool? && b.Bool?) || (a.Instant? && b.Instant?)
    then Bool(a == b) else Null
  }

  function Eval(e: Expr, scope: Scope): Value {
    match e
    case Col(c) => ColumnValue(scope.row, c)
    case Param(n) => if 1 <= n <= |scope.args| then scope.args[n - 1] else Null
    case Lit(v) => v
    case ReqValue => if scope.req.None? then Null else Txt(scope.req.value)
    case LowerOf(a) => var v := Eval(a, scope); if v.Txt? then Txt(Lower(v.text)) else Null
    case ConcatOf(a, b) =>
      var v, w := Eval(a, scope), Eval(b, scope); if v.Txt? && w.Txt? then Txt(v.text + w.text) else Null
    case StrPosOf(a, b) =>
      var v, w := Eval(a, scope), Eval(b, scope); if v.Txt? && w.Txt? then Num(StrPos(v.text, w.text)) else Null
    case CoalesceOf(a, b) => var v := Eval(a, scope); if v.Null? then Eval(b, scope) else v
    case Gt(a, b) => Not3(AtMost(Eval(a, scope), Eval(b, scope)))
    case Ge(a, b) => AtMost(Eval(b, scope), Eval(a, scope))
    case Le(a, b) => AtMost(Eval(a, scope), Eval(b, scope))
    case Eq(a, b) => Equal(Eval(a, scope), Eval(b, scope))
    case IsNull(a) => Bool(Eval(a, scope).Null?)
    case IsNotNull(a) => Bool(!Eval(a, scope).Null?)
    case And(a, b) => And3(Eval(a, scope), Eval(b, scope))
    case Or(a, b) => Or3(Eval(a, scope), Eval(b, scope))
    case ExistsReq(a) =>
      Bool(exists r :: r in scope.row.job.requirements && Eval(a, scope.(req := Some(r))) == Bool(true))
    case NotDismissed(user) =>
      var v := Eval(user, scope);
      Bool(!(v.Txt? && (v.text, scope.row.job.dedupKey) in scope.dismissed))
  }

  /** WHERE keeps a row only if its condition is true, not if it is NULL. */
  predicate Holds(e: Expr, scope: Scope) {
    Eval(e, scope) == Bool(true)
  }

  /** The clauses joined with AND. */
  function Join(clauses: seq<Expr>): Expr
    requires clauses != []
  {
    if |clauses| == 1 then clauses[0] else And(Join(clauses[..|clauses| - 1]), clauses[|clauses| - 1])
  }

  lemma {:induction false} JoinHolds(clauses: seq<Expr>, scope: Scope)
    requires clauses != []
    ensures Holds(Join(clauses), scope) <==> forall c :: c in clauses ==> Holds(c, scope)
  {
    if |clauses| > 1 {
      var front, last := clauses[..|clauses| - 1], clauses[|clauses| - 1];
      JoinHolds(front, scope);
      assert forall c :: c in clauses <==> c in front || c == last;
      assert Holds(Join(clauses), scope) <==> Holds(Join(front), scope) && Holds(last, scope);
    } else {
      assert clauses == [clauses[0]];
    }
  }

  /** The shape of every text filter. */
  function Occurs(hay: Expr, needle: Expr): Expr {
    Gt(StrPosOf(LowerOf(hay), LowerOf(needle)), Lit(Num(0)))
  }

  lemma OccursHolds(hay: Expr, needle: Expr, scope: Scope, h: string, x: string)
    requires Eval(hay, scope) == Txt(h) && Eval(needle, scope) == Txt(x)
    ensures Holds(Occurs(hay, needle), scope) <==> Contains(Lower(h), Lower(x))
  {
    assert Eval(LowerOf(hay), scope) == Txt(Lower(h)) && Eval(LowerOf(needle), scope) == Txt(Lower(x));
    var pos := StrPosOf(LowerOf(hay), LowerOf(needle));
    assert Eval(pos, scope) == Num(StrPos(Lower(h), Lower(x)));
    assert Eval(Lit(Num(0)), scope) == Num(0);
    assert Eval(Gt(pos, Lit(Num(0))), scope) == Not3(AtMost(Eval(pos, scope), Num(0)));
    StrPosContains(Lower(h), Lower(x));
  }

  lemma LeafEval(c: Column, n: nat, scope: Scope)
    requires 1 <= n <= |scope.args|
    ensures Eval(Col(c), scope) == ColumnValue(scope.row, c) && Eval(Param(n), scope) == scope.args[n - 1]
  {
  }

  lemma ColumnEqualsParam(c: Column, n: nat, scope: Scope)
    requires 1 <= n <= |scope.args|
    ensures Eval(Eq(Col(c), Param(n)), scope) == Equal(ColumnValue(scope.row, c), scope.args[n - 1])
  {
    LeafEval(c, n, scope);
  }

  lemma ColumnAtLeastParam(c: Column, n: nat, scope: Scope)
    requires 1 <= n <= |scope.args|
    ensures Eval(Ge(Col(c), Param(n)), scope) == AtMost(scope.args[n - 1], ColumnValue(scope.row, c))
  {
    LeafEval(c, n, scope);
  }

  lemma ColumnAtMostParam(c: Column, n: nat, scope: Scope)
    requires 1 <= n <= |scope.args|
    ensures Eval(Le(Col(c), Param(n)), scope) == AtMost(ColumnValue(scope.row, c), scope.args[n - 1])
  {
    LeafEval(c, n, scope);
  }

  lemma ColumnNullTests(c: Column, scope: Scope)
    ensures Eval(IsNull(Col(c)), scope) == Bool(ColumnValue(scope.row, c).Null?)
    ensures Eval(IsNotNull(Col(c)), scope) == Bool(!ColumnValue(scope.row, c).Null?)
  {
    assert Eval(Col(c), scope) == ColumnValue(scope.row, c);
  }

  /** A column against a parameter. */
  lemma ColumnAgainstParam(c: Column, n: nat, scope: Scope)
    requires 1 <= n <= |scope.args|
    ensures Eval(Eq(Col(c), Param(n)), scope) == Equal(ColumnValue(scope.row, c), scope.args[n - 1])
    ensures Eval(Ge(Col(c), Param(n)), scope) == AtMost(scope.args[n - 1], ColumnValue(scope.row, c))
    ensures Eval(Le(Col(c), Param(n)), scope) == AtMost(ColumnValue(scope.row, c), scope.args[n - 1])
    ensures Eval(IsNull(Col(c)), scope) == Bool(ColumnValue(scope.row, c).Null?)
    ensures Eval(IsNotNull(Col(c)), scope) == Bool(!ColumnValue(scope.row, c).Null?)
  {
    ColumnEqualsParam(c, n, scope);
    ColumnAtLeastParam(c, n, scope);
    ColumnAtMostParam(c, n, scope);
    ColumnNullTests(c, scope);
  }

  // ---- running a statement ----

  type Table = seq<Row>

  ghost predicate TableOk(table: Table) {
    forall i, k :: 0 <= i < k < |table| ==> table[i].job.dedupKey != table[k].job.dedupKey
  }

  function Select(table: Table, where: Expr, args: seq<Value>, dismissed: set<(string, string)>): seq<Job> {
    if table == [] then [] else
    var last := table[|table| - 1];
    Select(table[..|table| - 1], where, args, dismissed) +
    if Holds(where, Scope(last, args, None, dismissed)) then [last.job] else []
  }

  /** ORDER BY posted_at DESC NULLS LAST, title, dedup_key. */
  predicate RowBefore(a: Job, b: Job) {
    var newer := a.postedAt.Some? && (b.postedAt.None? || a.postedAt.value > b.postedAt.value);
    newer || (a.postedAt == b.postedAt &&
              (Before(a.title, b.title) || (a.title == b.title && Before(a.dedupKey, b.dedupKey))))
  }

  lemma RowOrderIsFeedOrder(a: Job, b: Job)
    ensures RowBefore(a, b) <==> Less(a, b)
  {
    BeforeIsTotal(a.title, b.title);
    BeforeIsTotal(a.dedupKey, b.dedupKey);
  }

  ghost predicate InRowOrder(rows: seq<Job>) {
    forall i, k :: 0 <= i < k < |rows| ==> !RowBefore(rows[k], rows[i])
  }

  /** The database's sort; only the ORDER BY contract is used. */
  method OrderRows(rows: seq<Job>) returns (r: seq<Job>)
    requires DistinctKeys(rows)
    ensures multiset(r) == multiset(rows) && InRowOrder(r)
  {
    r := SortSlice(rows);
    forall i, k | 0 <= i < k < |r| ensures !RowBefore(r[k], r[i]) {
      RowOrderIsFeedOrder(r[k], r[i]);
    }
  }

  method QueryCount(table: Table, where: Expr, args: seq<Value>, dismissed: set<(string, string)>) returns (n: nat)
    ensures n == |Select(table, where, args, dismissed)|
  {
    n := |Select(table, where, args, dismissed)|;
  }

  /** SELECT ... WHERE ... ORDER BY ... LIMIT $limitParam OFFSET $offsetParam. */
  method QueryPage(table: Table, where: Expr, args: seq<Value>, dismissed: set<(string, string)>,
                   limitParam: nat, offsetParam: nat) returns (jobs: seq<Job>)
    requires TableOk(table)
    requires 1 <= limitParam <= |args| && args[limitParam - 1].Num? && args[limitParam - 1].num >= 0
    requires 1 <= offsetParam <= |args| && args[offsetParam - 1].Num? && args[offsetParam - 1].num >= 0
    ensures jobs == Slice(Sorted(Select(table, where, args, dismissed)), args[offsetParam - 1].num, args[limitParam - 1].num)
  {
    var rows := Select(table, where, args, dismissed);
    SelectKeepsKeysDistinct(table, where, args, dismissed);
    var ordered := OrderRows(rows);
    forall i, k | 0 <= i < k < |ordered| ensures !Less(ordered[k], ordered[i]) {
      RowOrderIsFeedOrder(ordered[k], ordered[i]);
    }
    SortIsDetermined(rows, ordered);
    jobs := Slice(ordered, args[offsetParam - 1].num, args[limitParam - 1].num);
  }

  lemma {:induction false} SelectKeepsKeysDistinct(table: Table, where: Expr, args: seq<Value>, dismissed: set<(string, string)>)
    requires TableOk(table)
    ensures DistinctKeys(Select(table, where, args, dismissed))
    ensures forall j :: j in Select(table, where, args, dismissed) ==> exists i :: 0 <= i < |table| && table[i].job == j
  {
    if table != [] {
      var front := table[..|table| - 1];
      SelectKeepsKeysDistinct(front, where, args, dismissed);
      var rows := Select(front, where, args, dismissed);
      forall k | 0 <= k < |rows| ensures rows[k].dedupKey != table[|table| - 1].job.dedupKey {
        assert rows[k] in rows;
        var i :| 0 <= i < |front| && front[i].job == rows[k];
        assert table[i].job == rows[k];
      }
      forall j | j in Select(table, where, args, dismissed) ensures exists i :: 0 <= i < |table| && table[i].job == j {
        if j in rows {
          var i :| 0 <= i < |front| && front[i].job == j;
          assert table[i].job == j;
        } else {
          assert table[|table| - 1].job == j;
        }
      }
    }
  }
}
