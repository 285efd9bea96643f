/** Searching the log table: one filter, two SQL dialects, and paging by row id (internal/logging/store.go,
    internal/logging/store_postgres.go). */
module LogQuery {
  import opened Wrappers
  import opened LogEntry
  import opened LogInsert

  /** A search. Empty strings, zero numbers and the zero time leave a condition out. */
  datatype Filter = Filter(rpc: string, tokenName: string, backend: string, statusCode: int, statusMin: int,
                           statusMax: int, since: int, until: int, latencyMin: real, limit: int, cursor: int,
                           sortDesc: bool)

  datatype Row = Row(id: int, entry: Entry)

  datatype Op = Eq | Ge | Le | Lt | Gt

  /** A placeholder: SQLite's `?`, or PostgreSQL's `$n`. */
  datatype Hole = Question | Dollar(n: nat)

  datatype Condition = Condition(column: Column, op: Op, hole: Hole)

  /** SELECT ... FROM request_logs WHERE conditions, with an ORDER BY id and a LIMIT unless rows are only counted. */
  datatype Query = Query(conditions: seq<Condition>, page: Option<Page>)

  datatype Page = Page(desc: bool, limit: nat)

  function ValueOf(row: Row, c: Column): Value {
    if c == Id then Integer(row.id) else Field(row.entry, c)
  }

  predicate Compare(op: Op, a: Value, b: Value) {
    match op
    case Eq => a == b
    case Ge => !Less(a, b) && Comparable(a, b)
    case Le => !Less(b, a) && Comparable(a, b)
    case Lt => Less(a, b)
    case Gt => Less(b, a)
  }

  predicate Comparable(a: Value, b: Value) {
    (a.Integer? && b.Integer?) || (a.Real? && b.Real?) || (a.Time? && b.Time?)
  }

  predicate Less(a: Value, b: Value) {
    || (a.Integer? && b.Integer? && a.n < b.n)
    || (a.Real? && b.Real? && a.x < b.x)
    || (a.Time? && b.Time? && a.t < b.t)
  }

  /** SQLite binds the k-th argument to the k-th question mark. */
  predicate SqliteHolds(conditions: seq<Condition>, args: seq<Value>, row: Row) {
    if conditions == [] then args == []
    else
      && args != [] && conditions[0].hole == Question
      && Compare(conditions[0].op, ValueOf(row, conditions[0].column), args[0])
      && SqliteHolds(conditions[1..], args[1..], row)
  }

  /** PostgreSQL binds $n to the n-th argument. */
  predicate PgHolds(conditions: seq<Condition>, args: seq<Value>, row: Row) {
    forall i :: 0 <= i < |conditions| ==> PgHoldsOne(conditions[i], args, row)
  }

  predicate PgHoldsOne(c: Condition, args: seq<Value>, row: Row) {
    && c.hole.Dollar? && 1 <= c.hole.n <= |args|
    && Compare(c.op, ValueOf(row, c.column), args[c.hole.n - 1])
  }

  predicate MatchesText(f: Filter, row: Row) {
    && (f.rpc == "" || row.entry.rpc == f.rpc)
    && (f.tokenName == "" || row.entry.tokenName == f.tokenName)
    && (f.backend == "" || row.entry.backend == f.backend)
  }

  predicate MatchesStatus(f: Filter, row: Row) {
    && MatchesText(f, row)
    && (f.statusCode == 0 || row.entry.statusCode == f.statusCode)
    && (f.statusMin == 0 || row.entry.statusCode >= f.statusMin)
    && (f.statusMax == 0 || row.entry.statusCode <= f.statusMax)
  }

  predicate MatchesTime(f: Filter, row: Row) {
    && MatchesStatus(f, row)
    && (f.since == 0 || row.entry.timestamp >= f.since)
    && (f.until == 0 || row.entry.timestamp <= f.until)
  }

  predicate MatchesRanges(f: Filter, row: Row) {
    && MatchesTime(f, row)
    && (f.latencyMin <= 0.0 || row.entry.latencyMs >= f.latencyMin)
  }

  /** What a search means. */
  predicate Matches(f: Filter, row: Row) {
    && MatchesRanges(f, row)
    && Beyond(f.sortDesc, f.cursor, row.id)
  }

  predicate Beyond(desc: bool, cursor: int, id: int) {
    cursor <= 0 || if desc then id < cursor else id > cursor
  }

  function PageSize(limit: int): nat {
    if limit <= 0 then 100 else if limit > 1000 then 1000 else limit
  }

  // The conditions that both builders collect.

  datatype Clause = Clause(column: Column, op: Op, arg: Value)

  function When(cond: bool, c: Clause): seq<Clause> {
    if cond then [c] else []
  }

  function TextClauses(f: Filter): seq<Clause> {
    [] +
    When(f.rpc != "", Clause(RPC, Eq, Text(f.rpc))) +
    When(f.tokenName != "", Clause(TokenName, Eq, Text(f.tokenName))) +
    When(f.backend != "", Clause(BackendName, Eq, Text(f.backend)))
  }

  function StatusClauses(f: Filter): seq<Clause> {
    TextClauses(f) +
    When(f.statusCode != 0, Clause(StatusCode, Eq, Integer(f.statusCode))) +
    When(f.statusMin != 0, Clause(StatusCode, Ge, Integer(f.statusMin))) +
    When(f.statusMax != 0, Clause(StatusCode, Le, Integer(f.statusMax)))
  }

  function TimeClauses(f: Filter): seq<Clause> {
    StatusClauses(f) +
    When(f.since != 0, Clause(Timestamp, Ge, Time(f.since))) +
    When(f.until != 0, Clause(Timestamp, Le, Time(f.until)))
  }

  function RangeClauses(f: Filter): seq<Clause> {
    TimeClauses(f) +
    When(f.latencyMin > 0.0, Clause(LatencyMs, Ge, Real(f.latencyMin)))
  }

  /** The conditions in the order in which they are collected. */
  function Clauses(f: Filter): seq<Clause> {
    RangeClauses(f) +
    When(f.cursor > 0, Clause(Id, if f.sortDesc then Lt else Gt, Integer(f.cursor)))
  }

  predicate Satisfies(row: Row, c: Clause) {
    Compare(c.op, ValueOf(row, c.column), c.arg)
  }

  predicate SatisfiesAll(row: Row, cs: seq<Clause>) {
    forall i :: 0 <= i < |cs| ==> Satisfies(row, cs[i])
  }

  lemma AndWhen(row: Row, cs: seq<Clause>, cond: bool, c: Clause)
    ensures SatisfiesAll(row, cs + When(cond, c)) <==> SatisfiesAll(row, cs) && (cond ==> Satisfies(row, c))
  {
    var all := cs + When(cond, c);
    assert forall i :: 0 <= i < |cs| ==> all[i] == cs[i];
    assert cond ==> all[|cs|] == c;
  }

  lemma AndText(row: Row, cs: seq<Clause>, column: Column, s: string)
    ensures SatisfiesAll(row, cs + When(s != "", Clause(column, Eq, Text(s)))) <==>
            SatisfiesAll(row, cs) && (s == "" || ValueOf(row, column) == Text(s))
  {
    AndWhen(row, cs, s != "", Clause(column, Eq, Text(s)));
  }

  lemma TextClausesMean(f: Filter, row: Row)
    ensures SatisfiesAll(row, TextClauses(f)) <==> MatchesText(f, row)
  {
    AndText(row, [], RPC, f.rpc);
    var s1 := [] + When(f.rpc != "", Clause(RPC, Eq, Text(f.rpc)));
    AndText(row, s1, TokenName, f.tokenName);
    var s2 := s1 + When(f.tokenName != "", Clause(TokenName, Eq, Text(f.tokenName)));
    AndText(row, s2, BackendName, f.backend);
  }

  lemma AndStatus(row: Row, cs: seq<Clause>, op: Op, n: int)
    requires op in {Eq, Ge, Le}
    ensures SatisfiesAll(row, cs + When(n != 0, Clause(StatusCode, op, Integer(n)))) <==>
            && SatisfiesAll(row, cs)
            && (n == 0 || match op case Ge => row.entry.statusCode >= n case Le => row.entry.statusCode <= n
                                   case _ => row.entry.statusCode == n)
  {
    AndWhen(row, cs, n != 0, Clause(StatusCode, op, Integer(n)));
  }

  lemma StatusClausesMean(f: Filter, row: Row)
    ensures SatisfiesAll(row, StatusClauses(f)) <==> MatchesStatus(f, row)
  {
    TextClausesMean(f, row);
    var s0 := TextClauses(f);
    AndStatus(row, s0, Eq, f.statusCode);
    var s1 := s0 + When(f.statusCode != 0, Clause(StatusCode, Eq, Integer(f.statusCode)));
    AndStatus(row, s1, Ge, f.statusMin);
    var s2 := s1 + When(f.statusMin != 0, Clause(StatusCode, Ge, Integer(f.statusMin)));
    AndStatus(row, s2, Le, f.statusMax);
  }

  lemma AndTime(row: Row, cs: seq<Clause>, op: Op, t: int)
    requires op in {Ge, Le}
    ensures SatisfiesAll(row, cs + When(t != 0, Clause(Timestamp, op, Time(t)))) <==>
            SatisfiesAll(row, cs) && (t == 0 || if op == Ge then row.entry.timestamp >= t else row.entry.timestamp <= t)
  {
    AndWhen(row, cs, t != 0, Clause(Timestamp, op, Time(t)));
  }

  lemma AndLatency(row: Row, cs: seq<Clause>, x: real)
    ensures SatisfiesAll(row, cs + When(x > 0.0, Clause(LatencyMs, Ge, Real(x)))) <==>
            SatisfiesAll(row, cs) && (x <= 0.0 || row.entry.latencyMs >= x)
  {
    AndWhen(row, cs, x > 0.0, Clause(LatencyMs, Ge, Real(x)));
  }

  lemma AndCursor(row: Row, cs: seq<Clause>, desc: bool, cursor: int)
    ensures SatisfiesAll(row, cs + When(cursor > 0, Clause(Id, if desc then Lt else Gt, Integer(cursor)))) <==>
            SatisfiesAll(row, cs) && Beyond(desc, cursor, row.id)
  {
    AndWhen(row, cs, cursor > 0, Clause(Id, if desc then Lt else Gt, Integer(cursor)));
  }

  lemma TimeClausesMean(f: Filter, row: Row)
    ensures SatisfiesAll(row, TimeClauses(f)) <==> MatchesTime(f, row)
  {
    StatusClausesMean(f, row);
    var s0 := StatusClauses(f);
    AndTime(row, s0, Ge, f.since);
    AndTime(row, s0 + When(f.since != 0, Clause(Timestamp, Ge, Time(f.since))), Le, f.until);
  }

  lemma RangeClausesMean(f: Filter, row: Row)
    ensures SatisfiesAll(row, RangeClauses(f)) <==> MatchesRanges(f, row)
  {
    TimeClausesMean(f, row);
    AndLatency(row, TimeClauses(f), f.latencyMin);
  }

  /** The collected conditions hold of exactly the rows that the search asks for. */
  lemma ClausesMean(f: Filter, row: Row)
    ensures SatisfiesAll(row, Clauses(f)) <==> Matches(f, row)
  {
    RangeClausesMean(f, row);
    AndCursor(row, RangeClauses(f), f.sortDesc, f.cursor);
  }

  function Args(cs: seq<Clause>): (r: seq<Value>)
    ensures |r| == |cs| && forall i :: 0 <= i < |cs| ==> r[i] == cs[i].arg
  {
    seq(|cs|, i requires 0 <= i < |cs| => cs[i].arg)
  }

  function Questions(cs: seq<Clause>): (r: seq<Condition>)
    ensures |r| == |cs| && forall i :: 0 <= i < |cs| ==> r[i] == Condition(cs[i].column, cs[i].op, Question)
  {
    seq(|cs|, i requires 0 <= i < |cs| => Condition(cs[i].column, cs[i].op, Question))
  }

  function Dollars(cs: seq<Clause>): (r: seq<Condition>)
    ensures |r| == |cs| && forall i :: 0 <= i < |cs| ==> r[i] == Condition(cs[i].column, cs[i].op, Dollar(i + 1))
  {
    seq(|cs|, i requires 0 <= i < |cs| => Condition(cs[i].column, cs[i].op, Dollar(i + 1)))
  }

  lemma {:induction false} QuestionsMean(cs: seq<Clause>, row: Row)
    ensures SqliteHolds(Questions(cs), Args(cs), row) <==> SatisfiesAll(row, cs)
  {
    if cs != [] {
      QuestionsMean(cs[1..], row);
      assert forall i :: 0 <= i < |cs| - 1 ==> cs[1..][i] == cs[i + 1];
      assert forall i :: 0 <= i < |cs| - 1 ==> Args(cs)[1..][i] == Args(cs)[i + 1] == Args(cs[1..])[i];
      assert forall i :: 0 <= i < |cs| - 1 ==> Questions(cs)[1..][i] == Questions(cs)[i + 1] == Questions(cs[1..])[i];
      assert Questions(cs)[1..] == Questions(cs[1..]);
      assert Args(cs)[1..] == Args(cs[1..]);
    }
  }

  lemma DollarsMean(cs: seq<Clause>, row: Row)
    ensures PgHolds(Dollars(cs), Args(cs), row) <==> SatisfiesAll(row, cs)
  {
    assert forall i :: 0 <= i < |cs| ==> PgHoldsOne(Dollars(cs)[i], Args(cs), row) == Satisfies(row, cs[i]);
  }

  function Paging(rows: bool, f: Filter): Option<Page> {
    if rows then Some(Page(f.sortDesc, PageSize(f.limit))) else None
  }

  /** SQLite's builder appends a condition and its argument when the search has it. */
  method Append(conditions: seq<Condition>, args: seq<Value>, ghost cs: seq<Clause>, cond: bool, c: Clause)
      returns (conditions': seq<Condition>, args': seq<Value>, ghost cs': seq<Clause>)
    requires conditions == Questions(cs) && args == Args(cs)
    ensures cs' == cs + When(cond, c)
    ensures conditions' == Questions(cs + When(cond, c)) && args' == Args(cs + When(cond, c))
  {
    conditions', args', cs' := conditions, args, cs + When(cond, c);
    if cond {
      conditions' := conditions' + [Condition(c.column, c.op, Question)];
      args' := args' + [c.arg];
    }
  }

  /** The query for a search; `rows` tells a search for rows from a count. */
  method BuildQuery(rows: bool, f: Filter) returns (q: Query, args: seq<Value>)
    ensures q == Query(Questions(Clauses(f)), Paging(rows, f)) && args == Args(Clauses(f))
    ensures forall row :: SqliteHolds(q.conditions, args, row) <==> Matches(f, row)
  {
    var conditions: seq<Condition> := [];
    args := [];
    ghost var cs: seq<Clause> := [];
    conditions, args, cs := Append(conditions, args, cs, f.rpc != "", Clause(RPC, Eq, Text(f.rpc)));
    conditions, args, cs := Append(conditions, args, cs, f.tokenName != "", Clause(TokenName, Eq, Text(f.tokenName)));
    conditions, args, cs := Append(conditions, args, cs, f.backend != "", Clause(BackendName, Eq, Text(f.backend)));
    conditions, args, cs := Append(conditions, args, cs, f.statusCode != 0,
                                   Clause(StatusCode, Eq, Integer(f.statusCode)));
    conditions, args, cs := Append(conditions, args, cs, f.statusMin != 0,
                                   Clause(StatusCode, Ge, Integer(f.statusMin)));
    conditions, args, cs := Append(conditions, args, cs, f.statusMax != 0,
                                   Clause(StatusCode, Le, Integer(f.statusMax)));
    conditions, args, cs := Append(conditions, args, cs, f.since != 0, Clause(Timestamp, Ge, Time(f.since)));
    conditions, args, cs := Append(conditions, args, cs, f.until != 0, Clause(Timestamp, Le, Time(f.until)));
    conditions, args, cs := Append(conditions, args, cs, f.latencyMin > 0.0, Clause(LatencyMs, Ge, Real(f.latencyMin)));
    conditions, args, cs := Append(conditions, args, cs, f.cursor > 0,
                                   Clause(Id, if f.sortDesc then Lt else Gt, Integer(f.cursor)));
    assert cs == Clauses(f);
    q := Query(conditions, None);
    if rows {
      var limit := f.limit;
      if limit <= 0 {
        limit := 100;
      }
      if limit > 1000 {
        limit := 1000;
      }
      q := q.(page := Some(Page(f.sortDesc, limit)));
    }
    SqliteQueryMeans(f);
  }

  /** SQLite selects exactly the rows that match. */
  lemma SqliteQueryMeans(f: Filter)
    ensures var cs := Clauses(f); forall row :: SqliteHolds(Questions(cs), Args(cs), row) <==> Matches(f, row)
  {
    forall row
      ensures var cs := Clauses(f); SqliteHolds(Questions(cs), Args(cs), row) <==> Matches(f, row)
    {
      QuestionsMean(Clauses(f), row);
      ClausesMean(f, row);
    }
  }

  /** PostgreSQL's builder numbers the condition's placeholder and counts on. */
  method Add(n: nat, conditions: seq<Condition>, args: seq<Value>, ghost cs: seq<Clause>, cond: bool, c: Clause)
      returns (n': nat, conditions': seq<Condition>, args': seq<Value>, ghost cs': seq<Clause>)
    requires conditions == Dollars(cs) && args == Args(cs) && n == |args| + 1
    ensures cs' == cs + When(cond, c) && n' == |args'| + 1
    ensures conditions' == Dollars(cs + When(cond, c)) && args' == Args(cs + When(cond, c))
  {
    n', conditions', args', cs' := n, conditions, args, cs + When(cond, c);
    if cond {
      conditions' := conditions' + [Condition(c.column, c.op, Dollar(n'))];
      args' := args' + [c.arg];
      n' := n' + 1;
    }
  }

  method PgBuildQuery(rows: bool, f: Filter) returns (q: Query, args: seq<Value>)
    ensures q == Query(Dollars(Clauses(f)), Paging(rows, f)) && args == Args(Clauses(f))
    ensures forall row :: PgHolds(q.conditions, args, row) <==> Matches(f, row)
    ensures forall i :: 0 <= i < |q.conditions| ==> q.conditions[i].hole == Dollar(i + 1)
  {
    var conditions: seq<Condition> := [];
    var n := 1;
    args := [];
    ghost var cs: seq<Clause> := [];
    n, conditions, args, cs := Add(n, conditions, args, cs, f.rpc != "", Clause(RPC, Eq, Text(f.rpc)));
    n, conditions, args, cs := Add(n, conditions, args, cs, f.tokenName != "",
                                   Clause(TokenName, Eq, Text(f.tokenName)));
    n, conditions, args, cs := Add(n, conditions, args, cs, f.backend != "", Clause(BackendName, Eq, Text(f.backend)));
    n, conditions, args, cs := Add(n, conditions, args, cs, f.statusCode != 0,
                                   Clause(StatusCode, Eq, Integer(f.statusCode)));
    n, conditions, args, cs := Add(n, conditions, args, cs, f.statusMin != 0,
                                   Clause(StatusCode, Ge, Integer(f.statusMin)));
    n, conditions, args, cs := Add(n, conditions, args, cs, f.statusMax != 0,
                                   Clause(StatusCode, Le, Integer(f.statusMax)));
    n, conditions, args, cs := Add(n, conditions, args, cs, f.since != 0, Clause(Timestamp, Ge, Time(f.since)));
    n, conditions, args, cs := Add(n, conditions, args, cs, f.until != 0, Clause(Timestamp, Le, Time(f.until)));
    n, conditions, args, cs := Add(n, conditions, args, cs, f.latencyMin > 0.0,
                                   Clause(LatencyMs, Ge, Real(f.latencyMin)));
    n, conditions, args, cs := Add(n, conditions, args, cs, f.cursor > 0,
                                   Clause(Id, if f.sortDesc then Lt else Gt, Integer(f.cursor)));
    assert cs == Clauses(f);
    q := Query(conditions, None);
    if rows {
      var limit := f.limit;
      if limit <= 0 {
        limit := 100;
      }
      if limit > 1000 {
        limit := 1000;
      }
      q := q.(page := Some(Page(f.sortDesc, limit)));
    }
    PgQueryMeans(f);
  }

  /** PostgreSQL selects exactly the rows that match. */
  lemma PgQueryMeans(f: Filter)
    ensures var cs := Clauses(f); forall row :: PgHolds(Dollars(cs), Args(cs), row) <==> Matches(f, row)
  {
    forall row
      ensures var cs := Clauses(f); PgHolds(Dollars(cs), Args(cs), row) <==> Matches(f, row)
    {
      DollarsMean(Clauses(f), row);
      ClausesMean(f, row);
    }
  }
}
