/** Writing a batch to the log table: one multi-row statement for PostgreSQL (internal/logging/store_postgres.go), one
    statement a row for SQLite (internal/logging/store.go). */
module LogInsert {
  import opened Wrappers
  import opened LogEntry
  import LogPipeline

  datatype Value = Time(t: int) | Text(s: string) | Integer(n: int) | Real(x: real)

  datatype Column =
    Timestamp | RequestID | TokenName | RPC | BackendName | StatusCode | LatencyMs | RequestBytes | ResponseBytes |
    ClientIP | ErrorText | Path | Id

  function Field(e: Entry, c: Column): Value {
    match c
    case Timestamp => Time(e.timestamp)
    case RequestID => Text(e.requestID)
    case TokenName => Text(e.tokenName)
    case RPC => Text(e.rpc)
    case BackendName => Text(e.backend)
    case StatusCode => Integer(e.statusCode)
    case LatencyMs => Real(e.latencyMs)
    case RequestBytes => Integer(e.requestBytes)
    case ResponseBytes => Integer(e.responseBytes)
    case ClientIP => Text(e.clientIP)
    case ErrorText => Text(e.error)
    case Path => Text(e.path)
    case Id => Integer(0)
  }

  /** The column list of both insert statements. */
  const COLUMNS := [Timestamp, RequestID, TokenName, RPC, BackendName, StatusCode, LatencyMs, RequestBytes,
                    ResponseBytes, ClientIP, ErrorText, Path]

  /** PostgreSQL's limit on bound parameters. */
  const MAX_PARAMETERS := 65535

  /** INSERT INTO request_logs (columns) VALUES groups, where a group lists the numbers of its placeholders. */
  datatype Insert = Insert(columns: seq<Column>, groups: seq<seq<nat>>, args: seq<Value>)

  /** The k-th placeholder of a group is bound, and to this value. */
  predicate Binds(stmt: Insert, group: seq<nat>, k: nat, v: Value) {
    k < |group| && 1 <= group[k] <= |stmt.args| && stmt.args[group[k] - 1] == v
  }

  /** e is the row that a group describes: the statement lists every column, and each gets the matching field. */
  ghost predicate Describes(stmt: Insert, group: seq<nat>, e: Entry) {
    && |group| == |stmt.columns|
    && (forall c: Column :: c != Id ==> c in stmt.columns)
    && (forall k :: 0 <= k < |stmt.columns| ==> Binds(stmt, group, k, Field(e, stmt.columns[k])))
  }

  lemma FieldsDetermine(d: Entry, e: Entry)
    requires forall c: Column :: c != Id ==> Field(d, c) == Field(e, c)
    ensures d == e
  {
    assert Field(d, Timestamp) == Field(e, Timestamp) && Field(d, RequestID) == Field(e, RequestID);
    assert Field(d, TokenName) == Field(e, TokenName) && Field(d, RPC) == Field(e, RPC);
    assert Field(d, BackendName) == Field(e, BackendName) && Field(d, StatusCode) == Field(e, StatusCode);
    assert Field(d, LatencyMs) == Field(e, LatencyMs) && Field(d, RequestBytes) == Field(e, RequestBytes);
    assert Field(d, ResponseBytes) == Field(e, ResponseBytes) && Field(d, ClientIP) == Field(e, ClientIP);
    assert Field(d, ErrorText) == Field(e, ErrorText) && Field(d, Path) == Field(e, Path);
  }

  lemma RowIsUnique(stmt: Insert, group: seq<nat>, d: Entry, e: Entry)
    requires Describes(stmt, group, d) && Describes(stmt, group, e)
    ensures d == e
  {
    forall c: Column | c != Id
      ensures Field(d, c) == Field(e, c)
    {
      assert c in stmt.columns;
      var k :| 0 <= k < |stmt.columns| && stmt.columns[k] == c;
      assert Binds(stmt, group, k, Field(d, stmt.columns[k])) && Binds(stmt, group, k, Field(e, stmt.columns[k]));
    }
    FieldsDetermine(d, e);
  }

  /** The statement inserts exactly these rows. */
  ghost predicate Inserts(stmt: Insert, rows: seq<Entry>) {
    && |stmt.groups| == |rows|
    && (forall i :: 0 <= i < |rows| ==> Describes(stmt, stmt.groups[i], rows[i]))
  }

  lemma InsertedRowsAreUnique(stmt: Insert, rows: seq<Entry>, others: seq<Entry>)
    requires Inserts(stmt, rows) && Inserts(stmt, others)
    ensures rows == others
  {
    forall i | 0 <= i < |rows|
      ensures rows[i] == others[i]
    {
      RowIsUnique(stmt, stmt.groups[i], rows[i], others[i]);
    }
  }

  /** The i-th group of placeholders. */
  function Group(i: nat): (g: seq<nat>)
    ensures |g| == 12 && forall k :: 0 <= k < 12 ==> g[k] == 12 * i + k + 1
  {
    var base := i * 12;
    [base + 1, base + 2, base + 3, base + 4, base + 5, base + 6,
     base + 7, base + 8, base + 9, base + 10, base + 11, base + 12]
  }

  function Groups(n: nat): (g: seq<seq<nat>>)
    ensures |g| == n && forall i :: 0 <= i < n ==> g[i] == Group(i)
  {
    if n == 0 then [] else Groups(n - 1) + [Group(n - 1)]
  }

  function Fields(e: Entry): (r: seq<Value>)
    ensures |r| == 12
  {
    [Time(e.timestamp), Text(e.requestID), Text(e.tokenName), Text(e.rpc), Text(e.backend),
     Integer(e.statusCode), Real(e.latencyMs), Integer(e.requestBytes), Integer(e.responseBytes),
     Text(e.clientIP), Text(e.error), Text(e.path)]
  }

  function AllFields(entries: seq<Entry>): (r: seq<Value>)
    ensures |r| == 12 * |entries|
  {
    if entries == [] then [] else AllFields(entries[..|entries| - 1]) + Fields(entries[|entries| - 1])
  }

  /** Where a column stands in the column list. */
  function Position(c: Column): (k: nat)
    requires c != Id
    ensures k < 12
  {
    match c
    case Timestamp => 0
    case RequestID => 1
    case TokenName => 2
    case RPC => 3
    case BackendName => 4
    case StatusCode => 5
    case LatencyMs => 6
    case RequestBytes => 7
    case ResponseBytes => 8
    case ClientIP => 9
    case ErrorText => 10
    case Path => 11
  }

  lemma ColumnAt(c: Column)
    requires c != Id
    ensures COLUMNS[Position(c)] == c
    ensures forall k :: 0 <= k < |COLUMNS| && COLUMNS[k] == c ==> k == Position(c)
  {
  }

  lemma FieldAt(e: Entry, c: Column)
    requires c != Id
    ensures Fields(e)[Position(c)] == Field(e, c)
  {
  }

  lemma {:induction false} ArgsOf(entries: seq<Entry>, i: nat, k: nat)
    requires i < |entries| && k < 12
    ensures AllFields(entries)[12 * i + k] == Fields(entries[i])[k]
  {
    var n := |entries| - 1;
    if i < n {
      ArgsOf(entries[..n], i, k);
    }
  }

  function Statement(entries: seq<Entry>): Insert {
    Insert(COLUMNS, Groups(|entries|), AllFields(entries))
  }

  lemma GroupBinds(entries: seq<Entry>, i: nat, k: nat)
    requires i < |entries| && k < 12
    ensures Binds(Statement(entries), Group(i), k, Field(entries[i], COLUMNS[k]))
  {
    ArgsOf(entries, i, k);
    FieldAt(entries[i], COLUMNS[k]);
    ColumnAt(COLUMNS[k]);
  }

  lemma StatementInserts(entries: seq<Entry>)
    ensures Inserts(Statement(entries), entries)
  {
    forall c: Column | c != Id
      ensures c in COLUMNS
    {
      ColumnAt(c);
    }
    forall i | 0 <= i < |entries|
      ensures Describes(Statement(entries), Group(i), entries[i])
    {
      forall k | 0 <= k < 12
        ensures Binds(Statement(entries), Group(i), k, Field(entries[i], COLUMNS[k]))
      {
        GroupBinds(entries, i, k);
      }
    }
  }

  function OneTo(n: nat): (s: seq<nat>)
    ensures |s| == n && forall i :: 0 <= i < n ==> s[i] == i + 1
  {
    seq(n, i requires 0 <= i < n => i + 1)
  }

  /** The placeholders of n rows are $1 to $12n, without a gap. */
  lemma {:induction false} PlaceholdersAreConsecutive(n: nat)
    ensures Flatten(Groups(n)) == OneTo(12 * n)
  {
    if n > 0 {
      PlaceholdersAreConsecutive(n - 1);
      FlattenMore(Groups(n - 1), Group(n - 1));
    }
  }

  /** PostgreSQL: one statement for the whole batch. */
  method WriteBatch(entries: seq<Entry>) returns (stmt: Option<Insert>)
    ensures stmt.None? <==> entries == []
    ensures stmt.Some? ==> Inserts(stmt.value, entries)
    ensures stmt.Some? ==> Flatten(stmt.value.groups) == OneTo(|stmt.value.args|) && |stmt.value.args| == 12 * |entries|
  {
    if |entries| == 0 {
      return None;
    }
    var groups: seq<seq<nat>>, args: seq<Value> := [], [];
    for i := 0 to |entries|
      invariant groups == Groups(i) && args == AllFields(entries[..i])
    {
      var e, base := entries[i], i * 12;
      assert entries[..i + 1][..i] == entries[..i];
      groups := groups + [[base + 1, base + 2, base + 3, base + 4, base + 5, base + 6,
                           base + 7, base + 8, base + 9, base + 10, base + 11, base + 12]];
      args := args + [Time(e.timestamp), Text(e.requestID), Text(e.tokenName), Text(e.rpc), Text(e.backend),
                      Integer(e.statusCode), Real(e.latencyMs), Integer(e.requestBytes), Integer(e.responseBytes),
                      Text(e.clientIP), Text(e.error), Text(e.path)];
    }
    assert entries[..|entries|] == entries;
    StatementInserts(entries);
    PlaceholdersAreConsecutive(|entries|);
    return Some(Insert(COLUMNS, groups, args));
  }

  /** A batch of the log pipeline, even the one that shutdown drains, binds at most 13188 parameters. */
  lemma PipelineBatchesFit(actions: seq<LogPipeline.Action>, i: nat)
    requires i < |LogPipeline.Run(actions).written|
    ensures 12 <= 12 * |LogPipeline.Run(actions).written[i]| <= 13188 < MAX_PARAMETERS
  {
    LogPipeline.BatchesAreBounded(actions, i);
  }

  // The two dialects when the database refuses rows.

  predicate AcceptsAll(entries: seq<Entry>, accepts: Entry -> bool) {
    forall i :: 0 <= i < |entries| ==> accepts(entries[i])
  }

  predicate AcceptsNone(entries: seq<Entry>, accepts: Entry -> bool) {
    forall i :: 0 <= i < |entries| ==> !accepts(entries[i])
  }

  function Accepted(entries: seq<Entry>, accepts: Entry -> bool): seq<Entry> {
    if entries == [] then []
    else
      var n := |entries| - 1;
      Accepted(entries[..n], accepts) + if accepts(entries[n]) then [entries[n]] else []
  }

  /** Which steps of a SQLite transaction succeed. */
  datatype Transaction = Transaction(begins: bool, prepares: bool, commits: bool)

  /** SQLite: in one transaction a prepared statement is run for every entry, and the rows that the database refuses are
      passed over; when the transaction fails nothing is stored. */
  method WriteEach(entries: seq<Entry>, tx: Transaction, accepts: Entry -> bool) returns (stored: seq<Entry>)
    ensures stored == if tx.begins && tx.prepares && tx.commits then Accepted(entries, accepts) else []
  {
    if !tx.begins || !tx.prepares {
      return [];
    }
    var pending: seq<Entry> := [];
    for i := 0 to |entries|
      invariant pending == Accepted(entries[..i], accepts)
    {
      assert entries[..i + 1][..i] == entries[..i];
      if accepts(entries[i]) {
        pending := pending + [entries[i]];
      }
    }
    assert entries[..|entries|] == entries;
    return if tx.commits then pending else [];
  }

  /** What the single statement stores: everything or nothing. */
  function StoredAtOnce(entries: seq<Entry>, accepts: Entry -> bool): seq<Entry> {
    if 12 * |entries| <= MAX_PARAMETERS && AcceptsAll(entries, accepts) then entries else []
  }

  lemma {:induction false} AllAccepted(entries: seq<Entry>, accepts: Entry -> bool)
    ensures |Accepted(entries, accepts)| <= |entries|
    ensures |Accepted(entries, accepts)| == |entries| <==> AcceptsAll(entries, accepts)
    ensures |Accepted(entries, accepts)| == |entries| ==> Accepted(entries, accepts) == entries
  {
    if entries != [] {
      var n := |entries| - 1;
      AllAccepted(entries[..n], accepts);
      assert entries == entries[..n] + [entries[n]];
    }
  }

  lemma {:induction false} NoneAccepted(entries: seq<Entry>, accepts: Entry -> bool)
    ensures Accepted(entries, accepts) == [] <==> AcceptsNone(entries, accepts)
  {
    if entries != [] {
      NoneAccepted(entries[..|entries| - 1], accepts);
    }
  }

  /** On a batch of the pipeline a transaction that goes through and the single statement store the same rows exactly
      when the database accepts all entries or none. */
  lemma DialectsStoreTheSameIff(entries: seq<Entry>, accepts: Entry -> bool)
    requires |entries| <= 1099
    ensures Accepted(entries, accepts) == StoredAtOnce(entries, accepts) <==>
            AcceptsAll(entries, accepts) || AcceptsNone(entries, accepts)
  {
    AllAccepted(entries, accepts);
    NoneAccepted(entries, accepts);
  }
}
