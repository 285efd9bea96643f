/** Executing searches, and visiting a whole result page by page with the last row's id as the cursor
    (internal/logging/store.go, internal/logging/store_postgres.go). */
module LogPaging {
  import opened Wrappers
  import opened LogEntry
  import opened LogInsert
  import opened LogQuery

  /** The rows of the table by ascending id, which is its primary key and counts from 1. */
  ghost predicate Keyed(table: seq<Row>) {
    && (forall i :: 0 <= i < |table| ==> table[i].id >= 1)
    && (forall i, j :: 0 <= i < j < |table| ==> table[i].id < table[j].id)
  }

  function Reversed<T>(s: seq<T>): (r: seq<T>)
    ensures |r| == |s| && forall i :: 0 <= i < |s| ==> r[i] == s[|s| - 1 - i]
  {
    seq(|s|, i requires 0 <= i < |s| => s[|s| - 1 - i])
  }

  /** ORDER BY id. */
  function Ordered(table: seq<Row>, desc: bool): seq<Row> {
    if desc then Reversed(table) else table
  }

  function Filtered(rows: seq<Row>, p: Row -> bool): (r: seq<Row>)
    ensures |r| <= |rows|
  {
    if rows == [] then [] else Filtered(rows[..|rows| - 1], p) + if p(rows[|rows| - 1]) then [rows[|rows| - 1]] else []
  }

  function Matching(f: Filter): Row -> bool {
    row => Matches(f, row)
  }

  function SqliteTest(conditions: seq<Condition>, args: seq<Value>): Row -> bool {
    row => SqliteHolds(conditions, args, row)
  }

  function PgTest(conditions: seq<Condition>, args: seq<Value>): Row -> bool {
    row => PgHolds(conditions, args, row)
  }

  function After(desc: bool, id: int): Row -> bool {
    (row: Row) => Beyond(desc, id, row.id)
  }

  function Both(p: Row -> bool, q: Row -> bool): Row -> bool {
    row => p(row) && q(row)
  }

  function Limited(rows: seq<Row>, limit: nat): seq<Row> {
    if |rows| <= limit then rows else rows[..limit]
  }

  /** The rows of a SELECT whose conditions hold as `p` says. */
  function Executed(table: seq<Row>, page: Page, p: Row -> bool): seq<Row> {
    Limited(Filtered(Ordered(table, page.desc), p), page.limit)
  }

  /** All rows that a search asks for, in its order. */
  function Wanted(table: seq<Row>, f: Filter): seq<Row> {
    Filtered(Ordered(table, f.sortDesc), Matching(f))
  }

  /** The rows that one query returns. */
  function Selected(table: seq<Row>, f: Filter): seq<Row> {
    Limited(Wanted(table, f), PageSize(f.limit))
  }

  function Scanned(rows: seq<Row>): (r: seq<Entry>)
    ensures |r| == |rows| && forall i :: 0 <= i < |rows| ==> r[i] == rows[i].entry
  {
    seq(|rows|, i requires 0 <= i < |rows| => rows[i].entry)
  }

  lemma {:induction false} FilteredSame(rows: seq<Row>, p: Row -> bool, q: Row -> bool)
    requires forall i :: 0 <= i < |rows| ==> p(rows[i]) == q(rows[i])
    ensures Filtered(rows, p) == Filtered(rows, q)
  {
    if rows != [] {
      FilteredSame(rows[..|rows| - 1], p, q);
    }
  }

  method ScanRows(rows: seq<Row>) returns (entries: seq<Entry>)
    ensures entries == Scanned(rows)
  {
    entries := [];
    for i := 0 to |rows|
      invariant |entries| == i && forall j :: 0 <= j < i ==> entries[j] == rows[j].entry
    {
      entries := entries + [rows[i].entry];
    }
  }

  /** SQLite's Query. */
  method QuerySqlite(table: seq<Row>, f: Filter) returns (entries: seq<Entry>)
    ensures entries == Scanned(Selected(table, f))
  {
    var q, args := BuildQuery(true, f);
    FilteredSame(Ordered(table, f.sortDesc), SqliteTest(q.conditions, args), Matching(f));
    entries := ScanRows(Executed(table, q.page.value, SqliteTest(q.conditions, args)));
  }

  /** PostgreSQL's Query returns the same entries. */
  method QueryPg(table: seq<Row>, f: Filter) returns (entries: seq<Entry>)
    ensures entries == Scanned(Selected(table, f))
  {
    var q, args := PgBuildQuery(true, f);
    FilteredSame(Ordered(table, f.sortDesc), PgTest(q.conditions, args), Matching(f));
    entries := ScanRows(Executed(table, q.page.value, PgTest(q.conditions, args)));
  }

  /** SQLite's Count: all matching rows, whatever the limit. */
  method CountSqlite(table: seq<Row>, f: Filter) returns (count: nat)
    ensures count == |Wanted(table, f)|
  {
    var q, args := BuildQuery(false, f);
    FilteredSame(table, SqliteTest(q.conditions, args), Matching(f));
    CountIgnoresOrder(table, f);
    count := |Filtered(table, SqliteTest(q.conditions, args))|;
  }

  method CountPg(table: seq<Row>, f: Filter) returns (count: nat)
    ensures count == |Wanted(table, f)|
  {
    var q, args := PgBuildQuery(false, f);
    FilteredSame(table, PgTest(q.conditions, args), Matching(f));
    CountIgnoresOrder(table, f);
    count := |Filtered(table, PgTest(q.conditions, args))|;
  }

  lemma {:induction false} FilteredConcat(a: seq<Row>, b: seq<Row>, p: Row -> bool)
    ensures Filtered(a + b, p) == Filtered(a, p) + Filtered(b, p)
  {
    if b == [] {
      assert a + b == a;
    } else {
      var n := |b| - 1;
      assert (a + b)[..|a + b| - 1] == a + b[..n];
      FilteredConcat(a, b[..n], p);
    }
  }

  lemma {:induction false} FilteredReversed(rows: seq<Row>, p: Row -> bool)
    ensures |Filtered(Reversed(rows), p)| == |Filtered(rows, p)|
  {
    if rows != [] {
      var n := |rows| - 1;
      FilteredReversed(rows[..n], p);
      assert Reversed(rows) == [rows[n]] + Reversed(rows[..n]);
      FilteredConcat([rows[n]], Reversed(rows[..n]), p);
      assert [rows[n]][..0] == [];
    }
  }

  lemma CountIgnoresOrder(table: seq<Row>, f: Filter)
    ensures |Filtered(table, Matching(f))| == |Wanted(table, f)|
  {
    FilteredReversed(table, Matching(f));
  }

  // Paging.

  /** a comes before b in the order of a search. */
  predicate Before(desc: bool, a: int, b: int) {
    if desc then a > b else a < b
  }

  ghost predicate InOrder(rows: seq<Row>, desc: bool) {
    && (forall i :: 0 <= i < |rows| ==> rows[i].id >= 1)
    && (forall i, j :: 0 <= i < j < |rows| ==> Before(desc, rows[i].id, rows[j].id))
  }

  lemma {:induction false} FilteredInOrder(rows: seq<Row>, desc: bool, p: Row -> bool)
    requires InOrder(rows, desc)
    ensures InOrder(Filtered(rows, p), desc)
    ensures forall r :: r in Filtered(rows, p) <==> r in rows && p(r)
  {
    if rows != [] {
      var n := |rows| - 1;
      FilteredInOrder(rows[..n], desc, p);
      var earlier := Filtered(rows[..n], p);
      assert rows == rows[..n] + [rows[n]];
      forall i | 0 <= i < |earlier|
        ensures Before(desc, earlier[i].id, rows[n].id)
      {
        assert earlier[i] in rows[..n];
      }
    }
  }

  lemma {:induction false} FilteredTwice(rows: seq<Row>, p: Row -> bool, q: Row -> bool)
    ensures Filtered(Filtered(rows, p), q) == Filtered(rows, Both(p, q))
  {
    if rows != [] {
      var n := |rows| - 1;
      FilteredTwice(rows[..n], p, q);
      FilteredConcat(Filtered(rows[..n], p), if p(rows[n]) then [rows[n]] else [], q);
      assert [rows[n]][..0] == [];
    }
  }

  lemma {:induction false} FilteredEvery(rows: seq<Row>, p: Row -> bool)
    requires forall i :: 0 <= i < |rows| ==> p(rows[i])
    ensures Filtered(rows, p) == rows
  {
    if rows != [] {
      var n := |rows| - 1;
      FilteredEvery(rows[..n], p);
      assert rows == rows[..n] + [rows[n]];
    }
  }

  lemma {:induction false} FilteredNone(rows: seq<Row>, p: Row -> bool)
    requires forall i :: 0 <= i < |rows| ==> !p(rows[i])
    ensures Filtered(rows, p) == []
  {
    if rows != [] {
      FilteredNone(rows[..|rows| - 1], p);
    }
  }

  lemma BeyondInOrder(rows: seq<Row>, desc: bool, k: nat, i: nat)
    requires InOrder(rows, desc) && 0 < k <= |rows| && i < |rows|
    ensures Beyond(desc, rows[k - 1].id, rows[i].id) <==> i >= k
  {
    assert i < k - 1 ==> Before(desc, rows[i].id, rows[k - 1].id);
    assert i > k - 1 ==> Before(desc, rows[k - 1].id, rows[i].id);
  }

  lemma NoneBeyond(rows: seq<Row>, desc: bool, k: nat)
    requires InOrder(rows, desc) && 0 < k <= |rows|
    ensures Filtered(rows[..k], After(desc, rows[k - 1].id)) == []
  {
    var head := rows[..k];
    forall i | 0 <= i < k
      ensures !After(desc, rows[k - 1].id)(head[i])
    {
      BeyondInOrder(rows, desc, k, i);
    }
    FilteredNone(head, After(desc, rows[k - 1].id));
  }

  lemma RestBeyond(rows: seq<Row>, desc: bool, k: nat)
    requires InOrder(rows, desc) && 0 < k <= |rows|
    ensures Filtered(rows[k..], After(desc, rows[k - 1].id)) == rows[k..]
  {
    var tail := rows[k..];
    forall i | 0 <= i < |tail|
      ensures After(desc, rows[k - 1].id)(tail[i])
    {
      BeyondInOrder(rows, desc, k, k + i);
    }
    FilteredEvery(tail, After(desc, rows[k - 1].id));
  }

  lemma FilteredParts(rows: seq<Row>, k: nat, p: Row -> bool)
    requires k <= |rows| && Filtered(rows[..k], p) == []
    ensures Filtered(rows, p) == Filtered(rows[k..], p)
  {
    FilteredConcat(rows[..k], rows[k..], p);
    assert rows == rows[..k] + rows[k..];
  }

  /** In an ordered result, the rows beyond the k-th are the rows after it. */
  lemma BeyondIsRest(rows: seq<Row>, desc: bool, k: nat)
    requires InOrder(rows, desc) && 0 < k <= |rows|
    ensures Filtered(rows, After(desc, rows[k - 1].id)) == rows[k..]
  {
    NoneBeyond(rows, desc, k);
    RestBeyond(rows, desc, k);
    FilteredParts(rows, k, After(desc, rows[k - 1].id));
  }

  lemma OrderedInOrder(table: seq<Row>, desc: bool)
    requires Keyed(table)
    ensures InOrder(Ordered(table, desc), desc)
  {
  }

  lemma CursorMoves(f: Filter, last: Row, row: Row)
    requires Matches(f, last) && last.id >= 1
    ensures Both(Matching(f), After(f.sortDesc, last.id))(row) == Matching(f.(cursor := last.id))(row)
  {
  }

  lemma WantedInOrder(table: seq<Row>, f: Filter)
    requires Keyed(table)
    ensures InOrder(Wanted(table, f), f.sortDesc)
    ensures forall i :: 0 <= i < |Wanted(table, f)| ==> Matches(f, Wanted(table, f)[i])
  {
    var rows := Ordered(table, f.sortDesc);
    OrderedInOrder(table, f.sortDesc);
    FilteredInOrder(rows, f.sortDesc, Matching(f));
    forall i | 0 <= i < |Wanted(table, f)|
      ensures Matches(f, Wanted(table, f)[i])
    {
      assert Wanted(table, f)[i] in Wanted(table, f);
    }
  }

  /** The search that continues after the k-th row of what is wanted wants exactly the rest. */
  lemma NextCursor(table: seq<Row>, f: Filter, k: nat)
    requires Keyed(table) && 0 < k <= |Wanted(table, f)|
    ensures Wanted(table, f.(cursor := Wanted(table, f)[k - 1].id)) == Wanted(table, f)[k..]
  {
    var all, rows := Wanted(table, f), Ordered(table, f.sortDesc);
    var last := all[k - 1];
    WantedInOrder(table, f);
    FilteredTwice(rows, Matching(f), After(f.sortDesc, last.id));
    forall i | 0 <= i < |rows|
      ensures Both(Matching(f), After(f.sortDesc, last.id))(rows[i]) == Matching(f.(cursor := last.id))(rows[i])
    {
      CursorMoves(f, last, rows[i]);
    }
    FilteredSame(rows, Both(Matching(f), After(f.sortDesc, last.id)), Matching(f.(cursor := last.id)));
    BeyondIsRest(all, f.sortDesc, k);
  }

  /** The pages that a client sees that repeats a search with the last row's id as the cursor until nothing comes. */
  ghost function Pages(table: seq<Row>, f: Filter): seq<seq<Row>>
    requires Keyed(table)
    decreases |Wanted(table, f)|
  {
    var page := Selected(table, f);
    if page == [] then []
    else
      NextCursor(table, f, |page|);
      [page] + Pages(table, f.(cursor := page[|page| - 1].id))
  }

  lemma {:induction false} FlattenFirst<T>(s: seq<T>, ss: seq<seq<T>>)
    ensures Flatten([s] + ss) == s + Flatten(ss)
  {
    if ss == [] {
      assert [s] + ss == [s] && [s][..0] == [];
    } else {
      FlattenFirst(s, ss[..|ss| - 1]);
      assert ([s] + ss)[..|ss|] == [s] + ss[..|ss| - 1];
    }
  }

  /** After a page comes what is left. */
  lemma FirstPage(table: seq<Row>, f: Filter) returns (g: Filter)
    requires Keyed(table) && Selected(table, f) != []
    ensures Pages(table, f) == [Selected(table, f)] + Pages(table, g) && g.limit == f.limit
    ensures Wanted(table, f) == Selected(table, f) + Wanted(table, g)
    ensures |Selected(table, f)| == PageSize(f.limit) || Wanted(table, g) == []
  {
    var all, page := Wanted(table, f), Selected(table, f);
    var k := |page|;
    g := f.(cursor := page[k - 1].id);
    assert page == all[..k] && page[k - 1] == all[k - 1];
    NextCursor(table, f, k);
    assert all == all[..k] + all[k..];
  }

  /** Paging visits every matching row exactly once, in order, and then ends. */
  lemma {:induction false} PagingIsComplete(table: seq<Row>, f: Filter)
    requires Keyed(table)
    ensures Flatten(Pages(table, f)) == Wanted(table, f)
    decreases |Wanted(table, f)|
  {
    if Selected(table, f) != [] {
      var g := FirstPage(table, f);
      PagingIsComplete(table, g);
      FlattenFirst(Selected(table, f), Pages(table, g));
    }
  }

  /** No page is empty or longer than the limit, and only the last one is shorter. */
  lemma {:induction false} PagesAreFull(table: seq<Row>, f: Filter, i: nat)
    requires Keyed(table) && i < |Pages(table, f)|
    ensures 0 < |Pages(table, f)[i]| <= PageSize(f.limit)
    ensures i < |Pages(table, f)| - 1 ==> |Pages(table, f)[i]| == PageSize(f.limit)
    decreases i
  {
    var g := FirstPage(table, f);
    if i > 0 {
      PagesAreFull(table, g, i - 1);
    } else if Wanted(table, g) == [] {
      assert Pages(table, g) == [];
    }
  }

  /** A count agrees with the number of rows on all pages. */
  lemma CountIsNumberPaged(table: seq<Row>, f: Filter)
    requires Keyed(table)
    ensures |Flatten(Pages(table, f))| == |Filtered(table, Matching(f))|
  {
    PagingIsComplete(table, f);
    CountIgnoresOrder(table, f);
  }

  /** The rows wanted are the matching rows of the table, each once, in the order of the search. */
  lemma WantedExactly(table: seq<Row>, f: Filter)
    requires Keyed(table)
    ensures forall r :: r in Wanted(table, f) <==> r in table && Matches(f, r)
    ensures InOrder(Wanted(table, f), f.sortDesc)
  {
    OrderedInOrder(table, f.sortDesc);
    FilteredInOrder(Ordered(table, f.sortDesc), f.sortDesc, Matching(f));
    assert forall i :: 0 <= i < |table| ==> table[i] == Reversed(table)[|table| - 1 - i];
    assert forall r :: r in table <==> r in Reversed(table);
  }
}
