/** Paging while the table changes between the queries (internal/logging/store.go): entries are appended by the writer
    and deleted by retention. */
module LogPagingLive {
  import opened LogQuery
  import opened LogPaging

  ghost predicate AllKeyed(tables: seq<seq<Row>>) {
    forall i :: 0 <= i < |tables| ==> Keyed(tables[i])
  }

  /** The search for the page after a nonempty one. */
  function Next(f: Filter, page: seq<Row>): Filter
    requires page != []
  {
    f.(cursor := page[|page| - 1].id)
  }

  /** The rows that a client gets whose i-th query finds the i-th table, until nothing comes. */
  function Visited(tables: seq<seq<Row>>, f: Filter): seq<Row> {
    if tables == [] then []
    else
      var page := Selected(tables[0], f);
      if page == [] then [] else page + Visited(tables[1..], Next(f, page))
  }

  /** The last of the queries is the one to which nothing comes. */
  predicate Ends(tables: seq<seq<Row>>, f: Filter) {
    && tables != []
    && var page := Selected(tables[0], f);
       if page == [] then |tables| == 1 else Ends(tables[1..], Next(f, page))
  }

  // Any changes.

  lemma PageIsPrefix(table: seq<Row>, f: Filter)
    requires Keyed(table)
    ensures var page := Selected(table, f);
            && page == Wanted(table, f)[..|page|] && InOrder(page, f.sortDesc)
            && (page == [] ==> Wanted(table, f) == [])
            && forall i :: 0 <= i < |page| ==> page[i] in table && Matches(f, page[i])
  {
    WantedInOrder(table, f);
    WantedExactly(table, f);
    var page := Selected(table, f);
    assert forall i :: 0 <= i < |page| ==> page[i] == Wanted(table, f)[i];
    assert forall i :: 0 <= i < |page| ==> Wanted(table, f)[i] in Wanted(table, f);
  }

  /** The next search wants what the search wants and what lies beyond the page. */
  lemma NextMeans(f: Filter, page: seq<Row>, row: Row)
    requires page != [] && Matches(f, page[|page| - 1]) && page[|page| - 1].id >= 1
    ensures Matches(Next(f, page), row) <==> Matches(f, row) && Before(f.sortDesc, page[|page| - 1].id, row.id)
  {
    CursorMoves(f, page[|page| - 1], row);
  }

  lemma InOrderConcat(a: seq<Row>, b: seq<Row>, desc: bool)
    requires a != [] && InOrder(a, desc) && InOrder(b, desc)
    requires forall i :: 0 <= i < |b| ==> Before(desc, a[|a| - 1].id, b[i].id)
    ensures InOrder(a + b, desc)
  {
    forall i, j | 0 <= i < j < |a + b|
      ensures Before(desc, (a + b)[i].id, (a + b)[j].id)
    {
      assert i < |a| ==> i == |a| - 1 || Before(desc, a[i].id, a[|a| - 1].id);
    }
  }

  predicate InSome(tables: seq<seq<Row>>, row: Row) {
    exists k :: 0 <= k < |tables| && row in tables[k]
  }

  /** However the table changes between the queries, nothing is visited twice or out of order, and every row visited
      matches and was in the table. */
  lemma {:induction false} NothingTwice(tables: seq<seq<Row>>, f: Filter)
    requires AllKeyed(tables)
    ensures InOrder(Visited(tables, f), f.sortDesc)
    ensures forall i :: 0 <= i < |Visited(tables, f)| ==>
              Matches(f, Visited(tables, f)[i]) && InSome(tables, Visited(tables, f)[i])
  {
    if tables != [] && Selected(tables[0], f) != [] {
      var page, later := Selected(tables[0], f), tables[1..];
      var rest := Visited(later, Next(f, page));
      PageIsPrefix(tables[0], f);
      NothingTwice(later, Next(f, page));
      forall i | 0 <= i < |rest|
        ensures Matches(f, rest[i]) && Before(f.sortDesc, page[|page| - 1].id, rest[i].id) && InSome(tables, rest[i])
      {
        NextMeans(f, page, rest[i]);
        assert InSome(later, rest[i]);
        var k :| 0 <= k < |later| && rest[i] in later[k];
        assert rest[i] in tables[k + 1];
      }
      InOrderConcat(page, rest, f.sortDesc);
      assert forall i :: 0 <= i < |page| ==> page[i] in tables[0];
    }
  }

  /** A row that matches and is there at every query is visited. */
  lemma {:induction false} WhatStaysIsVisited(tables: seq<seq<Row>>, f: Filter, row: Row)
    requires AllKeyed(tables) && Ends(tables, f)
    requires Matches(f, row) && forall i :: 0 <= i < |tables| ==> row in tables[i]
    ensures row in Visited(tables, f)
  {
    var page := Selected(tables[0], f);
    PageIsPrefix(tables[0], f);
    WantedExactly(tables[0], f);
    var all := Wanted(tables[0], f);
    var i :| 0 <= i < |all| && all[i] == row;
    if i < |page| {
      assert page[i] == row;
    } else {
      assert Before(f.sortDesc, all[|page| - 1].id, row.id);
      NextMeans(f, page, row);
      WhatStaysIsVisited(tables[1..], Next(f, page), row);
    }
  }

  // Appending only.

  /** Between two queries rows are only appended. */
  predicate Growing(tables: seq<seq<Row>>) {
    forall i :: 0 < i < |tables| ==> tables[i - 1] <= tables[i]
  }

  lemma {:induction false} FirstIsPrefix(tables: seq<seq<Row>>, i: nat)
    requires Growing(tables) && i < |tables|
    ensures tables[0] <= tables[i]
  {
    if i > 0 {
      FirstIsPrefix(tables, i - 1);
      assert tables[i - 1] <= tables[i];
    }
  }

  lemma WantedGrows(table: seq<Row>, later: seq<Row>, f: Filter)
    requires table <= later && !f.sortDesc
    ensures Wanted(table, f) <= Wanted(later, f)
  {
    FilteredConcat(table, later[|table|..], Matching(f));
    assert later == table + later[|table|..];
  }

  lemma LaterTables(tables: seq<seq<Row>>, f: Filter)
    requires AllKeyed(tables) && Growing(tables) && Ends(tables, f) && Selected(tables[0], f) != []
    ensures |tables| > 1 && AllKeyed(tables[1..]) && Growing(tables[1..])
    ensures Ends(tables[1..], Next(f, Selected(tables[0], f)))
    ensures tables[0] <= tables[1] && tables[0] <= tables[|tables| - 1]
    ensures Visited(tables, f) == Selected(tables[0], f) + Visited(tables[1..], Next(f, Selected(tables[0], f)))
  {
    FirstIsPrefix(tables, |tables| - 1);
    FirstIsPrefix(tables, 1);
  }

  /** A page and what the next search wants of a later table, in ascending order. */
  lemma AscendingPage(table: seq<Row>, later: seq<Row>, f: Filter)
    requires Keyed(table) && Keyed(later) && table <= later && !f.sortDesc && Selected(table, f) != []
    ensures Wanted(later, f) == Selected(table, f) + Wanted(later, Next(f, Selected(table, f)))
  {
    var page := Selected(table, f);
    PageIsPrefix(table, f);
    WantedGrows(table, later, f);
    assert page == Wanted(later, f)[..|page|];
    assert page[|page| - 1] == Wanted(later, f)[|page| - 1];
    NextCursor(later, f, |page|);
  }

  /** Ascending pages follow the writer: together they are what the last table holds. */
  lemma {:induction false} AscendingFollows(tables: seq<seq<Row>>, f: Filter)
    requires AllKeyed(tables) && Growing(tables) && Ends(tables, f) && !f.sortDesc
    ensures Visited(tables, f) == Wanted(tables[|tables| - 1], f)
  {
    if Selected(tables[0], f) == [] {
      PageIsPrefix(tables[0], f);
    } else {
      LaterTables(tables, f);
      AscendingFollows(tables[1..], Next(f, Selected(tables[0], f)));
      AscendingPage(tables[0], tables[|tables| - 1], f);
    }
  }

  /** Rows appended later have greater ids than a row of the table. */
  lemma AppendedIsAfter(table: seq<Row>, later: seq<Row>, row: Row)
    requires Keyed(later) && table <= later && row in table
    ensures forall i :: |table| <= i < |later| ==> later[i].id > row.id
  {
    var k :| 0 <= k < |table| && table[k] == row;
    assert later[k] == row;
  }

  /** In descending order a search with a cursor from the table does not see what is appended. */
  lemma AppendedIsUnseen(table: seq<Row>, later: seq<Row>, f: Filter, row: Row)
    requires Keyed(later) && table <= later && f.sortDesc && row in table && f.cursor == row.id && row.id >= 1
    ensures Wanted(later, f) == Wanted(table, f)
  {
    var added := later[|table|..];
    AppendedIsAfter(table, later, row);
    forall i | 0 <= i < |added|
      ensures !Matching(f)(Reversed(added)[i])
    {
      assert Reversed(added)[i] == later[|table| + (|added| - 1 - i)];
    }
    FilteredNone(Reversed(added), Matching(f));
    assert Reversed(later) == Reversed(added) + Reversed(table);
    FilteredConcat(Reversed(added), Reversed(table), Matching(f));
  }

  /** A page and what the next search wants of a later table, in descending order. */
  lemma DescendingPage(table: seq<Row>, later: seq<Row>, f: Filter)
    requires Keyed(table) && Keyed(later) && table <= later && f.sortDesc && Selected(table, f) != []
    ensures Wanted(table, f) == Selected(table, f) + Wanted(later, Next(f, Selected(table, f)))
  {
    var page := Selected(table, f);
    PageIsPrefix(table, f);
    AppendedIsUnseen(table, later, Next(f, page), page[|page| - 1]);
    NextCursor(table, f, |page|);
  }

  /** Descending pages do not see what is appended meanwhile: together they are what the first table held. */
  lemma {:induction false} DescendingIsSnapshot(tables: seq<seq<Row>>, f: Filter)
    requires AllKeyed(tables) && Growing(tables) && Ends(tables, f) && f.sortDesc
    ensures Visited(tables, f) == Wanted(tables[0], f)
  {
    if Selected(tables[0], f) == [] {
      PageIsPrefix(tables[0], f);
    } else {
      LaterTables(tables, f);
      DescendingIsSnapshot(tables[1..], Next(f, Selected(tables[0], f)));
      DescendingPage(tables[0], tables[1], f);
    }
  }
}
