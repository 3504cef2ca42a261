/** Keyset paging over a table in id order, or newest first with the id as tie-breaker. */
module Pagination {
  import opened Common

  datatype Row = Row(at: int, id: nat)

  datatype Order = ById | NewestFirst

  /** What the request carries: nothing, something that does not decode, or the key of a row. */
  datatype Cursor = Start | Malformed | After(key: Row)

  datatype Refusal = BadLimit | BadCursor

  datatype Page = Page(rows: seq<Row>, next: Cursor, total: nat)

  predicate Before(o: Order, a: Row, b: Row) {
    match o
    case ById => a.id < b.id
    case NewestFirst => b.at < a.at || (b.at == a.at && b.id < a.id)
  }

  /** `id` is the primary key. */
  ghost predicate Keyed(table: set<Row>) {
    forall a, b | a in table && b in table && a.id == b.id :: a == b
  }

  predicate Past(o: Order, cursor: Cursor, r: Row) {
    cursor.After? ==> Before(o, cursor.key, r)
  }

  /** The rows the where-clause of the cursor leaves. */
  function Rest(o: Order, table: set<Row>, cursor: Cursor): set<Row> {
    set r | r in table && Past(o, cursor, r)
  }

  // ---------------------------------------------------------------- ORDER BY

  ghost predicate IsFirst(o: Order, table: set<Row>, m: Row) {
    m in table && forall x | x in table && x != m :: Before(o, m, x)
  }

  lemma {:induction false} FirstExists(o: Order, table: set<Row>)
    requires table != {} && Keyed(table)
    ensures exists m :: IsFirst(o, table, m)
    decreases |table|
  {
    var x :| x in table;
    var m := x;
    assert table == {x} + (table - {x});
    if table - {x} != {} {
      FirstExists(o, table - {x});
      var y :| IsFirst(o, table - {x}, y);
      m := if Before(o, x, y) then x else y;
      forall z | z in table && z != m
        ensures Before(o, m, z)
      {
        assert z != x ==> z in table - {x};
      }
    }
    assert IsFirst(o, table, m);
  }

  /** The table in order. */
  ghost function Sorted(o: Order, table: set<Row>): (rows: seq<Row>)
    requires Keyed(table)
    ensures |rows| == |table|
    ensures forall r :: r in rows <==> r in table
    decreases |table|
  {
    if table == {} then []
    else
      FirstExists(o, table);
      var m :| IsFirst(o, table, m);
      assert table == {m} + (table - {m});
      [m] + Sorted(o, table - {m})
  }

  ghost predicate Ordered(o: Order, rows: seq<Row>) {
    forall i, j | 0 <= i < j < |rows| :: Before(o, rows[i], rows[j])
  }

  lemma {:induction false} SortedIsOrdered(o: Order, table: set<Row>)
    requires Keyed(table)
    ensures Ordered(o, Sorted(o, table))
    decreases |table|
  {
    if table != {} {
      var rows := Sorted(o, table);
      var m := rows[0];
      assert IsFirst(o, table, m);
      SortedIsOrdered(o, table - {m});
      forall i, j | 0 <= i < j < |rows|
        ensures Before(o, rows[i], rows[j])
      {
        assert rows[1..] == Sorted(o, table - {m});
        if i == 0 {
          assert rows[1..][j - 1] in table - {m};
        } else {
          assert Before(o, rows[1..][i - 1], rows[1..][j - 1]);
        }
      }
    }
  }

  /** There is only one way to put given rows in order. */
  lemma {:induction false} OrderedIsUnique(o: Order, a: seq<Row>, b: seq<Row>)
    requires Ordered(o, a) && Ordered(o, b) && forall r :: r in a <==> r in b
    ensures a == b
    decreases |a|
  {
    assert a == [] || a[0] in a;
    assert b == [] || b[0] in b;
    if a != [] && b != [] {
      assert a[0] == b[0];
      forall r
        ensures r in a[1..] <==> r in b[1..]
      {
        TailIn(o, a, r);
        TailIn(o, b, r);
      }
      OrderedIsUnique(o, a[1..], b[1..]);
    }
  }

  lemma TailIn(o: Order, a: seq<Row>, r: Row)
    requires Ordered(o, a) && a != []
    ensures r in a[1..] <==> r in a && r != a[0]
  {
    if r in a && r != a[0] {
      var i :| 0 <= i < |a| && a[i] == r;
      assert a[1..][i - 1] == r;
    }
  }

  // ---------------------------------------------------------------- one page

  /** page_rows. */
  ghost function PageRows(o: Order, table: set<Row>, limit: int, cursor: Cursor): (r: Result<Page, Refusal>)
    requires Keyed(table)
    ensures r.Ok? <==> 1 <= limit <= 200 && !cursor.Malformed?
    ensures r == Err(BadLimit) <==> limit < 1 || limit > 200
    ensures r == Err(BadCursor) <==> 1 <= limit <= 200 && cursor.Malformed?
    ensures r.Ok? ==> |r.value.rows| <= limit && r.value.total == |table|
    ensures r.Ok? ==> forall x | x in r.value.rows :: x in table && Past(o, cursor, x)
  {
    if !(1 <= limit <= 200) then Err(BadLimit)
    else if cursor.Malformed? then Err(BadCursor)
    else
      FetchPast(o, table, limit, cursor);
      Ok(Fetch(o, table, limit, cursor))
  }

  ghost function Fetch(o: Order, table: set<Row>, limit: nat, cursor: Cursor): (p: Page)
    requires Keyed(table) && limit > 0
    ensures |p.rows| <= limit && p.total == |table|
  {
    var all := Sorted(o, Rest(o, table, cursor));
    var fetched := if |all| > limit + 1 then all[..limit + 1] else all;
    if |fetched| > limit then Page(fetched[..limit], After(fetched[limit - 1]), |table|)
    else Page(fetched, Start, |table|)
  }

  /** There is a next page exactly when its cursor is set. */
  predicate More(p: Page) {
    p.next.After?
  }

  /** A page and what its cursor leaves are together all that was left, in order. */
  lemma PageSplits(o: Order, table: set<Row>, limit: nat, cursor: Cursor)
    requires Keyed(table) && limit > 0
    ensures More(Fetch(o, table, limit, cursor)) ==> |Fetch(o, table, limit, cursor).rows| == limit
    ensures PageAndTail(o, table, limit, cursor) == Sorted(o, Rest(o, table, cursor))
  {
    var all, p := Sorted(o, Rest(o, table, cursor)), Fetch(o, table, limit, cursor);
    FetchShape(o, table, limit, cursor);
    if More(p) {
      TailIsRest(o, table, limit, cursor);
      SplitAt(all, limit, Sorted(o, Rest(o, table, p.next)));
    }
  }

  ghost function PageAndTail(o: Order, table: set<Row>, limit: nat, cursor: Cursor): seq<Row>
    requires Keyed(table) && limit > 0
  {
    var p := Fetch(o, table, limit, cursor);
    if More(p) then p.rows + Sorted(o, Rest(o, table, p.next)) else p.rows
  }

  lemma SplitAt(all: seq<Row>, n: nat, tail: seq<Row>)
    requires n <= |all| && tail == all[n..]
    ensures all == all[..n] + tail
  {
  }

  lemma PageOrdered(o: Order, table: set<Row>, limit: nat, cursor: Cursor)
    requires Keyed(table) && limit > 0
    ensures Ordered(o, Fetch(o, table, limit, cursor).rows)
  {
    SortedIsOrdered(o, Rest(o, table, cursor));
    FetchShape(o, table, limit, cursor);
  }

  lemma FetchShape(o: Order, table: set<Row>, limit: nat, cursor: Cursor)
    requires Keyed(table) && limit > 0
    ensures var all, p := Sorted(o, Rest(o, table, cursor)), Fetch(o, table, limit, cursor);
            if |all| > limit then p.rows == all[..limit] && p.next == After(all[limit - 1]) else p.rows == all && p.next == Start
  {
  }

  lemma TailIsRest(o: Order, table: set<Row>, limit: nat, cursor: Cursor)
    requires Keyed(table) && 0 < limit < |Sorted(o, Rest(o, table, cursor))|
    ensures var all := Sorted(o, Rest(o, table, cursor));
            all[limit..] == Sorted(o, Rest(o, table, After(all[limit - 1])))
  {
    hide Sorted;
    var all := Sorted(o, Rest(o, table, cursor));
    var tail := Rest(o, table, After(all[limit - 1]));
    SortedIsOrdered(o, Rest(o, table, cursor));
    SortedIsOrdered(o, tail);
    forall r
      ensures r in all[limit..] <==> r in tail
    {
      InTail(o, table, cursor, limit - 1, r);
    }
    OrderedIsUnique(o, all[limit..], Sorted(o, tail));
  }

  lemma InTail(o: Order, table: set<Row>, cursor: Cursor, k: nat, r: Row)
    requires Keyed(table) && k < |Sorted(o, Rest(o, table, cursor))|
    ensures var all := Sorted(o, Rest(o, table, cursor));
            r in all[k + 1..] <==> r in table && Before(o, all[k], r)
  {
    hide Sorted;
    var rest := Rest(o, table, cursor);
    SortedIsOrdered(o, rest);
    InOrderedTail(o, Sorted(o, rest), k, r);
    assert Sorted(o, rest)[k] in rest;
  }

  lemma InOrderedTail(o: Order, all: seq<Row>, k: nat, r: Row)
    requires Ordered(o, all) && k < |all|
    ensures r in all[k + 1..] <==> r in all && Before(o, all[k], r)
  {
    if r in all && Before(o, all[k], r) {
      var i :| 0 <= i < |all| && all[i] == r;
      assert i > k;
      assert all[k + 1..][i - k - 1] == r;
    }
    if r in all[k + 1..] {
      var i :| 0 <= i < |all| - k - 1 && all[k + 1..][i] == r;
      assert all[i + k + 1] == r;
    }
  }

  // ---------------------------------------------------------------- following the cursor

  /** All pages of an unchanging table, one after the other. */
  ghost function Follow(o: Order, table: set<Row>, limit: nat, cursor: Cursor): seq<Row>
    requires Keyed(table) && limit > 0
    decreases |Rest(o, table, cursor)|
  {
    var p := Fetch(o, table, limit, cursor);
    PageSplits(o, table, limit, cursor);
    p.rows + if More(p) then Follow(o, table, limit, p.next) else []
  }

  /** Following the cursor ends and yields exactly the sorted table. */
  lemma {:induction false} FollowIsSorted(o: Order, table: set<Row>, limit: nat, cursor: Cursor)
    requires Keyed(table) && limit > 0
    ensures Follow(o, table, limit, cursor) == Sorted(o, Rest(o, table, cursor))
    decreases |Rest(o, table, cursor)|
  {
    var p := Fetch(o, table, limit, cursor);
    PageSplits(o, table, limit, cursor);
    if More(p) {
      FollowIsSorted(o, table, limit, p.next);
    }
  }

  ghost predicate ShownBefore(o: Order, a: Row, b: Row) {
    match o
    case ById => a.id < b.id
    case NewestFirst => a.at > b.at || (a.at == b.at && a.id > b.id)
  }

  /** From the start that is the whole table, by id or newest first with the greater id first. */
  lemma FollowFromStart(o: Order, table: set<Row>, limit: nat)
    requires Keyed(table) && limit > 0
    ensures Follow(o, table, limit, Start) == Sorted(o, table)
    ensures var rows := Follow(o, table, limit, Start);
            forall i, j | 0 <= i < j < |rows| :: ShownBefore(o, rows[i], rows[j])
  {
    SortedIsOrdered(o, table);
    FollowIsSorted(o, table, limit, Start);
    assert Rest(o, table, Start) == table;
  }

  // ---------------------------------------------------------------- a table that changes meanwhile

  /** Pages fetched one after the other, page i from the table as it is then. */
  ghost function Walk(o: Order, tables: seq<set<Row>>, limit: nat, cursor: Cursor): (rows: seq<Row>)
    requires forall i | 0 <= i < |tables| :: Keyed(tables[i])
    requires limit > 0
  {
    if tables == [] then []
    else
      var p := Fetch(o, tables[0], limit, cursor);
      p.rows + if More(p) then Walk(o, tables[1..], limit, p.next) else []
  }

  /** The walk came to a page without a next cursor. */
  ghost predicate Finished(o: Order, tables: seq<set<Row>>, limit: nat, cursor: Cursor)
    requires forall i | 0 <= i < |tables| :: Keyed(tables[i])
    requires limit > 0
  {
    tables != [] && var p := Fetch(o, tables[0], limit, cursor); More(p) ==> Finished(o, tables[1..], limit, p.next)
  }

  lemma FetchPast(o: Order, table: set<Row>, limit: nat, cursor: Cursor)
    requires Keyed(table) && limit > 0
    ensures var p := Fetch(o, table, limit, cursor);
            && (forall r | r in p.rows :: r in table && Past(o, cursor, r))
            && (More(p) ==> p.next.key in p.rows && forall r | r in p.rows :: r == p.next.key || Before(o, r, p.next.key))
  {
    hide Sorted, Fetch;
    FetchShape(o, table, limit, cursor);
    PageOrdered(o, table, limit, cursor);
    var all, p := Sorted(o, Rest(o, table, cursor)), Fetch(o, table, limit, cursor);
    forall r | r in p.rows
      ensures r in table && Past(o, cursor, r)
    {
      assert r in all;
    }
  }

  ghost predicate Somewhere(tables: seq<set<Row>>, r: Row) {
    tables != [] && (r in tables[0] || Somewhere(tables[1..], r))
  }

  /**
   Whatever is inserted or removed between the pages, the rows come in strict order, so none
   comes twice, and each was in one of the tables.
   */
  lemma {:induction false} NeverTwice(o: Order, tables: seq<set<Row>>, limit: nat, cursor: Cursor)
    requires forall i | 0 <= i < |tables| :: Keyed(tables[i])
    requires limit > 0
    ensures Ordered(o, Walk(o, tables, limit, cursor))
    ensures forall r | r in Walk(o, tables, limit, cursor) :: Past(o, cursor, r) && Somewhere(tables, r)
    decreases |tables|
  {
    if tables != [] {
      var p := Fetch(o, tables[0], limit, cursor);
      PageOrdered(o, tables[0], limit, cursor);
      FetchPast(o, tables[0], limit, cursor);
      if More(p) {
        var rest := Walk(o, tables[1..], limit, p.next);
        NeverTwice(o, tables[1..], limit, p.next);
        JoinOrdered(o, p.rows, rest, p.next.key);
        forall r | r in rest
          ensures Past(o, cursor, r)
        {
          assert Past(o, cursor, p.next.key);
        }
      }
    }
  }

  lemma JoinOrdered(o: Order, a: seq<Row>, b: seq<Row>, key: Row)
    requires Ordered(o, a) && Ordered(o, b)
    requires forall r | r in a :: r == key || Before(o, r, key)
    requires forall r | r in b :: Before(o, key, r)
    ensures Ordered(o, a + b)
  {
    var rows := a + b;
    forall i, j | 0 <= i < j < |rows|
      ensures Before(o, rows[i], rows[j])
    {
      if i < |a| <= j {
        assert a[i] in a && b[j - |a|] in b;
      }
    }
  }

  /** A walk that ends has returned every row that was there throughout. */
  lemma {:induction false} NothingMissed(o: Order, tables: seq<set<Row>>, limit: nat, cursor: Cursor, x: Row)
    requires forall i | 0 <= i < |tables| :: Keyed(tables[i])
    requires limit > 0 && Finished(o, tables, limit, cursor)
    requires Past(o, cursor, x) && forall i | 0 <= i < |tables| :: x in tables[i]
    ensures x in Walk(o, tables, limit, cursor)
    decreases |tables|
  {
    hide Sorted, Fetch, Ordered;
    var p := Fetch(o, tables[0], limit, cursor);
    PageSplits(o, tables[0], limit, cursor);
    assert x in Sorted(o, Rest(o, tables[0], cursor));
    if More(p) && x !in p.rows {
      assert x in Sorted(o, Rest(o, tables[0], p.next));
      NothingMissed(o, tables[1..], limit, p.next, x);
    }
  }

  /** Every row present throughout a walk from the start that ends is returned exactly once. */
  lemma ExactlyOnce(o: Order, tables: seq<set<Row>>, limit: nat, x: Row)
    requires forall i | 0 <= i < |tables| :: Keyed(tables[i])
    requires limit > 0 && Finished(o, tables, limit, Start)
    requires forall i | 0 <= i < |tables| :: x in tables[i]
    ensures var rows := Walk(o, tables, limit, Start);
            exists i | 0 <= i < |rows| :: rows[i] == x && forall j | 0 <= j < |rows| && rows[j] == x :: j == i
  {
    var rows := Walk(o, tables, limit, Start);
    NothingMissed(o, tables, limit, Start, x);
    NeverTwice(o, tables, limit, Start);
    var i :| 0 <= i < |rows| && rows[i] == x;
    OrderedDistinct(o, rows);
  }

  lemma OrderedDistinct(o: Order, rows: seq<Row>)
    requires Ordered(o, rows)
    ensures forall i, j | 0 <= i < j < |rows| :: rows[i] != rows[j]
  {
    forall i, j | 0 <= i < j < |rows|
      ensures rows[i] != rows[j]
    {
      assert Before(o, rows[i], rows[j]);
    }
  }
}
