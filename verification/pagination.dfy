/**
 Keyset pagination: a page is the part of the table below the cursor, sorted by (value, id)
 descending, cut to the limit after probing for one row more. The cursor of the next page names
 the last row of this one. Tables may change arbitrarily between two pages.
 */
module Pagination {
  import opened Prelude
  import opened CursorCodec

  datatype Row = Row(value: Instant, id: string, rest: string)

  /** A position in the order: what a cursor stands for. */
  datatype Position = Position(value: Instant, id: string)

  datatype Page = Page(rows: seq<Row>, nextCursor: Option<string>, hasNext: bool)

  // ---------------------------------------------------------------- the order

  predicate IdLess(a: string, b: string) {
    b != [] && (a == [] || a[0] < b[0] || (a[0] == b[0] && IdLess(a[1..], b[1..])))
  }

  predicate Less(a: Position, b: Position) {
    a.value < b.value || (a.value == b.value && IdLess(a.id, b.id))
  }

  function At(r: Row): Position {
    Position(r.value, r.id)
  }

  /** The ids agree up to position `k`, where `a` ends first or has the smaller character. */
  predicate DiffersAt(a: string, b: string, k: nat) {
    k <= |a| && k < |b| && a[..k] == b[..k] && (k < |a| ==> a[k] < b[k])
  }

  lemma {:induction false} IdOrderIsLexicographic(a: string, b: string)
    ensures IdLess(a, b) <==> exists k: nat :: DiffersAt(a, b, k)
  {
    if a == [] {
      assert b != [] ==> DiffersAt(a, b, 0);
    } else if b != [] {
      IdOrderIsLexicographic(a[1..], b[1..]);
      assert a[0] < b[0] ==> DiffersAt(a, b, 0);
      if a[0] == b[0] && IdLess(a[1..], b[1..]) {
        var k: nat :| DiffersAt(a[1..], b[1..], k);
        assert a[..k + 1] == [a[0]] + a[1..][..k] && b[..k + 1] == [b[0]] + b[1..][..k];
        assert DiffersAt(a, b, k + 1);
      }
      forall k: nat | DiffersAt(a, b, k) ensures IdLess(a, b) {
        if k > 0 {
          assert a[0] == a[..k][0] && b[0] == b[..k][0];
          assert a[1..][..k - 1] == a[..k][1..] && b[1..][..k - 1] == b[..k][1..];
          assert DiffersAt(a[1..], b[1..], k - 1);
        }
      }
    }
  }

  /** One position comes after another on the pages: it is older, or as old with the smaller id. */
  lemma OlderComesLater(rows: seq<Row>, i: nat, j: nat)
    requires UniqueIds(rows) && i < j < |rows|
    ensures var s := SortDescending(rows);
            && |s| == |rows|
            && (s[j].value < s[i].value
                || (s[j].value == s[i].value && exists k: nat :: DiffersAt(s[j].id, s[i].id, k)))
  {
    SortedIsDescending(rows);
    var s := SortDescending(rows);
    IdOrderIsLexicographic(s[j].id, s[i].id);
  }

  /** What a cursor admits: what is older than its position, or as old with a smaller id. */
  lemma BelowIsOlder(r: Row, bound: Position)
    ensures Below(r, Some(bound))
            <==> r.value < bound.value || (r.value == bound.value && exists k: nat :: DiffersAt(r.id, bound.id, k))
  {
    IdOrderIsLexicographic(r.id, bound.id);
  }

  lemma {:induction false} IdOrderIsTotal(a: string, b: string)
    ensures (IdLess(a, b) <==> a != b && !IdLess(b, a)) && !IdLess(a, a)
  {
    if a != [] {
      IdOrderIsTotal(a[1..], if b == [] then [] else b[1..]);
      assert b != [] && a[0] == b[0] && a[1..] == b[1..] ==> a == [a[0]] + a[1..] && b == [b[0]] + b[1..];
    }
  }

  lemma {:induction false} IdOrderIsTransitive(a: string, b: string, c: string)
    requires IdLess(a, b) && IdLess(b, c)
    ensures IdLess(a, c)
  {
    if a != [] && a[0] == b[0] == c[0] {
      IdOrderIsTransitive(a[1..], b[1..], c[1..]);
    }
  }

  lemma OrderIsTotal(a: Position, b: Position)
    ensures Less(a, b) <==> a != b && !Less(b, a)
    ensures !Less(a, a)
  {
    IdOrderIsTotal(a.id, b.id);
  }

  lemma OrderIsTransitive(a: Position, b: Position, c: Position)
    requires Less(a, b) && Less(b, c)
    ensures Less(a, c)
  {
    if a.value == b.value == c.value {
      IdOrderIsTransitive(a.id, b.id, c.id);
    }
  }

  // ---------------------------------------------------------------- filter and sort

  predicate Below(r: Row, bound: Option<Position>) {
    bound.None? || Less(At(r), bound.value)
  }

  function Matching(table: seq<Row>, bound: Option<Position>): (m: seq<Row>)
    ensures forall r :: r in m <==> r in table && Below(r, bound)
    ensures |m| <= |table|
  {
    if table == [] then []
    else
      var tail := Matching(table[1..], bound);
      if Below(table[0], bound) then [table[0]] + tail else tail
  }

  function Insert(r: Row, sorted: seq<Row>): (s: seq<Row>)
    ensures |s| == |sorted| + 1
    ensures forall x :: x in s <==> x == r || x in sorted
  {
    if sorted == [] || !Less(At(r), At(sorted[0])) then [r] + sorted
    else [sorted[0]] + Insert(r, sorted[1..])
  }

  function SortDescending(rows: seq<Row>): (s: seq<Row>)
    ensures |s| == |rows|
    ensures forall x :: x in s <==> x in rows
  {
    if rows == [] then [] else Insert(rows[0], SortDescending(rows[1..]))
  }

  predicate Descending(s: seq<Row>) {
    forall i, j :: 0 <= i < j < |s| ==> Less(At(s[j]), At(s[i]))
  }

  /** Ids are primary keys. */
  predicate UniqueIds(table: seq<Row>) {
    forall i, j :: 0 <= i < j < |table| ==> table[i].id != table[j].id
  }

  lemma DescendingCons(r: Row, s: seq<Row>)
    requires Descending(s) && (s != [] ==> Less(At(s[0]), At(r)))
    ensures Descending([r] + s)
  {
    forall j | 0 < j < |s| ensures Less(At(s[j]), At(r)) {
      OrderIsTransitive(At(s[j]), At(s[0]), At(r));
    }
  }

  lemma {:induction false} InsertKeepsOrder(r: Row, sorted: seq<Row>)
    requires Descending(sorted) && forall x :: x in sorted ==> At(x) != At(r)
    ensures Descending(Insert(r, sorted))
  {
    if sorted == [] || !Less(At(r), At(sorted[0])) {
      if sorted != [] {
        assert sorted[0] in sorted;
        OrderIsTotal(At(r), At(sorted[0]));
      }
      DescendingCons(r, sorted);
    } else {
      InsertKeepsOrder(r, sorted[1..]);
      var tail := Insert(r, sorted[1..]);
      assert tail[0] in tail;
      DescendingCons(sorted[0], tail);
    }
  }

  lemma {:induction false} SortedIsDescending(rows: seq<Row>)
    requires UniqueIds(rows)
    ensures Descending(SortDescending(rows))
  {
    if rows != [] {
      SortedIsDescending(rows[1..]);
      forall x | x in SortDescending(rows[1..]) ensures At(x) != At(rows[0]) {
        var i :| 0 <= i < |rows[1..]| && rows[1..][i] == x;
        assert rows[i + 1] == x;
      }
      InsertKeepsOrder(rows[0], SortDescending(rows[1..]));
    }
  }

  lemma {:induction false} MatchingKeepsIds(table: seq<Row>, bound: Option<Position>)
    requires UniqueIds(table)
    ensures UniqueIds(Matching(table, bound))
  {
    if table != [] {
      MatchingKeepsIds(table[1..], bound);
      var tail := Matching(table[1..], bound);
      forall i | 0 <= i < |tail| ensures tail[i].id != table[0].id {
        assert tail[i] in tail;
        var j :| 0 <= j < |table[1..]| && table[1..][j] == tail[i];
        assert table[j + 1] == tail[i];
      }
    }
  }

  /** The rows below the bound, in page order. */
  function Remaining(table: seq<Row>, bound: Option<Position>): seq<Row> {
    SortDescending(Matching(table, bound))
  }

  lemma RemainingIsDescending(table: seq<Row>, bound: Option<Position>)
    requires UniqueIds(table)
    ensures Descending(Remaining(table, bound))
    ensures forall r :: r in Remaining(table, bound) <==> r in table && Below(r, bound)
  {
    MatchingKeepsIds(table, bound);
    SortedIsDescending(Matching(table, bound));
  }

  /** There is only one way to arrange rows in descending order. */
  lemma {:induction false} DescendingIsUnique(a: seq<Row>, b: seq<Row>)
    requires Descending(a) && Descending(b) && forall r :: r in a <==> r in b
    ensures a == b
  {
    SomeRow(a);
    SomeRow(b);
    if a != [] {
      assert a[0] in a && b[0] in b;
      var i :| 0 <= i < |b| && b[i] == a[0];
      var j :| 0 <= j < |a| && a[j] == b[0];
      OrderIsTotal(At(a[0]), At(b[0]));
      assert a[0] == b[0];
      forall r ensures r in a[1..] <==> r in b[1..] {
        OrderIsTotal(At(a[0]), At(a[0]));
        TailHasTheRest(a, r);
        TailHasTheRest(b, r);
      }
      DescendingIsUnique(a[1..], b[1..]);
    }
  }

  lemma SomeRow(s: seq<Row>)
    ensures s != [] ==> exists r :: r in s
  {
    if s != [] {
      assert s[0] in s;
    }
  }

  lemma TailHasTheRest(s: seq<Row>, r: Row)
    requires s != [] && Descending(s)
    ensures r in s[1..] <==> r in s && r != s[0]
  {
    OrderIsTotal(At(s[0]), At(s[0]));
    if r in s && r != s[0] {
      var i :| 0 <= i < |s| && s[i] == r;
      assert s[1..][i - 1] == r;
    }
    if r in s[1..] {
      var i :| 0 <= i < |s[1..]| && s[1..][i] == r;
      assert s[i + 1] == r;
    }
  }

  // ---------------------------------------------------------------- one page

  /** The position a request continues from; an empty cursor counts as none. */
  function Bound(f: TimeFormat, cursor: Option<string>): Result<Option<Position>, CursorError> {
    if cursor.None? || cursor.value == "" then Success(None)
    else
      match DecodeCursor(f, cursor.value)
      case Failure(error) => Failure(error)
      case Success((value, id)) => Success(Some(Position(value, id)))
  }

  function Take<T>(s: seq<T>, n: nat): seq<T> {
    if |s| <= n then s else s[..n]
  }

  function PaginateCursor(f: TimeFormat, table: seq<Row>, limit: nat, cursor: Option<string>): Result<Page, CursorError> {
    match Bound(f, cursor)
    case Failure(error) => Failure(error)
    case Success(bound) =>
      var probed := Take(Remaining(table, bound), limit + 1);
      var hasNext := |probed| > limit;
      var rows := Take(probed, limit);
      var nextCursor := if hasNext && rows != []
                        then Some(EncodeCursor(f, rows[|rows| - 1].value, rows[|rows| - 1].id)) else None;
      Success(Page(rows, nextCursor, hasNext))
  }

  ghost predicate FaithfulFormat(f: TimeFormat) {
    forall value :: Faithful(f, value)
  }

  /** A page is the longest allowed start of what remains; it promises more exactly when rows were
      left out, and its cursor then leads back to its last row. */
  lemma PageIsAStartOfTheRest(f: TimeFormat, table: seq<Row>, limit: nat, cursor: Option<string>)
    requires Bound(f, cursor).Success? && FaithfulFormat(f)
    ensures var rest := Remaining(table, Bound(f, cursor).value);
            var answer := PaginateCursor(f, table, limit, cursor);
            && answer.Success?
            && answer.value.rows == rest[..Min(limit, |rest|)]
            && (answer.value.hasNext <==> |rest| > limit)
            && (answer.value.nextCursor.Some? <==> |rest| > limit && limit > 0)
            && (answer.value.nextCursor.Some? ==> Bound(f, answer.value.nextCursor) == Success(Some(At(rest[limit - 1]))))
  {
    var rest := Remaining(table, Bound(f, cursor).value);
    if |rest| > limit > 0 {
      assert Take(Take(rest, limit + 1), limit) == rest[..limit];
      var last := rest[limit - 1];
      CursorRoundTrip(f, last.value, last.id);
      CursorsAreDistinct(f, last.value, last.id, last.value, last.id);
    }
  }

  /** A malformed cursor is an error, not an empty page. */
  lemma MalformedCursorFails(f: TimeFormat, table: seq<Row>, limit: nat, cursor: Option<string>)
    ensures PaginateCursor(f, table, limit, cursor).Failure?
       <==> cursor.Some? && cursor.value != "" && DecodeCursor(f, cursor.value).Failure?
  {
  }

  // ---------------------------------------------------------------- following the cursors

  datatype Walk = Walk(rows: seq<Row>, finished: bool)

  /** Page after page, the k-th against the table as it is at that moment. */
  function Traverse(f: TimeFormat, tables: seq<seq<Row>>, limit: nat, cursor: Option<string>): Walk {
    if tables == [] then Walk([], false)
    else
      match PaginateCursor(f, tables[0], limit, cursor)
      case Failure(_) => Walk([], false)
      case Success(page) =>
        if page.nextCursor.None? then Walk(page.rows, true)
        else
          var rest := Traverse(f, tables[1..], limit, page.nextCursor);
          Walk(page.rows + rest.rows, rest.finished)
  }

  predicate AllUnique(tables: seq<seq<Row>>) {
    forall k :: 0 <= k < |tables| ==> UniqueIds(tables[k])
  }

  lemma ConcatDescending(a: seq<Row>, b: seq<Row>)
    requires Descending(a) && Descending(b)
    requires a != [] && forall r :: r in b ==> Less(At(r), At(a[|a| - 1]))
    ensures Descending(a + b)
  {
    var s := a + b;
    forall i, j | 0 <= i < j < |s| ensures Less(At(s[j]), At(s[i])) {
      if i < |a| <= j {
        assert s[j] == b[j - |a|] && b[j - |a|] in b;
        if i < |a| - 1 {
          OrderIsTransitive(At(s[j]), At(a[|a| - 1]), At(a[i]));
        }
      }
    }
  }

  predicate InSome(r: Row, tables: seq<seq<Row>>) {
    exists k :: 0 <= k < |tables| && r in tables[k]
  }

  lemma InRestOfTables(r: Row, tables: seq<seq<Row>>)
    requires tables != [] && (InSome(r, tables[1..]) || r in tables[0])
    ensures InSome(r, tables)
  {
    if InSome(r, tables[1..]) {
      var k :| 0 <= k < |tables[1..]| && r in tables[1..][k];
      assert r in tables[k + 1];
    }
  }

  lemma PageRowsAreBelow(f: TimeFormat, table: seq<Row>, limit: nat, cursor: Option<string>)
    requires FaithfulFormat(f) && UniqueIds(table) && Bound(f, cursor).Success?
    ensures var page := PaginateCursor(f, table, limit, cursor).value;
            && Descending(page.rows)
            && (forall r :: r in page.rows ==> r in table && Below(r, Bound(f, cursor).value))
            && (page.nextCursor.Some? ==>
                  && page.rows != []
                  && Bound(f, page.nextCursor) == Success(Some(At(page.rows[|page.rows| - 1]))))
  {
    var rest := Remaining(table, Bound(f, cursor).value);
    PageIsAStartOfTheRest(f, table, limit, cursor);
    RemainingIsDescending(table, Bound(f, cursor).value);
    var rows := PaginateCursor(f, table, limit, cursor).value.rows;
    forall r | r in rows ensures r in table && Below(r, Bound(f, cursor).value) {
      assert r in rest;
    }
  }

  /** Whatever happens to the table between pages, the rows come in strictly descending order,
      so no position is ever shown twice, and each comes from one of the tables read. */
  lemma {:induction false} TraversalDescends(f: TimeFormat, tables: seq<seq<Row>>, limit: nat, cursor: Option<string>)
    requires FaithfulFormat(f) && AllUnique(tables) && Bound(f, cursor).Success?
    ensures var walk := Traverse(f, tables, limit, cursor);
            && Descending(walk.rows)
            && (forall r :: r in walk.rows ==> Below(r, Bound(f, cursor).value) && InSome(r, tables))
  {
    hide FaithfulFormat, UniqueIds, Remaining;
    if tables != [] {
      var bound := Bound(f, cursor).value;
      PageRowsAreBelow(f, tables[0], limit, cursor);
      PageIsAStartOfTheRest(f, tables[0], limit, cursor);
      var page := PaginateCursor(f, tables[0], limit, cursor).value;
      var tail := if page.nextCursor.Some? then Traverse(f, tables[1..], limit, page.nextCursor).rows else [];
      if page.nextCursor.Some? {
        TraversalDescends(f, tables[1..], limit, page.nextCursor);
        ConcatDescending(page.rows, tail);
      }
      assert Traverse(f, tables, limit, cursor).rows == page.rows + tail;
      forall r | r in page.rows + tail ensures Below(r, bound) && InSome(r, tables) {
        if r in tail && bound.Some? {
          var last := page.rows[|page.rows| - 1];
          assert last in page.rows;
          OrderIsTransitive(At(r), At(last), bound.value);
        }
        InRestOfTables(r, tables);
      }
    }
  }

  /** Nothing is missed: a row that is there for every page read is returned by a traversal that
      runs to its end, no matter what is inserted, deleted or moved around it. */
  lemma {:induction false} TraversalMissesNothing(f: TimeFormat, tables: seq<seq<Row>>, limit: nat,
                                                  cursor: Option<string>, r: Row)
    requires FaithfulFormat(f) && AllUnique(tables) && Bound(f, cursor).Success? && limit >= 1
    requires Traverse(f, tables, limit, cursor).finished
    requires Below(r, Bound(f, cursor).value) && forall k :: 0 <= k < |tables| ==> r in tables[k]
    ensures r in Traverse(f, tables, limit, cursor).rows
  {
    var bound := Bound(f, cursor).value;
    var rest := Remaining(tables[0], bound);
    PageIsAStartOfTheRest(f, tables[0], limit, cursor);
    RemainingIsDescending(tables[0], bound);
    var page := PaginateCursor(f, tables[0], limit, cursor).value;
    assert r in rest;
    var i :| 0 <= i < |rest| && rest[i] == r;
    if i < limit {
      assert page.rows[i] == r;
    } else {
      assert Less(At(r), At(rest[limit - 1]));
      TraversalMissesNothing(f, tables[1..], limit, page.nextCursor, r);
    }
  }

  /** The part of the table below a row of the rest is the rest after it. */
  lemma RestAfter(table: seq<Row>, bound: Option<Position>, i: nat)
    requires UniqueIds(table) && i < |Remaining(table, bound)|
    ensures Remaining(table, Some(At(Remaining(table, bound)[i]))) == Remaining(table, bound)[i + 1..]
  {
    var rest := Remaining(table, bound);
    var next := Some(At(rest[i]));
    RemainingIsDescending(table, bound);
    RemainingIsDescending(table, next);
    forall r ensures r in Remaining(table, next) <==> r in rest[i + 1..] {
      if r in table && Below(r, next) {
        if bound.Some? {
          assert rest[i] in rest;
          OrderIsTransitive(At(r), At(rest[i]), bound.value);
        }
        assert r in rest;
        var j :| 0 <= j < |rest| && rest[j] == r;
        OrderIsTotal(At(rest[i]), At(rest[j]));
        assert j > i;
        assert rest[i + 1..][j - i - 1] == r;
      }
      if r in rest[i + 1..] {
        var j :| 0 <= j < |rest[i + 1..]| && rest[i + 1..][j] == r;
        assert rest[i + 1 + j] == r && r in rest;
      }
    }
    DescendingIsUnique(Remaining(table, next), rest[i + 1..]);
  }

  /** The same table read k times. */
  function Copies(table: seq<Row>, k: nat): seq<seq<Row>> {
    if k == 0 then [] else [table] + Copies(table, k - 1)
  }

  /** k times the limit. */
  function Capacity(k: nat, limit: nat): nat {
    if k == 0 then 0 else limit + Capacity(k - 1, limit)
  }

  /** One page of a traversal, then the traversal from where it ends. */
  lemma TraverseStep(f: TimeFormat, tables: seq<seq<Row>>, limit: nat, cursor: Option<string>) returns (next: Option<string>)
    requires FaithfulFormat(f) && Bound(f, cursor).Success? && limit >= 1 && tables != []
    ensures var rest := Remaining(tables[0], Bound(f, cursor).value);
            if |rest| > limit
            then && Bound(f, next) == Success(Some(At(rest[limit - 1])))
                 && Traverse(f, tables, limit, cursor)
                    == Walk(rest[..limit] + Traverse(f, tables[1..], limit, next).rows,
                            Traverse(f, tables[1..], limit, next).finished)
            else Traverse(f, tables, limit, cursor) == Walk(rest, true)
  {
    PageIsAStartOfTheRest(f, tables[0], limit, cursor);
    next := PaginateCursor(f, tables[0], limit, cursor).value.nextCursor;
  }

  lemma TraverseNoTables(f: TimeFormat, limit: nat, cursor: Option<string>)
    ensures Traverse(f, [], limit, cursor) == Walk([], false)
  {
  }

  /** What k pages of an unchanging rest amount to. */
  function WalkOver(rest: seq<Row>, capacity: nat): Walk {
    Walk(Take(rest, capacity), capacity >= 1 && capacity >= |rest|)
  }

  lemma WalkOverComposes(rest: seq<Row>, limit: nat, more: nat)
    requires |rest| > limit >= 1
    ensures WalkOver(rest, limit + more)
         == Walk(rest[..limit] + WalkOver(rest[limit..], more).rows, WalkOver(rest[limit..], more).finished)
  {
    if |rest| > limit + more {
      assert rest[..limit + more] == rest[..limit] + rest[limit..][..more];
    } else {
      assert rest == rest[..limit] + rest[limit..];
    }
  }

  /** On a table that does not change, k pages return the first k * limit rows of what remains,
      and the traversal is over exactly when that is all of it. */
  lemma {:induction false} FixedTableFromBound(f: TimeFormat, table: seq<Row>, k: nat, limit: nat, cursor: Option<string>,
                                               rest: seq<Row>)
    requires FaithfulFormat(f) && UniqueIds(table) && Bound(f, cursor).Success? && limit >= 1
    requires rest == Remaining(table, Bound(f, cursor).value)
    ensures Traverse(f, Copies(table, k), limit, cursor) == WalkOver(rest, Capacity(k, limit))
  {
    hide FaithfulFormat, UniqueIds, Remaining, Bound, Traverse;
    if k == 0 {
      TraverseNoTables(f, limit, cursor);
    } else {
      assert Copies(table, k)[0] == table && Copies(table, k)[1..] == Copies(table, k - 1);
      var next := TraverseStep(f, Copies(table, k), limit, cursor);
      if |rest| > limit {
        RestAfter(table, Bound(f, cursor).value, limit - 1);
        FixedTableFromBound(f, table, k - 1, limit, next, rest[limit..]);
        WalkOverComposes(rest, limit, Capacity(k - 1, limit));
      }
    }
  }

  /** The number of pages a table of n rows takes. */
  function PageCount(n: nat, limit: nat): nat
    requires limit >= 1
  {
    if n == 0 then 1 else (n + limit - 1) / limit
  }

  /** A fixed table of n rows is traversed in exactly max(1, ceil(n / limit)) pages, which put
      together are the sorted table. */
  lemma FixedTableTraversal(f: TimeFormat, table: seq<Row>, k: nat, limit: nat)
    requires FaithfulFormat(f) && UniqueIds(table) && limit >= 1
    ensures var walk := Traverse(f, Copies(table, k), limit, None);
            && (walk.finished <==> k >= PageCount(|table|, limit))
            && (walk.finished ==> walk.rows == SortDescending(table) && Descending(walk.rows))
  {
    FixedTableFromBound(f, table, k, limit, None, Remaining(table, None));
    MatchingAll(table);
    SortedIsDescending(table);
    EnoughPages(|table|, k, limit);
  }

  lemma {:induction false} MatchingAll(table: seq<Row>)
    ensures Matching(table, None) == table
  {
    if table != [] {
      MatchingAll(table[1..]);
    }
  }

  lemma {:induction false} CapacityIsProduct(k: nat, limit: nat)
    ensures Capacity(k, limit) == k * limit
  {
    if k > 0 {
      CapacityIsProduct(k - 1, limit);
      assert k * limit == limit + (k - 1) * limit;
    }
  }

  lemma EnoughPages(n: nat, k: nat, limit: nat)
    requires limit >= 1
    ensures Capacity(k, limit) >= 1 && Capacity(k, limit) >= n <==> k >= PageCount(n, limit)
  {
    CapacityIsProduct(k, limit);
    if n == 0 {
      if k >= 1 {
        MulMonotone(1, k, limit);
      }
    } else {
      var q := PageCount(n, limit);
      QuotientBounds(n + limit - 1, limit);
      if k >= q {
        MulMonotone(q, k, limit);
      } else {
        MulMonotone(k + 1, q, limit);
        MulSuccessor(k, limit);
      }
    }
  }

  lemma QuotientBounds(m: nat, d: nat)
    requires d >= 1
    ensures m / d * d <= m < m / d * d + d
  {
    assert m == m / d * d + m % d;
  }

  lemma MulMonotone(a: int, b: int, c: nat)
    requires a <= b
    ensures a * c <= b * c
  {
  }

  lemma MulSuccessor(a: int, c: int)
    ensures (a + 1) * c == a * c + c
  {
  }
}
