/** The activity feed of an app (ave-server/src/routes/apps/app-data.ts): keyset pages over two tables. */
module Activity {
  import opened Options

  datatype Source = ActivityEvent | DelegationEvent

  /** What a JavaScript date can be, in milliseconds. */
  type DateMillis = x: int | -8_640_000_000_000_000 <= x <= 8_640_000_000_000_000

  /** A row of app_analytics_events or of oauth_delegation_audit_logs. */
  datatype Row = Row(
    id: string,
    appId: nat,
    action: string,
    details: string,
    severity: string,
    createdAt: DateMillis,
    source: Source)

  datatype Cursor = Cursor(createdAt: int, source: Source, id: string)

  function Rank(source: Source): int {
    if source.ActivityEvent? then 0 else 1
  }

  /** The byte order of SQLite's text comparison, which is the order of code points. */
  predicate TextLess(a: string, b: string) {
    if a == "" then b != ""
    else b != "" && (a[0] < b[0] || (a[0] == b[0] && TextLess(a[1..], b[1..])))
  }

  lemma {:induction false} TextOrder(a: string, b: string, c: string)
    ensures !(TextLess(a, b) && TextLess(b, a))
    ensures TextLess(a, b) || TextLess(b, a) || a == b
    ensures TextLess(a, b) && TextLess(b, c) ==> TextLess(a, c)
  {
    if a != "" && b != "" {
      TextOrder(a[1..], b[1..], if c == "" then "" else c[1..]);
      assert a[0] == b[0] && a[1..] == b[1..] ==> a == [a[0]] + a[1..] == [b[0]] + b[1..] == b;
    }
  }

  function KeyOf(r: Row): Cursor {
    Cursor(r.createdAt, r.source, r.id)
  }

  /** a is listed before b: ORDER BY createdAt DESC, sourceRank DESC, id DESC. */
  predicate Before(a: Cursor, b: Cursor) {
    b.createdAt < a.createdAt
    || (b.createdAt == a.createdAt && Rank(b.source) < Rank(a.source))
    || (b.createdAt == a.createdAt && b.source == a.source && TextLess(b.id, a.id))
  }

  lemma ListingOrder(a: Cursor, b: Cursor, c: Cursor)
    ensures !(Before(a, b) && Before(b, a))
    ensures Before(a, b) || Before(b, a) || a == b
    ensures Before(a, b) && Before(b, c) ==> Before(a, c)
  {
    TextOrder(a.id, b.id, c.id);
    TextOrder(c.id, b.id, a.id);
  }

  /** The predicate each of the two subqueries puts on its rows; rank is the rank of its table. */
  predicate CursorPredicate(r: Row, rank: int, cursor: Cursor) {
    r.createdAt < cursor.createdAt
    || (r.createdAt == cursor.createdAt
        && (rank < Rank(cursor.source) || (rank == Rank(cursor.source) && TextLess(r.id, cursor.id))))
  }

  predicate Selected(r: Row, source: Source, appId: nat, cursor: Option<Cursor>) {
    r.appId == appId && r.source == source && (cursor.Some? ==> CursorPredicate(r, Rank(source), cursor.value))
  }

  /** The union of the two subqueries. */
  function SelectedRows(db: set<Row>, appId: nat, cursor: Option<Cursor>): set<Row> {
    (set r | r in db && Selected(r, ActivityEvent, appId, cursor))
    + (set r | r in db && Selected(r, DelegationEvent, appId, cursor))
  }

  /** id is the primary key of each table. */
  predicate KeysUnique(db: set<Row>) {
    forall a, b :: a in db && b in db && a.source == b.source && a.id == b.id ==> a == b
  }

  predicate Listed(rows: seq<Row>) {
    forall i, j :: 0 <= i < j < |rows| ==> Before(KeyOf(rows[i]), KeyOf(rows[j]))
  }

  predicate IsFirst(rows: set<Row>, r: Row) {
    r in rows && forall q :: q in rows && q != r ==> Before(KeyOf(r), KeyOf(q))
  }

  lemma {:induction false} FirstExists(rows: set<Row>)
    requires rows != {} && KeysUnique(rows)
    ensures exists r :: IsFirst(rows, r)
    decreases rows
  {
    var x :| x in rows;
    if rows == {x} {
      assert IsFirst(rows, x);
    } else {
      var rest := rows - {x};
      FirstExists(rest);
      var y :| IsFirst(rest, y);
      ListingOrder(KeyOf(x), KeyOf(y), KeyOf(y));
      if Before(KeyOf(x), KeyOf(y)) {
        forall q | q in rows && q != x
          ensures Before(KeyOf(x), KeyOf(q))
        {
          ListingOrder(KeyOf(x), KeyOf(y), KeyOf(q));
        }
        assert IsFirst(rows, x);
      } else {
        assert IsFirst(rows, y);
      }
    }
  }

  /** The rows in listing order. */
  ghost function Sorted(rows: set<Row>): (r: seq<Row>)
    requires KeysUnique(rows)
    ensures Listed(r) && |r| == |rows| && (forall x :: x in r <==> x in rows)
    decreases rows
  {
    if rows == {} then []
    else
      FirstExists(rows);
      var first :| IsFirst(rows, first);
      [first] + Sorted(rows - {first})
  }

  datatype Page = Page(items: seq<Row>, nextCursor: Option<Cursor>, hasMore: bool)

  function PageOf(rows: seq<Row>, limit: nat): Page {
    var hasMore := |rows| > limit;
    var pageRows := if hasMore then rows[..limit] else rows;
    Page(pageRows, if hasMore && pageRows != [] then Some(KeyOf(pageRows[|pageRows| - 1])) else None, hasMore)
  }

  function Take(rows: seq<Row>, n: nat): seq<Row> {
    if n < |rows| then rows[..n] else rows
  }

  /** getAppActivity: one row more than the limit tells whether there are more. */
  ghost function GetAppActivity(db: set<Row>, appId: nat, limit: nat, cursor: Option<Cursor>): Page
    requires KeysUnique(db)
  {
    PageOf(Take(Sorted(SelectedRows(db, appId, cursor)), limit + 1), limit)
  }

  /** The rows of the app, and the rows of it listed after the cursor. */
  function AppRows(db: set<Row>, appId: nat): set<Row> {
    set r | r in db && r.appId == appId
  }

  function RowsAfter(db: set<Row>, appId: nat, cursor: Option<Cursor>): set<Row> {
    set r | r in AppRows(db, appId) && (cursor.Some? ==> Before(cursor.value, KeyOf(r)))
  }

  /** The two cursor predicates together select exactly the rows listed after the cursor. */
  lemma CursorSelectsTheRest(db: set<Row>, appId: nat, cursor: Option<Cursor>)
    ensures SelectedRows(db, appId, cursor) == RowsAfter(db, appId, cursor)
  {
  }

  /** A page is the first rows after its cursor, and its own cursor stands right behind them. */
  lemma PageSplits(db: set<Row>, appId: nat, limit: nat, cursor: Option<Cursor>)
    requires KeysUnique(db) && limit >= 1
    ensures IsPage(GetAppActivity(db, appId, limit, cursor), RowsAfter(db, appId, cursor), limit)
  {
    CursorSelectsTheRest(db, appId, cursor);
    SelectedAreUnique(db, appId, cursor);
    var rows := SelectedRows(db, appId, cursor);
    var sorted := Sorted(rows);
    assert GetAppActivity(db, appId, limit, cursor) == PageOf(Take(sorted, limit + 1), limit);
    hide *;
    OneMoreIsEnough(sorted, limit);
    PageOfSorted(sorted, rows, limit);
  }

  lemma OneMoreIsEnough(sorted: seq<Row>, limit: nat)
    ensures PageOf(Take(sorted, limit + 1), limit) == PageOf(sorted, limit)
  {
    hide KeyOf;
    assert |sorted| > limit ==> sorted[..limit + 1][..limit] == sorted[..limit];
  }

  predicate IsPage(page: Page, rows: set<Row>, limit: nat) {
    && Listed(page.items) && (forall r :: r in page.items ==> r in rows)
    && (page.hasMore <==> page.nextCursor.Some?) && (page.hasMore <==> |rows| > limit)
    && |page.items| == (if page.hasMore then limit else |rows|)
    && (page.nextCursor.None? ==> forall r :: r in rows ==> r in page.items)
    && (page.nextCursor.Some? ==>
          && page.items != [] && page.nextCursor.value == KeyOf(page.items[|page.items| - 1])
          && forall r :: r in rows && r !in page.items ==> Before(page.nextCursor.value, KeyOf(r)))
  }

  lemma PageOfSorted(sorted: seq<Row>, rows: set<Row>, limit: nat)
    requires Listed(sorted) && |sorted| == |rows| && (forall x :: x in sorted <==> x in rows) && limit >= 1
    ensures IsPage(PageOf(sorted, limit), rows, limit)
  {
    hide KeyOf, Before;
    var page := PageOf(sorted, limit);
    if |sorted| > limit {
      assert forall i :: 0 <= i < limit ==> sorted[i] == page.items[i];
      forall r | r in rows && r !in page.items
        ensures Before(page.nextCursor.value, KeyOf(r))
      {
        var i :| 0 <= i < |sorted| && sorted[i] == r;
      }
    }
  }

  lemma SelectedAreUnique(db: set<Row>, appId: nat, cursor: Option<Cursor>)
    requires KeysUnique(db)
    ensures KeysUnique(SelectedRows(db, appId, cursor))
  {
  }

  /** The texts agree up to k, where the first one ends or has the smaller character. */
  predicate LessAt(a: string, b: string, k: nat) {
    k <= |a| && k < |b| && a[..k] == b[..k] && (k == |a| || a[k] < b[k])
  }

  lemma {:induction false} TextLessExactly(a: string, b: string)
    ensures TextLess(a, b) <==> exists k: nat :: LessAt(a, b, k)
  {
    if a == "" || b == "" {
      assert b != "" ==> LessAt(a, b, 0);
    } else {
      TextLessExactly(a[1..], b[1..]);
      if TextLess(a[1..], b[1..]) && a[0] == b[0] {
        var k: nat :| LessAt(a[1..], b[1..], k);
        assert a[..k + 1] == [a[0]] + a[1..][..k] && b[..k + 1] == [b[0]] + b[1..][..k];
        assert LessAt(a, b, k + 1);
      }
      if a[0] < b[0] {
        assert LessAt(a, b, 0);
      }
      if k: nat :| LessAt(a, b, k) {
        if k > 0 {
          assert a[0] == a[..k][0] == b[..k][0] == b[0];
          assert a[1..][..k - 1] == a[..k][1..] && b[1..][..k - 1] == b[..k][1..];
          assert LessAt(a[1..], b[1..], k - 1);
        }
      }
    }
  }

  /** What is listed is newest first; of rows of one moment those of the delegation log come first, and in each log
      the ids descend in the order of their code points. */
  lemma ListedIsNewestFirst(rows: seq<Row>, i: nat, j: nat)
    requires Listed(rows) && i < j < |rows|
    ensures var a, b := rows[i], rows[j];
            && b.createdAt <= a.createdAt
            && (a.createdAt == b.createdAt && a.source != b.source ==> a.source == DelegationEvent && b.source == ActivityEvent)
            && (a.createdAt == b.createdAt && a.source == b.source ==> exists k: nat :: LessAt(b.id, a.id, k))
  {
    assert Before(KeyOf(rows[i]), KeyOf(rows[j]));
    TextLessExactly(rows[j].id, rows[i].id);
    hide TextLess, LessAt;
  }

  /** What a client reads that follows nextCursor, one page of each of the tables' states in turn. */
  datatype Reading = Reading(items: seq<Row>, done: bool)

  ghost function Follow(dbs: seq<set<Row>>, appId: nat, limit: nat, cursor: Option<Cursor>): Reading
    requires forall i :: 0 <= i < |dbs| ==> KeysUnique(dbs[i])
    decreases |dbs|
  {
    if dbs == [] then Reading([], false)
    else
      var page := GetAppActivity(dbs[0], appId, limit, cursor);
      if page.nextCursor.None? then Reading(page.items, true)
      else
        var rest := Follow(dbs[1..], appId, limit, page.nextCursor);
        Reading(page.items + rest.items, rest.done)
  }

  /** Rows are only added, and ids stay unique. */
  predicate Growing(dbs: seq<set<Row>>) {
    && (forall i, j :: 0 <= i <= j < |dbs| ==> dbs[i] <= dbs[j])
    && (forall i :: 0 <= i < |dbs| ==> KeysUnique(dbs[i]))
  }

  function Latest(dbs: seq<set<Row>>): set<Row> {
    if dbs == [] then {} else dbs[|dbs| - 1]
  }

  lemma GrowingTail(dbs: seq<set<Row>>)
    requires Growing(dbs) && dbs != []
    ensures Growing(dbs[1..])
    ensures |dbs| > 1 ==> Latest(dbs[1..]) == Latest(dbs) && dbs[0] <= dbs[1..][0]
    ensures dbs[0] <= Latest(dbs) && KeysUnique(Latest(dbs)) && KeysUnique(dbs[0])
  {
  }

  /** The pages follow on from each other: what is read is listed in order, so no row comes twice. */
  lemma {:induction false} ReadingIsListed(dbs: seq<set<Row>>, appId: nat, limit: nat, cursor: Option<Cursor>)
    requires Growing(dbs) && limit >= 1
    ensures IsReading(Follow(dbs, appId, limit, cursor).items, RowsAfter(Latest(dbs), appId, cursor))
    decreases |dbs|
  {
    if dbs != [] {
      var page := GetAppActivity(dbs[0], appId, limit, cursor);
      PageSplits(dbs[0], appId, limit, cursor);
      hide GetAppActivity, IsPage, RowsAfter, IsReading;
      GrowingTail(dbs);
      if page.nextCursor.Some? {
        ReadingIsListed(dbs[1..], appId, limit, page.nextCursor);
        var rest := Follow(dbs[1..], appId, limit, page.nextCursor);
        EmptyLatest(dbs, appId, page.nextCursor, rest.items);
        ReadsOn(dbs[0], Latest(dbs), appId, limit, cursor, page, rest.items);
      } else {
        LastPage(dbs[0], Latest(dbs), appId, limit, cursor, page);
      }
    } else {
      assert IsReading([], RowsAfter(Latest(dbs), appId, cursor));
    }
  }

  predicate IsReading(items: seq<Row>, rows: set<Row>) {
    Listed(items) && forall r :: r in items ==> r in rows
  }

  lemma EmptyLatest(dbs: seq<set<Row>>, appId: nat, cursor: Option<Cursor>, items: seq<Row>)
    requires dbs != [] && IsReading(items, RowsAfter(Latest(dbs[1..]), appId, cursor))
    ensures IsReading(items, RowsAfter(Latest(dbs), appId, cursor))
  {
    hide Listed;
    if |dbs| > 1 {
      assert Latest(dbs[1..]) == Latest(dbs);
    }
  }

  lemma LastPage(db: set<Row>, latest: set<Row>, appId: nat, limit: nat, cursor: Option<Cursor>, page: Page)
    requires db <= latest && IsPage(page, RowsAfter(db, appId, cursor), limit)
    ensures IsReading(page.items, RowsAfter(latest, appId, cursor))
  {
    RowsAfterGrow(db, latest, appId, cursor);
    hide Before, KeyOf, RowsAfter;
  }

  lemma ReadsOn(db: set<Row>, latest: set<Row>, appId: nat, limit: nat, cursor: Option<Cursor>, page: Page, rest: seq<Row>)
    requires db <= latest && IsPage(page, RowsAfter(db, appId, cursor), limit) && page.nextCursor.Some?
    requires IsReading(rest, RowsAfter(latest, appId, page.nextCursor))
    ensures IsReading(page.items + rest, RowsAfter(latest, appId, cursor))
  {
    var last := page.items[|page.items| - 1];
    assert forall r :: r in rest ==> Before(page.nextCursor.value, KeyOf(r));
    assert last in page.items && last in RowsAfter(db, appId, cursor);
    assert cursor.Some? ==> Before(cursor.value, KeyOf(last));
    hide Before, KeyOf, RowsAfter;
    LastPage(db, latest, appId, limit, cursor, page);
    RowsAfterShrink(latest, appId, cursor, last);
    JoinListed(page.items, rest, page.nextCursor.value);
  }

  lemma RowsAfterGrow(db: set<Row>, next: set<Row>, appId: nat, cursor: Option<Cursor>)
    requires db <= next
    ensures RowsAfter(db, appId, cursor) <= RowsAfter(next, appId, cursor)
  {
  }

  lemma RowsAfterShrink(db: set<Row>, appId: nat, cursor: Option<Cursor>, last: Row)
    requires cursor.Some? ==> Before(cursor.value, KeyOf(last))
    ensures RowsAfter(db, appId, Some(KeyOf(last))) <= RowsAfter(db, appId, cursor)
    ensures last !in RowsAfter(db, appId, Some(KeyOf(last)))
  {
    ListingOrder(KeyOf(last), KeyOf(last), KeyOf(last));
    forall r | r in RowsAfter(db, appId, Some(KeyOf(last)))
      ensures r in RowsAfter(db, appId, cursor)
    {
      if cursor.Some? {
        ListingOrder(cursor.value, KeyOf(last), KeyOf(r));
      }
    }
  }

  /** Rows in order up to a last one, followed by rows in order behind it. */
  lemma JoinListed(a: seq<Row>, b: seq<Row>, key: Cursor)
    requires Listed(a) && Listed(b) && a != [] && KeyOf(a[|a| - 1]) == key
    requires forall r :: r in b ==> Before(key, KeyOf(r))
    ensures Listed(a + b)
  {
    hide KeyOf, Before;
    forall i, j | 0 <= i < j < |a + b|
      ensures Before(KeyOf((a + b)[i]), KeyOf((a + b)[j]))
    {
      if i < |a| <= j {
        assert (a + b)[j] in b;
        ListingOrder(KeyOf(a[i]), key, KeyOf((a + b)[j]));
      }
    }
  }

  /** Nothing that was there at the start is skipped, once the last page has been read. */
  lemma {:induction false} ReadingIsComplete(dbs: seq<set<Row>>, appId: nat, limit: nat, cursor: Option<Cursor>, r: Row)
    requires Growing(dbs) && limit >= 1 && dbs != [] && r in RowsAfter(dbs[0], appId, cursor)
    requires Follow(dbs, appId, limit, cursor).done
    ensures r in Follow(dbs, appId, limit, cursor).items
    decreases |dbs|
  {
    var page := GetAppActivity(dbs[0], appId, limit, cursor);
    PageSplits(dbs[0], appId, limit, cursor);
    hide Before, KeyOf, GetAppActivity;
    if page.nextCursor.Some? && r !in page.items {
      GrowingTail(dbs);
      assert Follow(dbs[1..], appId, limit, page.nextCursor).done;
      assert r in RowsAfter(dbs[1], appId, page.nextCursor);
      ReadingIsComplete(dbs[1..], appId, limit, page.nextCursor, r);
    }
  }

  lemma AtLeastOnePage(n: nat, limit: nat, rows: nat)
    requires n * limit > rows
    ensures n >= 1
  {
    assert n == 0 ==> n * limit == 0;
  }

  lemma OnePageLess(n: nat, limit: nat, before: nat, after: nat)
    requires n * limit > before && after + limit <= before
    ensures n >= 2 && (n - 1) * limit > after
  {
    assert n == 0 ==> n * limit == 0;
    assert n == 1 ==> n * limit == limit;
    assert n * limit == (n - 1) * limit + limit;
  }

  /** Reading ends: every page but the last takes `limit` rows off those that ever come after the cursor. */
  lemma {:induction false} ReadingEnds(dbs: seq<set<Row>>, appId: nat, limit: nat, cursor: Option<Cursor>)
    requires Growing(dbs) && limit >= 1 && |dbs| * limit > |RowsAfter(Latest(dbs), appId, cursor)|
    ensures Follow(dbs, appId, limit, cursor).done
    decreases |dbs|
  {
    hide RowsAfter, GetAppActivity, Growing;
    AtLeastOnePage(|dbs|, limit, |RowsAfter(Latest(dbs), appId, cursor)|);
    GrowingTail(dbs);
    var page := GetAppActivity(dbs[0], appId, limit, cursor);
    if page.nextCursor.Some? {
      PageIsTaken(dbs, appId, limit, cursor, page);
      OnePageLess(|dbs|, limit, |RowsAfter(Latest(dbs), appId, cursor)|, |RowsAfter(Latest(dbs), appId, page.nextCursor)|);
      ReadingEnds(dbs[1..], appId, limit, page.nextCursor);
    }
  }

  lemma PageIsTaken(dbs: seq<set<Row>>, appId: nat, limit: nat, cursor: Option<Cursor>, page: Page)
    requires Growing(dbs) && dbs != [] && limit >= 1
    requires page == GetAppActivity(dbs[0], appId, limit, cursor) && page.nextCursor.Some?
    ensures |RowsAfter(Latest(dbs), appId, page.nextCursor)| + limit <= |RowsAfter(Latest(dbs), appId, cursor)|
  {
    hide GetAppActivity, RowsAfter;
    PageSplits(dbs[0], appId, limit, cursor);
    GrowingTail(dbs);
    TakenFrom(dbs[0], Latest(dbs), appId, limit, cursor, page);
  }

  lemma TakenFrom(db: set<Row>, latest: set<Row>, appId: nat, limit: nat, cursor: Option<Cursor>, page: Page)
    requires db <= latest && IsPage(page, RowsAfter(db, appId, cursor), limit) && page.nextCursor.Some?
    ensures |RowsAfter(latest, appId, page.nextCursor)| + limit <= |RowsAfter(latest, appId, cursor)|
  {
    var before, after := RowsAfter(latest, appId, cursor), RowsAfter(latest, appId, page.nextCursor);
    var last := page.items[|page.items| - 1];
    var taken := set r | r in page.items;
    assert cursor.Some? ==> Before(cursor.value, KeyOf(last));
    RowsAfterShrink(latest, appId, cursor, last);
    RowsAfterGrow(db, latest, appId, cursor);
    assert taken !! after by { PageIsBehind(page, latest, appId); }
    ListedCard(page.items);
    assert taken + after <= before;
    SubsetCard(taken + after, before);
  }

  lemma PageIsBehind(page: Page, latest: set<Row>, appId: nat)
    requires Listed(page.items) && page.items != [] && page.nextCursor == Some(KeyOf(page.items[|page.items| - 1]))
    ensures forall r :: r in page.items ==> r !in RowsAfter(latest, appId, page.nextCursor)
  {
    var last := page.items[|page.items| - 1];
    forall r | r in page.items
      ensures !Before(KeyOf(last), KeyOf(r))
    {
      var i :| 0 <= i < |page.items| && page.items[i] == r;
      ListingOrder(KeyOf(r), KeyOf(last), KeyOf(last));
      ListingOrder(KeyOf(last), KeyOf(last), KeyOf(last));
    }
  }

  lemma {:induction false} ListedCard(rows: seq<Row>)
    requires Listed(rows)
    ensures |set r | r in rows| == |rows|
  {
    if rows != [] {
      ListedCard(rows[1..]);
      forall r | r in rows[1..]
        ensures r != rows[0]
      {
        var i :| 0 <= i < |rows[1..]| && rows[1..][i] == r;
        ListingOrder(KeyOf(rows[0]), KeyOf(rows[i + 1]), KeyOf(r));
      }
      assert (set r | r in rows) == {rows[0]} + (set r | r in rows[1..]);
    }
  }

  lemma {:induction false} SubsetCard<A>(a: set<A>, b: set<A>)
    requires a <= b
    ensures |a| <= |b|
    decreases a
  {
    if a != {} {
      var x :| x in a;
      SubsetCard(a - {x}, b - {x});
    }
  }

  /** Two lists in order with the same rows are the same list. */
  lemma {:induction false} ListedIsUnique(a: seq<Row>, b: seq<Row>)
    requires Listed(a) && Listed(b) && forall r :: r in a <==> r in b
    ensures a == b
  {
    if b != [] {
      assert b[0] in b;
    }
    if a != [] {
      assert a[0] in a;
      SameHead(a, b);
      forall r
        ensures r in a[1..] <==> r in b[1..]
      {
        TailMembers(a, r);
        TailMembers(b, r);
      }
      ListedIsUnique(a[1..], b[1..]);
    }
  }

  lemma SameHead(a: seq<Row>, b: seq<Row>)
    requires Listed(a) && Listed(b) && a != [] && b != [] && a[0] in b && b[0] in a
    ensures a[0] == b[0]
  {
    var i :| 0 <= i < |b| && b[i] == a[0];
    var j :| 0 <= j < |a| && a[j] == b[0];
    ListingOrder(KeyOf(a[0]), KeyOf(b[0]), KeyOf(a[0]));
  }

  lemma TailMembers(a: seq<Row>, r: Row)
    requires Listed(a) && a != []
    ensures r in a[1..] <==> r in a && r != a[0]
  {
    if r in a[1..] {
      var i :| 0 <= i < |a[1..]| && a[1..][i] == r;
      ListingOrder(KeyOf(a[0]), KeyOf(a[i + 1]), KeyOf(r));
    }
  }

  /** Following nextCursor from the start, while rows are inserted between pages, reads every row that
      was there at the start exactly once, in order, and ends. */
  lemma EveryInitialRowOnce(dbs: seq<set<Row>>, appId: nat, limit: nat)
    requires Growing(dbs) && dbs != [] && limit >= 1
    ensures var reading := Follow(dbs, appId, limit, None);
            && Listed(reading.items)
            && (forall r :: r in reading.items ==> r in Latest(dbs) && r.appId == appId)
            && (reading.done ==> forall r :: r in dbs[0] && r.appId == appId ==> r in reading.items)
            && (|dbs| * limit > |AppRows(Latest(dbs), appId)| ==> reading.done)
  {
    ReadingIsListed(dbs, appId, limit, None);
    forall db
      ensures RowsAfter(db, appId, None) == AppRows(db, appId)
    {
    }
    if Follow(dbs, appId, limit, None).done {
      forall r | r in AppRows(dbs[0], appId)
        ensures r in Follow(dbs, appId, limit, None).items
      {
        ReadingIsComplete(dbs, appId, limit, None, r);
      }
    }
    if |dbs| * limit > |AppRows(Latest(dbs), appId)| {
      ReadingEnds(dbs, appId, limit, None);
    }
  }

  /** Without insertions the pages concatenate to exactly the sorted list of the app's rows. */
  lemma PagesConcatenateToTheList(db: set<Row>, appId: nat, limit: nat, pages: nat)
    requires KeysUnique(db) && limit >= 1 && pages * limit > |AppRows(db, appId)|
    ensures var dbs := seq(pages, i => db);
            Follow(dbs, appId, limit, None) == Reading(Sorted(AppRows(db, appId)), true)
  {
    var dbs := seq(pages, i => db);
    assert pages > 0 by { assert pages == 0 ==> pages * limit == 0; }
    assert Growing(dbs) && Latest(dbs) == db && dbs[0] == db;
    EveryInitialRowOnce(dbs, appId, limit);
    ListedIsUnique(Follow(dbs, appId, limit, None).items, Sorted(AppRows(db, appId)));
  }
}
