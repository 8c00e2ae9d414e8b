/** Dashboard history: paging through observations with a cursor, and the view of at most 400 points.
    The table is kept in the order of its queries, by time and then by id. */
module DashboardHistory {
  datatype Option<T> = None | Some(value: T)

  datatype Row = Row(id: nat, time: int, parents: nat, children: nat, gap: bool)

  datatype Cursor = Cursor(time: int, id: int)

  datatype Result = Page(observations: seq<Row>, next: Option<Cursor>) | RangeError

  predicate Before(a: Row, b: Row) { a.time < b.time || (a.time == b.time && a.id < b.id) }

  predicate Sorted(t: seq<Row>) { forall i, j :: 0 <= i < j < |t| ==> Before(t[i], t[j]) }

  /** An insert takes its place in the order. */
  function Insert(t: seq<Row>, row: Row): seq<Row> {
    if t == [] || Before(row, t[0]) then [row] + t else [t[0]] + Insert(t[1..], row)
  }

  predicate NewId(t: seq<Row>, row: Row) { forall i :: 0 <= i < |t| ==> t[i].id != row.id }

  lemma {:induction false} InsertSorted(t: seq<Row>, row: Row)
    requires Sorted(t) && NewId(t, row)
    ensures Sorted(Insert(t, row))
    ensures forall r :: r in Insert(t, row) <==> r in t || r == row
  {
    if t != [] && !Before(row, t[0]) {
      var rest := t[1..];
      InsertSorted(rest, row);
      var r := Insert(rest, row);
      forall j | 0 <= j < |r| ensures Before(t[0], r[j]) {
        assert r[j] in r;
        if r[j] != row {
          var k :| 0 <= k < |rest| && rest[k] == r[j];
          assert t[k + 1] == r[j];
        }
      }
    }
  }

  // ---------------------------------------------------------------- one page

  predicate InRange(r: Row, from: int, to: int) { from <= r.time <= to }

  predicate Past(r: Row, c: Cursor) { r.time > c.time || (r.time == c.time && r.id > c.id) }

  function Select(t: seq<Row>, from: int, to: int, c: Cursor): seq<Row> {
    if t == [] then []
    else (if InRange(t[0], from, to) && Past(t[0], c) then [t[0]] else []) + Select(t[1..], from, to, c)
  }

  function StartOf(from: int, cursor: Option<Cursor>): Cursor {
    if cursor.Some? then cursor.value else Cursor(from - 1, 0)
  }

  function Prefix<T>(s: seq<T>, n: nat): seq<T> { if n < |s| then s[..n] else s }

  function PageOf(t: seq<Row>, from: int, to: int, cursor: Option<Cursor>, limit: int): Result {
    if !(1 <= limit <= 1000) then RangeError
    else
      var rows := Prefix(Select(t, from, to, StartOf(from, cursor)), limit + 1);
      var observations := Prefix(rows, limit);
      Page(observations, if |rows| > limit then Some(Cursor(observations[limit - 1].time, observations[limit - 1].id)) else None)
  }

  lemma {:induction false} SelectExact(t: seq<Row>, from: int, to: int, c: Cursor)
    requires Sorted(t)
    ensures var s := Select(t, from, to, c);
      Sorted(s) && forall r :: r in s <==> r in t && InRange(r, from, to) && Past(r, c)
  {
    if t != [] {
      var rest := Select(t[1..], from, to, c);
      SelectExact(t[1..], from, to, c);
      forall j | 0 <= j < |rest| ensures Before(t[0], rest[j]) {
        assert rest[j] in t[1..];
        var k :| 0 <= k < |t| - 1 && t[1..][k] == rest[j];
        assert t[k + 1] == rest[j];
      }
      assert forall r :: r in t <==> r == t[0] || r in t[1..];
    }
  }

  /** A page holds exactly the rows of the range that lie past its start and up to its last one; if
      there is no next page it holds all of them, and otherwise it is full and the next page starts
      at its last row. */
  lemma {:induction false} PageExact(t: seq<Row>, from: int, to: int, cursor: Option<Cursor>, limit: int)
    requires Sorted(t) && 1 <= limit <= 1000
    ensures var c := StartOf(from, cursor); var p := PageOf(t, from, to, cursor, limit);
      p.Page? && Sorted(p.observations) && |p.observations| <= limit &&
      (p.next == None ==> forall r :: r in p.observations <==> r in t && from <= r.time <= to && Past(r, c)) &&
      (p.next.Some? ==>
        |p.observations| == limit && p.next.value == Cursor(p.observations[limit - 1].time, p.observations[limit - 1].id) &&
        forall r :: r in p.observations <==> r in t && from <= r.time <= to && Past(r, c) && !Past(r, p.next.value))
  {
    var c := StartOf(from, cursor);
    var s := Select(t, from, to, c);
    SelectExact(t, from, to, c);
    if |s| > limit {
      var rows, page := s[..limit + 1], s[..limit];
      assert rows[..limit] == page;
      PrefixExact(s, limit);
    }
  }

  lemma {:induction false} PrefixExact(s: seq<Row>, n: nat)
    requires Sorted(s) && 0 < n <= |s|
    ensures Sorted(s[..n])
    ensures var last := Cursor(s[n - 1].time, s[n - 1].id); forall r :: r in s[..n] <==> r in s && !Past(r, last)
  {
    var last := Cursor(s[n - 1].time, s[n - 1].id);
    forall r | r in s && !Past(r, last) ensures r in s[..n] {
      var i :| 0 <= i < |s| && s[i] == r;
      assert i >= n ==> Before(s[n - 1], s[i]);
      assert s[..n][i] == r;
    }
    forall r | r in s[..n] ensures r in s && !Past(r, last) {
      var i :| 0 <= i < n && s[..n][i] == r;
      assert s[i] == r;
      assert i < n - 1 ==> Before(s[i], s[n - 1]);
    }
  }

  // ---------------------------------------------------------------- following the pages

  predicate Grows(t: seq<Row>, u: seq<Row>) { forall i :: 0 <= i < |t| ==> t[i] in u }

  /** The table at each page request: rows are only ever added. */
  predicate Growing(tables: seq<seq<Row>>) {
    (forall i :: 0 <= i < |tables| ==> Sorted(tables[i])) && forall i :: 0 <= i < |tables| - 1 ==> Grows(tables[i], tables[i + 1])
  }

  /** One page for each table in turn, each from the cursor the last one gave, as long as it gave one. */
  function Follow(tables: seq<seq<Row>>, from: int, to: int, cursor: Option<Cursor>, limit: int): seq<Row>
    requires 1 <= limit <= 1000
  {
    if tables == [] then []
    else
      var p := PageOf(tables[0], from, to, cursor, limit);
      p.observations + if p.next == None then [] else Follow(tables[1..], from, to, p.next, limit)
  }

  /** The pages came to an end. */
  predicate Finishes(tables: seq<seq<Row>>, from: int, to: int, cursor: Option<Cursor>, limit: int)
    requires 1 <= limit <= 1000
  {
    tables != [] &&
    var p := PageOf(tables[0], from, to, cursor, limit);
    p.next == None || Finishes(tables[1..], from, to, p.next, limit)
  }

  /** Rows past `c` in order. */
  ghost predicate PastAll(s: seq<Row>, c: Cursor) { Sorted(s) && forall r :: r in s ==> Past(r, c) }

  lemma {:induction false} JoinSorted(a: seq<Row>, b: seq<Row>)
    requires Sorted(a) && a != [] && PastAll(b, Cursor(a[|a| - 1].time, a[|a| - 1].id))
    ensures Sorted(a + b)
  {
    forall j | 0 <= j < |b| ensures Before(a[|a| - 1], b[j]) { assert b[j] in b; }
  }

  lemma {:induction false} FollowInOrder(tables: seq<seq<Row>>, from: int, to: int, cursor: Option<Cursor>, limit: int)
    requires 1 <= limit <= 1000 && Growing(tables)
    ensures PastAll(Follow(tables, from, to, cursor, limit), StartOf(from, cursor))
    ensures forall r :: r in Follow(tables, from, to, cursor, limit) ==> InRange(r, from, to)
  {
    if tables != [] {
      PageExact(tables[0], from, to, cursor, limit);
      var p := PageOf(tables[0], from, to, cursor, limit);
      hide PageOf;
      if p.next.Some? {
        FollowInOrder(tables[1..], from, to, p.next, limit);
        JoinSorted(p.observations, Follow(tables[1..], from, to, p.next, limit));
        assert p.observations[limit - 1] in p.observations;
      }
    }
  }

  lemma {:induction false} GrowsOn(tables: seq<seq<Row>>, r: Row)
    requires Growing(tables) && |tables| > 1 && r in tables[0]
    ensures r in tables[1]
  {
    assert Grows(tables[0], tables[1]);
  }

  lemma {:induction false} FollowComplete(tables: seq<seq<Row>>, from: int, to: int, cursor: Option<Cursor>, limit: int, r: Row)
    requires 1 <= limit <= 1000 && Growing(tables) && Finishes(tables, from, to, cursor, limit)
    requires r in tables[0] && InRange(r, from, to) && Past(r, StartOf(from, cursor))
    ensures r in Follow(tables, from, to, cursor, limit)
  {
    PageExact(tables[0], from, to, cursor, limit);
    var p := PageOf(tables[0], from, to, cursor, limit);
    hide PageOf;
    if p.next.Some? && Past(r, p.next.value) {
      GrowsOn(tables, r);
      FollowComplete(tables[1..], from, to, p.next, limit, r);
    }
  }

  lemma {:induction false} PageRows(t: seq<Row>, from: int, to: int, cursor: Option<Cursor>, limit: int, r: Row)
    requires 1 <= limit <= 1000 && Sorted(t) && r in PageOf(t, from, to, cursor, limit).observations
    ensures r in t
  {
    PageExact(t, from, to, cursor, limit);
    hide PageOf, Sorted;
  }

  lemma {:induction false} FollowStays(tables: seq<seq<Row>>, from: int, to: int, cursor: Option<Cursor>, limit: int, r: Row)
    requires 1 <= limit <= 1000 && Growing(tables) && r in Follow(tables, from, to, cursor, limit)
    ensures r in tables[|tables| - 1]
  {
    var p := PageOf(tables[0], from, to, cursor, limit);
    if r in p.observations {
      hide Follow, PageOf, Sorted;
      PageRows(tables[0], from, to, cursor, limit, r);
      LaterRows(tables, r);
    } else {
      assert r in Follow(tables[1..], from, to, p.next, limit);
      hide Follow, PageOf, Sorted;
      FollowStays(tables[1..], from, to, p.next, limit, r);
    }
  }

  lemma {:induction false} LaterRows(tables: seq<seq<Row>>, r: Row)
    requires Growing(tables) && tables != [] && r in tables[0]
    ensures r in tables[|tables| - 1]
  {
    if |tables| > 1 {
      GrowsOn(tables, r);
      LaterRows(tables[1..], r);
    }
  }

  /** Following the pages to the end while rows are being inserted: the rows come in strict order, so
      none comes twice, every one lies in the range and in the table, and every row of the range that
      was there at the start is among them. */
  lemma {:induction false} PagesFaithful(tables: seq<seq<Row>>, from: int, to: int, limit: int)
    requires 1 <= limit <= 1000 && Growing(tables) && Finishes(tables, from, to, None, limit)
    ensures var s := Follow(tables, from, to, None, limit);
      Sorted(s) &&
      (forall r :: r in s ==> InRange(r, from, to) && r in tables[|tables| - 1]) &&
      (forall r :: r in tables[0] && InRange(r, from, to) ==> r in s)
  {
    FollowInOrder(tables, from, to, None, limit);
    var s := Follow(tables, from, to, None, limit);
    forall r | r in s ensures r in tables[|tables| - 1] { FollowStays(tables, from, to, None, limit, r); }
    forall r | r in tables[0] && InRange(r, from, to) ensures r in s { FollowComplete(tables, from, to, None, limit, r); }
  }

  /** The table after more inserts. */
  function InsertAll(t: seq<Row>, rows: seq<Row>): seq<Row>
    decreases |rows|
  {
    if rows == [] then t else InsertAll(Insert(t, rows[0]), rows[1..])
  }

  /** Every insert brings an identifier that is not in the table yet. */
  predicate AllNew(t: seq<Row>, rows: seq<Row>)
    decreases |rows|
  {
    rows == [] || (NewId(t, rows[0]) && AllNew(Insert(t, rows[0]), rows[1..]))
  }

  lemma {:induction false} InsertedAll(t: seq<Row>, rows: seq<Row>)
    requires Sorted(t) && AllNew(t, rows)
    ensures Sorted(InsertAll(t, rows)) && forall r :: r in InsertAll(t, rows) <==> r in t || r in rows
    decreases |rows|
  {
    if rows != [] {
      InsertSorted(t, rows[0]);
      InsertedAll(Insert(t, rows[0]), rows[1..]);
      assert forall r :: r in rows <==> r == rows[0] || r in rows[1..];
    }
  }

  /** The tables that page requests see with a batch of inserts between each two of them. */
  function Tables(t: seq<Row>, batches: seq<seq<Row>>): (r: seq<seq<Row>>)
    ensures |r| == |batches| + 1 && r[0] == t
    decreases |batches|
  {
    if batches == [] then [t] else [t] + Tables(InsertAll(t, batches[0]), batches[1..])
  }

  predicate EachNew(t: seq<Row>, batches: seq<seq<Row>>)
    decreases |batches|
  {
    batches == [] || (AllNew(t, batches[0]) && EachNew(InsertAll(t, batches[0]), batches[1..]))
  }

  lemma {:induction false} InsertsGrow(t: seq<Row>, batches: seq<seq<Row>>)
    requires Sorted(t) && EachNew(t, batches)
    ensures Growing(Tables(t, batches))
    ensures forall r :: r in Tables(t, batches)[|batches|] ==> r in t || exists i :: 0 <= i < |batches| && r in batches[i]
    decreases |batches|
  {
    if batches != [] {
      var u, rest := InsertAll(t, batches[0]), batches[1..];
      InsertedAll(t, batches[0]);
      InsertsGrow(u, rest);
      hide InsertAll, Sorted, EachNew;
      forall r | r in Tables(t, batches)[|batches|] ensures r in t || exists i :: 0 <= i < |batches| && r in batches[i] {
        if r !in u {
          var i :| 0 <= i < |rest| && r in rest[i];
          assert r in batches[i + 1];
        } else {
          assert r in t || r in batches[0];
        }
      }
    }
  }

  /** Whatever is inserted between the page requests: followed to the end, the pages give in strict
      order every row of the range that was there at the start, and otherwise only rows of the range
      that were inserted meanwhile. */
  lemma {:induction false} PagesUnderInserts(t: seq<Row>, batches: seq<seq<Row>>, from: int, to: int, limit: int)
    requires 1 <= limit <= 1000 && Sorted(t) && EachNew(t, batches) && Finishes(Tables(t, batches), from, to, None, limit)
    ensures var s := Follow(Tables(t, batches), from, to, None, limit);
      Sorted(s) && (forall r :: r in t && InRange(r, from, to) ==> r in s) &&
      forall r :: r in s ==> InRange(r, from, to) && (r in t || exists i :: 0 <= i < |batches| && r in batches[i])
  {
    InsertsGrow(t, batches);
    hide Follow, Finishes, Growing, Sorted, Tables, EachNew;
    PagesFaithful(Tables(t, batches), from, to, limit);
  }

  // ---------------------------------------------------------------- how many pages there are

  lemma {:induction false} HasFirst(s: seq<Row>)
    ensures s != [] ==> s[0] in s
  {
  }

  lemma {:induction false} SameRows(a: seq<Row>, b: seq<Row>)
    requires Sorted(a) && Sorted(b) && forall r :: r in a <==> r in b
    ensures a == b
  {
    HasFirst(a);
    HasFirst(b);
    if a != [] && b != [] {
      var i :| 0 <= i < |b| && b[i] == a[0];
      var j :| 0 <= j < |a| && a[j] == b[0];
      assert i == 0;
      assert a == [a[0]] + a[1..] && b == [b[0]] + b[1..];
      forall r ensures r in a[1..] <==> r in b[1..] {
        if r in a[1..] { assert r in a && r in b && r != a[0]; }
        if r in b[1..] { assert r in b && r in a && r != b[0]; }
      }
      SameRows(a[1..], b[1..]);
    }
  }

  /** What is left after a full page is what was there, without the page. */
  lemma {:induction false} AfterPage(t: seq<Row>, from: int, to: int, c: Cursor, n: nat)
    requires Sorted(t) && 0 < n <= |Select(t, from, to, c)|
    ensures var s := Select(t, from, to, c); Select(t, from, to, Cursor(s[n - 1].time, s[n - 1].id)) == s[n..]
  {
    var s := Select(t, from, to, c);
    var last := Cursor(s[n - 1].time, s[n - 1].id);
    var more := Select(t, from, to, last);
    SelectExact(t, from, to, c);
    SelectExact(t, from, to, last);
    PrefixExact(s, n);
    assert s[n - 1] in s;
    hide Select;
    assert s == s[..n] + s[n..];
    forall r ensures r in more <==> r in s[n..] {
      if r in more { assert r in t && InRange(r, from, to) && Past(r, c); }
      if r in s[n..] { RestPast(s, n, r); }
    }
    SameRows(more, s[n..]);
  }

  lemma {:induction false} RestPast(s: seq<Row>, n: nat, r: Row)
    requires Sorted(s) && 0 < n <= |s| && r in s[n..]
    ensures Past(r, Cursor(s[n - 1].time, s[n - 1].id))
  {
    var i :| 0 <= i < |s| - n && s[n..][i] == r;
    assert Before(s[n - 1], s[n + i]);
  }

  function Still(t: seq<Row>, n: nat): seq<seq<Row>> { seq(n, _ => t) }

  /** The rows that `n` pages have room for. */
  function Room(n: nat, limit: nat): nat { if n == 0 then 0 else limit + Room(n - 1, limit) }

  lemma {:induction false} RoomIs(n: nat, limit: nat)
    ensures Room(n, limit) == n * limit
  {
    if n > 0 {
      RoomIs(n - 1, limit);
      assert n * limit == limit + (n - 1) * limit;
    }
  }

  lemma {:induction false} FollowStill(t: seq<Row>, from: int, to: int, cursor: Option<Cursor>, limit: int, n: nat)
    requires 1 <= limit <= 1000 && Sorted(t)
    ensures var s := Select(t, from, to, StartOf(from, cursor));
      (Finishes(Still(t, n), from, to, cursor, limit) <==> n >= 1 && |s| <= Room(n, limit)) &&
      Follow(Still(t, n), from, to, cursor, limit) == Prefix(s, Room(n, limit))
    decreases n
  {
    hide PageOf, Select, Sorted, StartOf;
    if n > 0 {
      var s, p := Select(t, from, to, StartOf(from, cursor)), PageOf(t, from, to, cursor, limit);
      FirstPage(t, from, to, cursor, limit, n);
      hide Follow, Finishes, Still, Prefix;
      if |s| > limit {
        FullPage(t, from, to, cursor, limit);
        FollowStill(t, from, to, p.next, limit, n - 1);
        PrefixSplit(s, limit, Room(n - 1, limit));
      } else {
        LastPage(t, from, to, cursor, limit);
        PrefixAll(s, Room(n, limit));
      }
    }
  }

  lemma {:induction false} FirstPage(t: seq<Row>, from: int, to: int, cursor: Option<Cursor>, limit: int, n: nat)
    requires 1 <= limit <= 1000 && n >= 1
    ensures var p := PageOf(t, from, to, cursor, limit); var tables, rest := Still(t, n), Still(t, n - 1);
      p.Page? &&
      (Finishes(tables, from, to, cursor, limit) <==> p.next == None || Finishes(rest, from, to, p.next, limit)) &&
      Follow(tables, from, to, cursor, limit) == p.observations + if p.next == None then [] else Follow(rest, from, to, p.next, limit)
  {
    assert Still(t, n)[0] == t && Still(t, n)[1..] == Still(t, n - 1);
    assert PageOf(t, from, to, cursor, limit).Page?;
    hide PageOf;
  }

  /** While nothing is inserted, `n` requests reach the end if and only if they have room for all
      rows of the range, and they give those rows from the first one on, as far as there is room. */
  lemma {:induction false} StillPages(t: seq<Row>, from: int, to: int, cursor: Option<Cursor>, limit: int, n: nat)
    requires 1 <= limit <= 1000 && Sorted(t)
    ensures var s := Select(t, from, to, StartOf(from, cursor));
      (Finishes(Still(t, n), from, to, cursor, limit) <==> n >= 1 && |s| <= n * limit) &&
      Follow(Still(t, n), from, to, cursor, limit) == Prefix(s, n * limit)
  {
    FollowStill(t, from, to, cursor, limit, n);
    RoomIs(n, limit);
    hide Finishes, Follow, Still, Select, Sorted;
  }

  lemma {:induction false} LastPage(t: seq<Row>, from: int, to: int, cursor: Option<Cursor>, limit: int)
    requires 1 <= limit <= 1000 && |Select(t, from, to, StartOf(from, cursor))| <= limit
    ensures PageOf(t, from, to, cursor, limit) == Page(Select(t, from, to, StartOf(from, cursor)), None)
  {
    hide Select, StartOf;
  }

  lemma {:induction false} FullPage(t: seq<Row>, from: int, to: int, cursor: Option<Cursor>, limit: int)
    requires 1 <= limit <= 1000 && Sorted(t) && |Select(t, from, to, StartOf(from, cursor))| > limit
    ensures var s, p := Select(t, from, to, StartOf(from, cursor)), PageOf(t, from, to, cursor, limit);
      p.next.Some? && p.observations == s[..limit] && Select(t, from, to, StartOf(from, p.next)) == s[limit..]
  {
    AfterPage(t, from, to, StartOf(from, cursor), limit);
  }

  lemma {:induction false} PrefixSplit(s: seq<Row>, n: nat, m: nat)
    requires n <= |s|
    ensures s[..n] + Prefix(s[n..], m) == Prefix(s, n + m)
  {
  }

  lemma {:induction false} PrefixAll(s: seq<Row>, n: nat)
    requires |s| <= n
    ensures Prefix(s, n) == s && s + [] == s
  {
  }

  /** So with an unchanging table one request more than full pages is enough, and the pages are then
      exactly the rows of the range. */
  lemma {:induction false} PagesEnd(t: seq<Row>, from: int, to: int, limit: int)
    requires 1 <= limit <= 1000 && Sorted(t)
    ensures var rows := Select(t, from, to, StartOf(from, None)); var tables := Still(t, |rows| / limit + 1);
      Finishes(tables, from, to, None, limit) && Follow(tables, from, to, None, limit) == rows &&
      forall r :: r in rows <==> r in t && InRange(r, from, to)
  {
    var rows := Select(t, from, to, StartOf(from, None));
    StillPages(t, from, to, None, limit, |rows| / limit + 1);
    SelectExact(t, from, to, StartOf(from, None));
    RoomForAll(|rows|, limit);
  }

  lemma {:induction false} RoomForAll(n: nat, limit: nat)
    requires limit >= 1
    ensures n < (n / limit + 1) * limit
  {
  }

  // ---------------------------------------------------------------- the view

  const BUCKETS: int := 399

  datatype Point = Point(time: int, parents: nat, children: nat, gap: bool, summarized: bool, containsGap: bool)

  /** Both bounds of a bucket belong to it. */
  datatype Bucket = Bucket(lower: int, upper: int)

  function Max(a: int, b: int): int { if a > b then a else b }

  function Min(a: int, b: int): int { if a < b then a else b }

  /** `Math.max(1, Math.ceil((end - start + 1) / 399))`. */
  function Width(start: int, end: int): (w: int)
    requires start <= end
    ensures w >= 1 && end - start + 1 <= BUCKETS * w
  {
    Max(1, (end - start + 1 + BUCKETS - 1) / BUCKETS)
  }

  function Buckets(lower: int, end: int, width: int): seq<Bucket>
    requires width >= 1
    decreases end - lower
  {
    if lower > end then [] else [Bucket(lower, Min(end, lower + width - 1))] + Buckets(lower + width, end, width)
  }

  predicate In(r: Row, b: Bucket) { b.lower <= r.time <= b.upper }

  function RowsIn(t: seq<Row>, b: Bucket): seq<Row> {
    if t == [] then [] else (if In(t[0], b) then [t[0]] else []) + RowsIn(t[1..], b)
  }

  predicate HasGap(rows: seq<Row>) { exists i :: 0 <= i < |rows| && rows[i].gap }

  function PointFor(rows: seq<Row>): Point
    requires rows != []
  {
    Point(rows[0].time, rows[0].parents, rows[0].children, rows[0].gap, |rows| > 1, HasGap(rows))
  }

  function Points(t: seq<Row>, buckets: seq<Bucket>): seq<Point> {
    if buckets == [] then []
    else (if RowsIn(t, buckets[0]) == [] then [] else [PointFor(RowsIn(t, buckets[0]))]) + Points(t, buckets[1..])
  }

  /** The last row before `time`. */
  function Preceding(t: seq<Row>, time: int): Option<Row> {
    if t == [] then None
    else if t[|t| - 1].time < time then Some(t[|t| - 1]) else Preceding(t[..|t| - 1], time)
  }

  function Lead(t: seq<Row>, start: int): seq<Point> {
    var p := Preceding(t, start);
    if p.Some? && p.value.gap then [Point(start, 0, 0, true, false, true)] else []
  }

  datatype View = View(first: Option<int>, last: Option<int>, points: seq<Point>)

  function StartAt(t: seq<Row>, from: Option<int>): int
    requires t != []
  {
    if from.Some? then Max(t[0].time, from.value) else t[0].time
  }

  function EndAt(t: seq<Row>, to: Option<int>): int
    requires t != []
  {
    if to.Some? then Min(t[|t| - 1].time, to.value) else t[|t| - 1].time
  }

  function ViewOf(t: seq<Row>, from: Option<int>, to: Option<int>): View {
    if t == [] then View(None, None, [])
    else
      var start, end := StartAt(t, from), EndAt(t, to);
      View(Some(t[0].time), Some(t[|t| - 1].time),
           if start > end then [] else Lead(t, start) + Points(t, Buckets(start, end, Width(start, end))))
  }

  method BuildView(t: seq<Row>, from: Option<int>, to: Option<int>) returns (v: View)
    ensures v == ViewOf(t, from, to)
  {
    if t == [] { return View(None, None, []); }
    var first, last := t[0].time, t[|t| - 1].time;
    var start := if from.Some? then Max(first, from.value) else first;
    var end := if to.Some? then Min(last, to.value) else last;
    if start > end { return View(Some(first), Some(last), []); }
    var points := CollectPoints(t, Lead(t, start), start, end, Width(start, end));
    v := View(Some(first), Some(last), points);
  }

  method CollectPoints(t: seq<Row>, lead: seq<Point>, start: int, end: int, width: int) returns (points: seq<Point>)
    requires width >= 1
    ensures points == lead + Points(t, Buckets(start, end, width))
  {
    hide Buckets, RowsIn, Points, HasGap;
    points := lead;
    var lower := start;
    while lower <= end
      invariant points + Points(t, Buckets(lower, end, width)) == lead + Points(t, Buckets(start, end, width))
      decreases end - lower
    {
      FirstBucket(lower, end, width);
      var bucket := Bucket(lower, Min(end, lower + width - 1));
      var rows := RowsIn(t, bucket);
      NextPoints(t, points, bucket, Buckets(lower + width, end, width));
      if rows != [] {
        points := points + [Point(rows[0].time, rows[0].parents, rows[0].children, rows[0].gap, |rows| > 1, HasGap(rows))];
      }
      lower := lower + width;
    }
    NoBuckets(lower, end, width);
    NoPoints(t);
    assert points + [] == points;
  }

  lemma {:induction false} NoPoints(t: seq<Row>)
    ensures Points(t, []) == []
  {
  }

  lemma {:induction false} FirstBucket(lower: int, end: int, width: int)
    requires width >= 1 && lower <= end
    ensures Buckets(lower, end, width) == [Bucket(lower, Min(end, lower + width - 1))] + Buckets(lower + width, end, width)
  {
  }

  lemma {:induction false} NoBuckets(lower: int, end: int, width: int)
    requires width >= 1 && lower > end
    ensures Buckets(lower, end, width) == []
  {
  }

  lemma {:induction false} NextPoints(t: seq<Row>, points: seq<Point>, b: Bucket, more: seq<Bucket>)
    ensures points + Points(t, [b] + more) ==
            (if RowsIn(t, b) == [] then points else points + [PointFor(RowsIn(t, b))]) + Points(t, more)
  {
    assert ([b] + more)[1..] == more;
    if RowsIn(t, b) == [] {
      assert [] + Points(t, more) == Points(t, more);
    } else {
      assert points + ([PointFor(RowsIn(t, b))] + Points(t, more)) == (points + [PointFor(RowsIn(t, b))]) + Points(t, more);
    }
  }

  // ---------------------------------------------------------------- what the view shows

  /** Buckets in order, without overlap and without a hole, from `lower` to `end`. */
  ghost predicate Partition(buckets: seq<Bucket>, lower: int, end: int) {
    (buckets == [] <==> lower > end) &&
    (buckets != [] ==> buckets[0].lower == lower && buckets[|buckets| - 1].upper == end) && Consecutive(buckets)
  }

  ghost predicate Consecutive(buckets: seq<Bucket>) {
    (forall i :: 0 <= i < |buckets| ==> buckets[i].lower <= buckets[i].upper) &&
    forall i :: 0 < i < |buckets| ==> buckets[i].lower == buckets[i - 1].upper + 1
  }

  lemma {:induction false} BucketsPartition(lower: int, end: int, width: int)
    requires width >= 1
    ensures Partition(Buckets(lower, end, width), lower, end)
    decreases end - lower
  {
    if lower <= end {
      BucketsPartition(lower + width, end, width);
      var rest := Buckets(lower + width, end, width);
      var all := Buckets(lower, end, width);
      assert forall i :: 0 < i < |all| ==> all[i] == rest[i - 1];
    }
  }

  lemma {:induction false} BucketsAsWide(lower: int, end: int, width: int)
    requires width >= 1
    ensures var b := Buckets(lower, end, width); forall i :: 0 <= i < |b| - 1 ==> b[i].upper - b[i].lower + 1 == width
    decreases end - lower
  {
    if lower + width <= end {
      BucketsAsWide(lower + width, end, width);
      FirstBucket(lower, end, width);
      var all, rest := Buckets(lower, end, width), Buckets(lower + width, end, width);
      forall i | 0 <= i < |all| - 1 ensures all[i].upper - all[i].lower + 1 == width { assert i > 0 ==> all[i] == rest[i - 1]; }
    } else {
      NoBuckets(lower + width, end, width);
    }
  }

  lemma {:induction false} BucketsFew(lower: int, end: int, width: int)
    requires width >= 1 && lower <= end
    ensures (|Buckets(lower, end, width)| - 1) * width <= end - lower
    decreases end - lower
  {
    if lower + width <= end {
      BucketsFew(lower + width, end, width);
      var n := |Buckets(lower + width, end, width)|;
      Distribute(n - 1, width);
      assert |Buckets(lower, end, width)| == n + 1;
    } else {
      NoBuckets(lower + width, end, width);
    }
  }

  lemma {:induction false} Distribute(n: int, width: int)
    ensures (n + 1) * width == n * width + width
  {
  }

  /** The range is cut into at most 399 buckets that partition it. All but the last have the same width, and no
      smaller one would do. */
  lemma {:induction false} AtMost399(start: int, end: int)
    requires start <= end
    ensures var w := Width(start, end); var b := Buckets(start, end, w);
      |b| <= 399 && Partition(b, start, end) && (forall i :: 0 <= i < |b| - 1 ==> b[i].upper - b[i].lower + 1 == w) &&
      forall v: nat :: 399 * v >= end - start + 1 ==> w <= v
  {
    var width := Width(start, end);
    BucketsPartition(start, end, width);
    BucketsFew(start, end, width);
    BucketsAsWide(start, end, width);
    var n := |Buckets(start, end, width)| - 1;
    if n >= BUCKETS {
      LessProduct(BUCKETS, n, width);
    }
  }

  lemma {:induction false} LessProduct(a: int, b: int, width: int)
    requires a <= b && width >= 0
    ensures a * width <= b * width
  {
  }

  /** Every time of the range lies in exactly one bucket. */
  lemma {:induction false} OneBucket(buckets: seq<Bucket>, lower: int, end: int, r: Row) returns (k: nat)
    requires Partition(buckets, lower, end) && lower <= r.time <= end
    ensures k < |buckets| && In(r, buckets[k]) && forall j :: 0 <= j < |buckets| && In(r, buckets[j]) ==> j == k
    decreases |buckets|
  {
    if buckets[0].upper >= r.time {
      k := 0;
      UppersGrow(buckets);
    } else {
      assert |buckets| > 1;
      var j := OneBucket(buckets[1..], buckets[0].upper + 1, end, r);
      k := j + 1;
      assert forall i :: 0 < i < |buckets| ==> buckets[i] == buckets[1..][i - 1];
    }
  }

  lemma {:induction false} UppersGrow(buckets: seq<Bucket>)
    requires Consecutive(buckets)
    ensures forall j :: 0 < j < |buckets| ==> buckets[0].upper < buckets[j].lower
    decreases |buckets|
  {
    if |buckets| > 1 {
      UppersGrow(buckets[1..]);
      assert forall i :: 0 < i < |buckets| ==> buckets[i] == buckets[1..][i - 1];
    }
  }

  lemma {:induction false} RowsInExact(t: seq<Row>, b: Bucket)
    requires Sorted(t)
    ensures var s := RowsIn(t, b); Sorted(s) && forall r :: r in s <==> r in t && In(r, b)
  {
    if t != [] {
      var rest := RowsIn(t[1..], b);
      RowsInExact(t[1..], b);
      forall j | 0 <= j < |rest| ensures Before(t[0], rest[j]) {
        assert rest[j] in t[1..];
        var k :| 0 <= k < |t| - 1 && t[1..][k] == rest[j];
        assert t[k + 1] == rest[j];
      }
      assert forall r :: r in t <==> r == t[0] || r in t[1..];
    }
  }

  /** A point shows its bucket: the figures of its first row, whether there are more rows, and
      whether any of them is a gap. */
  ghost predicate Shows(p: Point, t: seq<Row>, b: Bucket) {
    (exists r :: IsFirst(r, t, b) && p.time == r.time && p.parents == r.parents && p.children == r.children && p.gap == r.gap) &&
    (p.summarized <==> exists r, q :: r in t && q in t && In(r, b) && In(q, b) && r != q) &&
    (p.containsGap <==> exists r :: r in t && In(r, b) && r.gap)
  }

  ghost predicate IsFirst(r: Row, t: seq<Row>, b: Bucket) {
    r in t && In(r, b) && forall q :: q in t && In(q, b) && q != r ==> Before(r, q)
  }

  lemma {:induction false} PointShows(t: seq<Row>, b: Bucket)
    requires Sorted(t) && RowsIn(t, b) != []
    ensures Shows(PointFor(RowsIn(t, b)), t, b)
  {
    RowsInExact(t, b);
    var s := RowsIn(t, b);
    assert s[0] in s;
    forall q | q in t && In(q, b) && q != s[0] ensures Before(s[0], q) {
      assert q in s;
      var i :| 0 <= i < |s| && s[i] == q;
    }
    assert IsFirst(s[0], t, b);
    if |s| > 1 { assert s[1] in s && Before(s[0], s[1]); }
    if r, q :| r in t && q in t && In(r, b) && In(q, b) && r != q {
      assert r in s && q in s;
    }
    if r :| r in t && In(r, b) && r.gap {
      assert r in s;
    }
    if HasGap(s) {
      var i :| 0 <= i < |s| && s[i].gap;
      assert s[i] in s;
    }
  }

  function Filled(t: seq<Row>, buckets: seq<Bucket>): seq<Bucket> {
    if buckets == [] then []
    else (if RowsIn(t, buckets[0]) == [] then [] else [buckets[0]]) + Filled(t, buckets[1..])
  }

  ghost predicate AllShow(p: seq<Point>, t: seq<Row>, f: seq<Bucket>) {
    |p| == |f| && forall i :: 0 <= i < |p| ==> Shows(p[i], t, f[i])
  }

  lemma {:induction false} AllShowMore(first: Point, p: seq<Point>, t: seq<Row>, b: Bucket, f: seq<Bucket>)
    requires Shows(first, t, b) && AllShow(p, t, f)
    ensures AllShow([first] + p, t, [b] + f)
  {
    hide Shows;
  }

  /** There is one point for each bucket with a row, in their order, and it shows that bucket. */
  lemma {:induction false} PointsShow(t: seq<Row>, buckets: seq<Bucket>)
    requires Sorted(t)
    ensures AllShow(Points(t, buckets), t, Filled(t, buckets)) && |Filled(t, buckets)| <= |buckets|
  {
    hide Shows, RowsIn, Sorted, PointFor;
    if buckets != [] {
      PointsShow(t, buckets[1..]);
      var p, f := Points(t, buckets[1..]), Filled(t, buckets[1..]);
      if RowsIn(t, buckets[0]) != [] {
        PointShows(t, buckets[0]);
        AllShowMore(PointFor(RowsIn(t, buckets[0])), p, t, buckets[0], f);
      } else {
        assert Points(t, buckets) == p && Filled(t, buckets) == f;
      }
    }
  }

  ghost predicate HasRow(t: seq<Row>, b: Bucket) { exists r :: r in t && In(r, b) }

  lemma {:induction false} FilledExact(t: seq<Row>, buckets: seq<Bucket>)
    requires Sorted(t)
    ensures forall b :: b in Filled(t, buckets) <==> b in buckets && HasRow(t, b)
  {
    if buckets != [] {
      var b := buckets[0];
      FilledExact(t, buckets[1..]);
      RowsInExact(t, b);
      assert HasRow(t, b) <==> RowsIn(t, b) != [] by {
        if RowsIn(t, b) != [] { assert RowsIn(t, b)[0] in RowsIn(t, b); }
        if r :| r in t && In(r, b) { assert r in RowsIn(t, b); }
      }
      hide HasRow, RowsIn, Sorted;
      assert forall c :: c in buckets <==> c == b || c in buckets[1..];
    }
  }

  ghost predicate OnlyBucket(buckets: seq<Bucket>, r: Row, b: Bucket) {
    b in buckets && In(r, b) && forall c :: c in buckets && In(r, c) ==> c == b
  }

  predicate Asked(r: Row, from: Option<int>, to: Option<int>) {
    (from.Some? ==> from.value <= r.time) && (to.Some? ==> r.time <= to.value)
  }

  /** The range that is cut into buckets holds exactly the observations asked for, and reaches as far as those and
      the observations there are. */
  lemma {:induction false} RangeExact(t: seq<Row>, from: Option<int>, to: Option<int>, r: Row)
    requires Sorted(t) && r in t
    ensures var start, end := StartAt(t, from), EndAt(t, to);
      (InRange(r, start, end) <==> Asked(r, from, to)) &&
      start >= t[0].time && (start == t[0].time || from == Some(start)) &&
      end <= t[|t| - 1].time && (end == t[|t| - 1].time || to == Some(end))
  {
    var i :| 0 <= i < |t| && t[i] == r;
    assert i > 0 ==> Before(t[0], t[i]);
    assert i < |t| - 1 ==> Before(t[i], t[|t| - 1]);
  }

  /** The view of a range: at most 400 points, after an optional gap carried over from before the
      range one for each bucket with an observation, and every observation of the range lies in
      exactly one bucket, which has a point. */
  lemma {:induction false} ViewFaithful(t: seq<Row>, from: Option<int>, to: Option<int>)
    requires Sorted(t) && t != [] && StartAt(t, from) <= EndAt(t, to)
    ensures var start, end := StartAt(t, from), EndAt(t, to);
      var buckets := Buckets(start, end, Width(start, end));
      var filled, points := Filled(t, buckets), ViewOf(t, from, to).points;
      var lead := |Lead(t, start)|;
      |points| <= 400 && |points| == lead + |filled| && lead <= 1 &&
      (forall i :: 0 <= i < |filled| ==> Shows(points[lead + i], t, filled[i])) &&
      Partition(buckets, start, end) &&
      (forall r :: r in t && Asked(r, from, to) ==> exists b :: OnlyBucket(filled, r, b))
  {
    var start, end := StartAt(t, from), EndAt(t, to);
    var buckets := Buckets(start, end, Width(start, end));
    AtMost399(start, end);
    PointsShow(t, buckets);
    FilledExact(t, buckets);
    var filled := Filled(t, buckets);
    forall r | r in t && Asked(r, from, to) ensures exists b :: OnlyBucket(filled, r, b) {
      RangeExact(t, from, to, r);
      var k := OneBucket(buckets, start, end, r);
      assert HasRow(t, buckets[k]);
      assert buckets[k] in buckets && OnlyBucket(filled, r, buckets[k]);
    }
    hide Buckets, Width, Points, Filled, Preceding, Shows;
  }

  /** The gap carried over is there exactly if the last observation before the range is one. */
  lemma {:induction false} LeadExact(t: seq<Row>, start: int)
    requires Sorted(t)
    ensures Lead(t, start) == [] || Lead(t, start) == [Point(start, 0, 0, true, false, true)]
    ensures Lead(t, start) != [] <==>
      exists r :: r in t && r.time < start && r.gap && forall q :: q in t && q.time < start && q != r ==> Before(q, r)
  {
    PrecedingExact(t, start);
    var p := Preceding(t, start);
    hide Preceding;
    if r :| r in t && r.time < start && r.gap && forall q :: q in t && q.time < start && q != r ==> Before(q, r) {
      assert p == Some(r);
    }
  }

  lemma {:induction false} PrecedingExact(t: seq<Row>, time: int)
    requires Sorted(t)
    ensures var p := Preceding(t, time);
      (p == None ==> forall q :: q in t ==> q.time >= time) &&
      (p.Some? ==> p.value in t && p.value.time < time && forall q :: q in t && q.time < time && q != p.value ==> Before(q, p.value))
  {
    if t != [] {
      var n := |t| - 1;
      if t[n].time < time {
        forall q | q in t && q != t[n] ensures Before(q, t[n]) {
          var i :| 0 <= i < |t| && t[i] == q;
        }
      } else {
        PrecedingExact(t[..n], time);
        assert forall q :: q in t <==> q == t[n] || q in t[..n];
      }
    }
  }
}
