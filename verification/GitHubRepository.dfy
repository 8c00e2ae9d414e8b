/** `SqliteGitHubRepository.admitLinks`: stored links are read page by page, each page folded
    into a bounded selection, and the table rewritten when the selection differs from it. */
module GitHubRepository {
  import opened GitHubLinks
  import opened LinkRetention

  const MAX_LEGACY_LINK_ROWS := 4096
  const PAGE_ROWS := 256
  const MAX_COMPARED_ROWS := 384

  /** A stored link; `createdAt` in milliseconds. */
  datatype Row = Row(session: string, url: string, kind: Kind, source: Source, createdAt: int) {
    function Link(): RetainedLink { RetainedLink(url, kind, source) }
  }

  type Key = (Source, string)

  function KeyOf(l: RetainedLink): Key { (l.source, l.url) }

  function Links(rows: seq<Row>): (r: seq<RetainedLink>)
    ensures |r| == |rows|
  {
    seq(|rows|, i requires 0 <= i < |rows| => rows[i].Link())
  }

  function Canons(rows: seq<Row>): seq<RetainedLink> { Canonical(Links(rows)) }

  /** The first row that canonicalises to `key`. */
  function FirstRow(rows: seq<Row>, key: Key): Option<Row> {
    if rows == [] then None
    else
      var rest, row := FirstRow(rows[..|rows| - 1], key), rows[|rows| - 1];
      if rest.Some? then rest
      else if Canon(row.Link()).Some? && KeyOf(Canon(row.Link()).value) == key then Some(row) else None
  }

  method FirstCanonicalRows(rows: seq<Row>, wanted: Option<set<Key>>) returns (first: map<Key, Row>)
    ensures forall k :: k in first <==> FirstRow(rows, k).Some? && (wanted.Some? ==> k in wanted.value)
    ensures forall k :: k in first ==> first[k] == FirstRow(rows, k).value
  {
    hide Canon;
    first := map[];
    for i := 0 to |rows|
      invariant forall k :: k in first <==> FirstRow(rows[..i], k).Some? && (wanted.Some? ==> k in wanted.value)
      invariant forall k :: k in first ==> first[k] == FirstRow(rows[..i], k).value
    {
      assert rows[..i + 1][..i] == rows[..i];
      var parsed := Canon(rows[i].Link());
      if parsed.Some? {
        var key := KeyOf(parsed.value);
        if (wanted == None || key in wanted.value) && key !in first { first := first[key := rows[i]]; }
      }
    }
    assert rows[..|rows|] == rows;
  }

  /** The time of the first row of a link. */
  function FirstTime(rows: seq<Row>, l: RetainedLink): int {
    var first := FirstRow(rows, KeyOf(l));
    if first.Some? then first.value.createdAt else 0
  }

  function Stamp(session: string, rows: seq<Row>, l: RetainedLink): Row {
    Row(session, l.url, l.kind, l.source, FirstTime(rows, l))
  }

  /** The normal form of the rows, each link with the time of its first row. */
  function SelectRows(session: string, rows: seq<Row>): (r: seq<Row>)
    ensures |r| == |Normalized(Links(rows))|
  {
    var ls := Normalized(Links(rows));
    seq(|ls|, i requires 0 <= i < |ls| => Stamp(session, rows, ls[i]))
  }

  // ---------------------------------------------------------------- first rows and links

  lemma {:induction false} FirstRowNext(rows: seq<Row>, row: Row, key: Key)
    ensures FirstRow(rows + [row], key) ==
            if FirstRow(rows, key).Some? then FirstRow(rows, key)
            else if Canon(row.Link()).Some? && KeyOf(Canon(row.Link()).value) == key then Some(row) else None
  {
    assert (rows + [row])[..|rows|] == rows;
  }

  lemma {:induction false} CanonsNext(rows: seq<Row>, row: Row)
    ensures Canons(rows + [row]) == Canons(rows) + if Canon(row.Link()).Some? then [Canon(row.Link()).value] else []
  {
    assert Links(rows + [row]) == Links(rows) + [row.Link()];
    CanonicalNext(Links(rows), row.Link());
  }

  lemma {:induction false} FirstRowAppend(a: seq<Row>, b: seq<Row>, key: Key)
    ensures FirstRow(a + b, key) == if FirstRow(a, key).Some? then FirstRow(a, key) else FirstRow(b, key)
  {
    if b == [] {
      assert a + b == a;
    } else {
      var b', row := b[..|b| - 1], b[|b| - 1];
      FirstRowAppend(a, b', key);
      assert a + b == (a + b') + [row];
      FirstRowNext(a + b', row, key);
    }
  }

  lemma {:induction false} CanonsAppend(a: seq<Row>, b: seq<Row>)
    ensures Canons(a + b) == Canons(a) + Canons(b)
  {
    if b == [] {
      assert a + b == a;
    } else {
      var b', row := b[..|b| - 1], b[|b| - 1];
      CanonsAppend(a, b');
      assert a + b == (a + b') + [row];
      CanonsNext(a + b', row);
      CanonsNext(b', row);
      assert b == b' + [row];
    }
  }

  /** Links of one key are one link. */
  lemma {:induction false} KeyDecides(a: RetainedLink, b: RetainedLink)
    requires Canon(a) == Some(a) && Canon(b) == Some(b) && KeyOf(a) == KeyOf(b)
    ensures a == b
  {
  }

  /** A key has a first row exactly when its link occurs. */
  lemma {:induction false} FirstRowExact(rows: seq<Row>, l: RetainedLink)
    requires Canon(l) == Some(l)
    ensures FirstRow(rows, KeyOf(l)).Some? <==> l in Canons(rows)
    ensures FirstRow(rows, KeyOf(l)).Some? ==>
              FirstRow(rows, KeyOf(l)).value in rows && Canon(FirstRow(rows, KeyOf(l)).value.Link()) == Some(l)
  {
    if rows != [] {
      var rest, row := rows[..|rows| - 1], rows[|rows| - 1];
      assert rows == rest + [row];
      FirstRowExact(rest, l);
      FirstRowNext(rest, row, KeyOf(l));
      CanonsNext(rest, row);
      if Canon(row.Link()).Some? {
        CanonIdempotent(row.Link());
        if KeyOf(Canon(row.Link()).value) == KeyOf(l) { KeyDecides(Canon(row.Link()).value, l); }
      }
    }
  }

  lemma {:induction false} NormalFrom(rows: seq<Row>, l: RetainedLink)
    requires l in Normalized(Links(rows))
    ensures l in Canons(rows) && Canon(l) == Some(l)
  {
    CanonicalAll(Links(rows));
    RenderedWithin(Canons(rows), Ranked(Selected(Canons(rows)).entries), l);
    var i :| 0 <= i < |Canons(rows)| && Canons(rows)[i] == l;
  }

  lemma {:induction false} RenderedWithin(cs: seq<RetainedLink>, entries: seq<Entry>, l: RetainedLink)
    requires l in Rendered(cs, entries)
    ensures l in cs
  {
    var rest, e := entries[..|entries| - 1], entries[|entries| - 1];
    if l in Rendered(cs, rest) { RenderedWithin(cs, rest, l); } else { assert l in LinksOf(cs, e.url); }
  }

  /** Every link of the normal form has a first row: the lookup never misses. */
  lemma {:induction false} LookupNeverMisses(rows: seq<Row>, l: RetainedLink)
    requires l in Normalized(Links(rows))
    ensures FirstRow(rows, KeyOf(l)).Some?
  {
    NormalFrom(rows, l);
    FirstRowExact(rows, l);
  }

  // ---------------------------------------------------------------- folding pages

  lemma {:induction false} LinksOfSelect(session: string, rows: seq<Row>)
    ensures Links(SelectRows(session, rows)) == Normalized(Links(rows))
    ensures Canons(SelectRows(session, rows)) == Normalized(Links(rows))
  {
    assert Links(SelectRows(session, rows)) == Normalized(Links(rows));
    NormalCanonical(Links(rows));
  }

  /** The first row of a selected link is the row it was stamped with. */
  lemma {:induction false} FirstRowOfSelect(session: string, rows: seq<Row>, l: RetainedLink)
    requires l in Normalized(Links(rows))
    ensures FirstRow(SelectRows(session, rows), KeyOf(l)) == Some(Stamp(session, rows, l))
  {
    LinksOfSelect(session, rows);
    NormalFrom(rows, l);
    FirstRowExact(SelectRows(session, rows), l);
    var row := FirstRow(SelectRows(session, rows), KeyOf(l)).value;
    var i :| 0 <= i < |SelectRows(session, rows)| && SelectRows(session, rows)[i] == row;
    var m := Normalized(Links(rows))[i];
    NormalFrom(rows, m);
    assert row.Link() == m;
  }

  ghost predicate RowsBySource(rows: seq<Row>) {
    forall i, j :: 0 <= i < j < |rows| ==> Priority(rows[i].source) <= Priority(rows[j].source)
  }

  /** Nothing in the list comes after priority `p`. */
  ghost predicate UpTo(cs: seq<RetainedLink>, p: nat) { forall i :: 0 <= i < |cs| ==> Priority(cs[i].source) <= p }

  lemma {:induction false} BySourceNext(cs: seq<RetainedLink>, c: RetainedLink, p: nat)
    requires BySource(cs) && UpTo(cs, p) && Priority(c.source) == p
    ensures BySource(cs + [c]) && UpTo(cs + [c], p)
  {
  }

  lemma {:induction false} CanonsUpTo(rows: seq<Row>, p: nat)
    requires RowsBySource(rows) && (rows != [] ==> Priority(rows[|rows| - 1].source) <= p)
    ensures BySource(Canons(rows)) && UpTo(Canons(rows), p)
  {
    if rows != [] {
      var rest, row := rows[..|rows| - 1], rows[|rows| - 1];
      assert rows == rest + [row];
      assert rest != [] ==> Priority(rows[|rest| - 1].source) <= Priority(row.source);
      assert RowsBySource(rest);
      hide RowsBySource, Canons, BySource;
      CanonsUpTo(rest, Priority(row.source));
      CanonsNext(rest, row);
      if Canon(row.Link()).Some? {
        CanonSource(row.Link());
        BySourceNext(Canons(rest), Canon(row.Link()).value, Priority(row.source));
      } else {
        assert Canons(rest) + [] == Canons(rest);
      }
    }
  }

  lemma {:induction false} CanonSource(v: RetainedLink)
    requires Canon(v).Some?
    ensures Canon(v).value.source == v.source
  {
  }

  lemma {:induction false} CanonsBySource(rows: seq<Row>)
    requires RowsBySource(rows)
    ensures BySource(Canons(rows))
  {
    CanonsUpTo(rows, 2);
  }

  /** Folding one more page into the selection gives the selection from all rows read so far:
      the same links in the same order with the same first-seen times. */
  lemma {:induction false} PageFold(session: string, rows: seq<Row>, page: seq<Row>)
    requires RowsBySource(rows + page)
    ensures SelectRows(session, SelectRows(session, rows) + page) == SelectRows(session, rows + page)
  {
    var selected := SelectRows(session, rows);
    CanonsBySource(rows + page);
    CanonsAppend(rows, page);
    CanonsAppend(selected, page);
    LinksOfSelect(session, rows);
    PageAbsorbed(Canons(rows), Canons(page));
    var ls := Normalized(Links(rows + page));
    assert Normalized(Links(selected + page)) == ls;
    forall i | 0 <= i < |ls| ensures Stamp(session, selected + page, ls[i]) == Stamp(session, rows + page, ls[i]) {
      NormalFrom(rows + page, ls[i]);
      StampFolded(session, rows, page, ls[i]);
    }
  }

  lemma {:induction false} StampFolded(session: string, rows: seq<Row>, page: seq<Row>, l: RetainedLink)
    requires Canon(l) == Some(l)
    requires l in Canons(rows) ==> l in Normalized(Links(rows))
    ensures Stamp(session, SelectRows(session, rows) + page, l) == Stamp(session, rows + page, l)
  {
    var selected := SelectRows(session, rows);
    FirstRowAppend(selected, page, KeyOf(l));
    FirstRowAppend(rows, page, KeyOf(l));
    FirstRowExact(rows, l);
    FirstRowExact(selected, l);
    LinksOfSelect(session, rows);
    if l in Normalized(Links(rows)) {
      NormalFrom(rows, l);
      FirstRowOfSelect(session, rows, l);
    }
  }

  /** What an admission keeps, and at which priority, is what it would keep from all stored rows
      and the input taken together. */
  lemma {:induction false} AdmissionKeeps(session: string, rows: seq<Row>, input: seq<Row>)
    requires RowsBySource(rows)
    ensures Selected(Canons(SelectRows(session, rows) + input)) == Selected(Canons(rows + input))
  {
    CanonsBySource(rows);
    CanonsAppend(rows, input);
    CanonsAppend(SelectRows(session, rows), input);
    LinksOfSelect(session, rows);
    SelectionAbsorbed(Canons(rows), Canons(input));
  }

  /** The link was stored and dropped by the selection, and the input brings it again. */
  ghost predicate Returns(rows: seq<Row>, input: seq<Row>, l: RetainedLink) {
    l in Canons(rows) && l !in Normalized(Links(rows)) && l in Canons(input)
  }

  /** Every such link that is kept in the end comes with the time it was first stored with. */
  ghost predicate SameTimes(rows: seq<Row>, input: seq<Row>) {
    forall l <- Normalized(Links(rows + input)) :: Returns(rows, input, l) ==> FirstTime(input, l) == FirstTime(rows, l)
  }

  /** An admission gives the very rows of selecting from all stored rows and the input together if
      and only if every dropped identity that comes back is given its earlier links again, and every
      dropped link that comes back its first time. */
  lemma {:induction false} AdmissionExact(session: string, rows: seq<Row>, input: seq<Row>)
    requires RowsBySource(rows)
    ensures SelectRows(session, SelectRows(session, rows) + input) == SelectRows(session, rows + input) <==>
            ReadmittedWhole(Canons(rows), Canons(input)) && SameTimes(rows, input)
  {
    hide Normal, Stamp, ReadmittedWhole, Returns, RowsBySource, FirstTime;
    var stored, all := SelectRows(session, rows) + input, rows + input;
    SameLinksExact(session, rows, input);
    LinksOfSelect(session, stored);
    LinksOfSelect(session, all);
    var ls := Normalized(Links(all));
    if Normalized(Links(stored)) == ls {
      forall l | l in ls ensures Stamp(session, stored, l) == Stamp(session, all, l) <==>
                                 (Returns(rows, input, l) ==> FirstTime(input, l) == FirstTime(rows, l)) {
        StampsAgree(session, rows, input, l);
      }
      hide Normalized, Links;
      SameStamps(session, stored, all, ls);
    }
  }

  lemma {:induction false} SameLinksExact(session: string, rows: seq<Row>, input: seq<Row>)
    requires RowsBySource(rows)
    ensures Normalized(Links(SelectRows(session, rows) + input)) == Normalized(Links(rows + input)) <==>
            ReadmittedWhole(Canons(rows), Canons(input))
  {
    CanonsBySource(rows);
    CanonsAppend(rows, input);
    CanonsAppend(SelectRows(session, rows), input);
    LinksOfSelect(session, rows);
    AbsorbExact(Canons(rows), Canons(input));
  }

  lemma {:induction false} SameStamps(session: string, a: seq<Row>, b: seq<Row>, ls: seq<RetainedLink>)
    requires Normalized(Links(a)) == ls && Normalized(Links(b)) == ls
    ensures SelectRows(session, a) == SelectRows(session, b) <==> forall l <- ls :: Stamp(session, a, l) == Stamp(session, b, l)
  {
    hide Normalized, Links, Stamp;
    if SelectRows(session, a) == SelectRows(session, b) {
      forall l | l in ls ensures Stamp(session, a, l) == Stamp(session, b, l) {
        var i :| 0 <= i < |ls| && ls[i] == l;
        assert SelectRows(session, a)[i] == SelectRows(session, b)[i];
      }
    }
  }

  lemma {:induction false} StampsAgree(session: string, rows: seq<Row>, input: seq<Row>, l: RetainedLink)
    requires l in Normalized(Links(rows + input)) && l in Normalized(Links(SelectRows(session, rows) + input))
    ensures Stamp(session, SelectRows(session, rows) + input, l) == Stamp(session, rows + input, l) <==>
            (Returns(rows, input, l) ==> FirstTime(input, l) == FirstTime(rows, l))
  {
    var selected := SelectRows(session, rows);
    NormalFrom(rows + input, l);
    if l in Canons(rows) && l !in Normalized(Links(rows)) {
      hide Normalized, Links, Canon;
      CanonsAppend(selected, input);
      LinksOfSelect(session, rows);
      NormalFrom(selected + input, l);
      FirstRowAppend(selected, input, KeyOf(l));
      FirstRowAppend(rows, input, KeyOf(l));
      FirstRowExact(rows, l);
      FirstRowExact(selected, l);
    } else {
      StampFolded(session, rows, input, l);
    }
  }

  // ---------------------------------------------------------------- a time lost on the way

  function RowsOf(session: string, ls: seq<RetainedLink>, time: int): seq<Row> {
    seq(|ls|, i requires 0 <= i < |ls| => Row(session, ls[i].url, ls[i].kind, ls[i].source, time))
  }

  lemma {:induction false} RowsOfLinks(session: string, ls: seq<RetainedLink>, time: int)
    requires AllCanonical(ls)
    ensures Links(RowsOf(session, ls, time)) == ls && Canons(RowsOf(session, ls, time)) == ls
  {
    CanonicalFixed(ls);
    assert Links(RowsOf(session, ls, time)) == ls;
  }

  /** A repository named in an output at time 5 drops out of a full table and comes back at time 10
      with that link and one of a task. No link is lost, but the first time of the output link is. */
  lemma {:induction false} ReadmittedLater(session: string)
    ensures var out, task := Repo(MAX_GITHUB_LINK_IDENTITIES, Output), Repo(MAX_GITHUB_LINK_IDENTITIES, Task);
      var rows, input := RowsOf(session, Full(), 0) + RowsOf(session, [out], 5), RowsOf(session, [out, task], 10);
      RowsBySource(rows) && ReadmittedWhole(Canons(rows), Canons(input)) && Returns(rows, input, out) &&
      out in Normalized(Links(rows + input)) && FirstTime(rows, out) == 5 && FirstTime(input, out) == 10 &&
      SelectRows(session, SelectRows(session, rows) + input) != SelectRows(session, rows + input)
  {
    var out, task := Repo(MAX_GITHUB_LINK_IDENTITIES, Output), Repo(MAX_GITHUB_LINK_IDENTITIES, Task);
    hide Repo, Full, Canon, Selected, Normal, ReadmittedWhole, FirstTime, Canonical, Canons, Links;
    RepoCanonical(MAX_GITHUB_LINK_IDENTITIES, Output);
    RepoCanonical(MAX_GITHUB_LINK_IDENTITIES, Task);
    FullSelected();
    hide AllCanonical;
    TwoTimes(session, Full(), out, task);
  }

  lemma {:induction false} TwoTimes(session: string, ps: seq<RetainedLink>, out: RetainedLink, task: RetainedLink)
    requires |Selected(ps).entries| == |UrlsOf(ps)| == MAX_GITHUB_LINK_IDENTITIES
    requires AllCanonical(ps) && Canon(out) == Some(out) && Canon(task) == Some(task)
    requires forall i :: 0 <= i < |ps| ==> ps[i].source == Prompt && ps[i].url != out.url
    requires out.url == task.url && out.source == Output && task.source == Task
    ensures var rows, input := RowsOf(session, ps, 0) + RowsOf(session, [out], 5), RowsOf(session, [out, task], 10);
      RowsBySource(rows) && ReadmittedWhole(Canons(rows), Canons(input)) && Returns(rows, input, out) &&
      out in Normalized(Links(rows + input)) && FirstTime(rows, out) == 5 && FirstTime(input, out) == 10 &&
      SelectRows(session, SelectRows(session, rows) + input) != SelectRows(session, rows + input)
  {
    var rows, input := RowsOf(session, ps, 0) + RowsOf(session, [out], 5), RowsOf(session, [out, task], 10);
    hide Canon, Selected, Normal, ReadmittedWhole, RowsBySource, SelectRows, RowsOf, FirstTime, AllCanonical, BySource, Canons, Links, Returns;
    PlusTwo(ps, out, task);
    ComesBackWhole(ps, out, task);
    assert out !in ps;
    TwoTimesRows(session, ps, out, task);
    RowsOfInOrder(session, ps, out);
    ReturnsLater(session, rows, input, out);
  }

  lemma {:induction false} RowsOfInOrder(session: string, ps: seq<RetainedLink>, out: RetainedLink)
    requires out.source == Output && forall i :: 0 <= i < |ps| ==> ps[i].source == Prompt
    ensures RowsBySource(RowsOf(session, ps, 0) + RowsOf(session, [out], 5))
  {
  }

  lemma {:induction false} ReturnsLater(session: string, rows: seq<Row>, input: seq<Row>, l: RetainedLink)
    requires RowsBySource(rows) && ReadmittedWhole(Canons(rows), Canons(input))
    requires l in Canons(rows) && l !in Normal(Canons(rows)) && l in Canons(input) && l in Normal(Canons(rows + input))
    requires FirstTime(rows, l) != FirstTime(input, l)
    ensures Returns(rows, input, l) && l in Normalized(Links(rows + input))
    ensures SelectRows(session, SelectRows(session, rows) + input) != SelectRows(session, rows + input)
  {
    hide Canonical, Links, Normal, FirstTime, SelectRows, ReadmittedWhole, RowsBySource;
    AdmissionExact(session, rows, input);
  }

  lemma {:induction false} TwoTimesRows(session: string, ps: seq<RetainedLink>, out: RetainedLink, task: RetainedLink)
    requires AllCanonical(ps) && Canon(out) == Some(out) && Canon(task) == Some(task) && out !in ps
    ensures var rows, input := RowsOf(session, ps, 0) + RowsOf(session, [out], 5), RowsOf(session, [out, task], 10);
      Canons(rows) == ps + [out] && Canons(input) == [out, task] && Canons(rows + input) == ps + [out] + [out, task] &&
      FirstTime(rows, out) == 5 && FirstTime(input, out) == 10
  {
    var a, b, input := RowsOf(session, ps, 0), RowsOf(session, [out], 5), RowsOf(session, [out, task], 10);
    assert AllCanonical([out]) && AllCanonical([out, task]);
    hide Canon, Canonical, AllCanonical;
    RowsOfLinks(session, ps, 0);
    RowsOfLinks(session, [out], 5);
    RowsOfLinks(session, [out, task], 10);
    CanonsAppend(a, b);
    CanonsAppend(a + b, input);
    FirstRowAppend(a, b, KeyOf(out));
    FirstRowExact(a, out);
    FirstRowExact(b, out);
    FirstRowExact(input, out);
  }

  // ---------------------------------------------------------------- the stored rows

  predicate NotAfter(a: Row, b: Row) {
    Priority(a.source) < Priority(b.source) || (Priority(a.source) == Priority(b.source) && a.createdAt <= b.createdAt)
  }

  function Insert(sorted: seq<Row>, row: Row): seq<Row> {
    if sorted == [] || NotAfter(sorted[|sorted| - 1], row) then sorted + [row]
    else Insert(sorted[..|sorted| - 1], row) + [sorted[|sorted| - 1]]
  }

  /** The order of the query: source priority, then creation time, then row order. */
  function Ordered(rows: seq<Row>): seq<Row> {
    if rows == [] then [] else Insert(Ordered(rows[..|rows| - 1]), rows[|rows| - 1])
  }

  lemma {:induction false} InsertSame(sorted: seq<Row>, row: Row)
    ensures multiset(Insert(sorted, row)) == multiset(sorted) + multiset{row}
  {
    if sorted != [] && !NotAfter(sorted[|sorted| - 1], row) {
      InsertSame(sorted[..|sorted| - 1], row);
      assert sorted == sorted[..|sorted| - 1] + [sorted[|sorted| - 1]];
    }
  }

  ghost predicate NoneAfter(rows: seq<Row>, s: Source) {
    forall i :: 0 <= i < |rows| ==> Priority(rows[i].source) <= Priority(s)
  }

  lemma {:induction false} InsertKeeps(sorted: seq<Row>, row: Row)
    requires RowsBySource(sorted)
    ensures RowsBySource(Insert(sorted, row))
    ensures forall s :: NoneAfter(sorted, s) && Priority(row.source) <= Priority(s) ==> NoneAfter(Insert(sorted, row), s)
  {
    if sorted != [] && !NotAfter(sorted[|sorted| - 1], row) {
      var rest, last := sorted[..|sorted| - 1], sorted[|sorted| - 1];
      InsertKeeps(rest, row);
      assert NoneAfter(rest, last.source);
    }
  }

  lemma {:induction false} OrderedBySource(rows: seq<Row>)
    ensures RowsBySource(Ordered(rows))
  {
    if rows != [] {
      OrderedBySource(rows[..|rows| - 1]);
      InsertKeeps(Ordered(rows[..|rows| - 1]), rows[|rows| - 1]);
    }
  }

  lemma {:induction false} OrderedSame(rows: seq<Row>)
    ensures multiset(Ordered(rows)) == multiset(rows) && |Ordered(rows)| == |rows|
  {
    if rows != [] {
      var rest, row := rows[..|rows| - 1], rows[|rows| - 1];
      assert rows == rest + [row];
      OrderedSame(rest);
      InsertSame(Ordered(rest), row);
    }
    assert |multiset(Ordered(rows))| == |multiset(rows)|;
  }

  /** The primary key of the table. */
  ghost predicate UniqueRows(rows: seq<Row>) {
    forall i, j :: 0 <= i < j < |rows| ==> rows[i].url != rows[j].url || rows[i].source != rows[j].source
  }

  ghost predicate CanonicalRows(session: string, rows: seq<Row>) {
    forall i :: 0 <= i < |rows| ==> rows[i].session == session && Canon(rows[i].Link()) == Some(rows[i].Link())
  }

  ghost function Identities(rows: seq<Row>): set<string> { set r <- rows :: r.url }

  /** Rows an admission has nothing to change about. */
  ghost predicate Settled(session: string, rows: seq<Row>) {
    UniqueRows(rows) && CanonicalRows(session, rows) && |Identities(rows)| <= MAX_GITHUB_LINK_IDENTITIES
  }

  lemma {:induction false} CanonsOfCanonical(session: string, rows: seq<Row>)
    requires CanonicalRows(session, rows)
    ensures Canons(rows) == Links(rows)
  {
    CanonicalFixed(Links(rows));
  }

  ghost function Elements<T>(a: seq<T>): set<T> { set x <- a }

  ghost predicate AllDistinct<T>(a: seq<T>) { forall i, j :: 0 <= i < j < |a| ==> a[i] != a[j] }

  lemma {:induction false} DistinctMultiset<T>(a: seq<T>)
    requires AllDistinct(a)
    ensures |Elements(a)| == |a| && multiset(a) == multiset(Elements(a))
  {
    if a != [] {
      var rest, last := a[..|a| - 1], a[|a| - 1];
      DistinctMultiset(rest);
      assert a == rest + [last];
      assert Elements(a) == Elements(rest) + {last};
    }
  }

  /** Distinct sequences of equal length, one within the other, hold the same elements. */
  lemma {:induction false} SameElements<T>(a: seq<T>, b: seq<T>)
    requires |a| == |b| && AllDistinct(a) && AllDistinct(b) && forall i :: 0 <= i < |a| ==> a[i] in b
    ensures multiset(a) == multiset(b)
  {
    DistinctMultiset(a);
    DistinctMultiset(b);
    Subset(Elements(a), Elements(b));
  }

  lemma {:induction false} NormalDistinct(cs: seq<RetainedLink>, entries: seq<Entry>)
    requires DistinctUrls(entries)
    ensures forall i, j :: 0 <= i < j < |Rendered(cs, entries)| ==> Rendered(cs, entries)[i] != Rendered(cs, entries)[j]
  {
    if entries != [] {
      var rest, e := entries[..|entries| - 1], entries[|entries| - 1];
      NormalDistinct(cs, rest);
      var r, ls := Rendered(cs, rest), LinksOf(cs, e.url);
      forall i, j | 0 <= i < |r| && 0 <= j < |ls| ensures r[i] != ls[j] {
        assert r[i] in r && ls[j] in ls;
        RenderedIn(cs, rest, r[i]);
        assert ls[j] in Of(cs, e.url);
      }
    }
  }

  /** The selection of any rows is settled: unique, canonical and within the limit. */
  lemma {:induction false} SelectSettled(session: string, rows: seq<Row>)
    ensures Settled(session, SelectRows(session, rows))
  {
    var selected, ls, entries := SelectRows(session, rows), Normalized(Links(rows)), Ranked(Selected(Canons(rows)).entries);
    NormalEntries(Canons(rows));
    NormalDistinct(Canons(rows), entries);
    forall i | 0 <= i < |ls| ensures selected[i].Link() == ls[i] && Canon(ls[i]) == Some(ls[i]) {
      assert ls[i] in ls;
      NormalFrom(rows, ls[i]);
    }
    forall i, j | 0 <= i < j < |ls| ensures KeyOf(ls[i]) != KeyOf(ls[j]) {
      if KeyOf(ls[i]) == KeyOf(ls[j]) { KeyDecides(ls[i], ls[j]); }
    }
    EntryUrlsExact(entries);
    SelectedOptimal(Canons(rows), "");
    forall u | u in Identities(selected) ensures u in EntryUrls(entries) {
      var i :| 0 <= i < |ls| && selected[i].url == u;
      assert ls[i] in ls;
      RenderedIn(Canons(rows), entries, ls[i]);
    }
    Subset(Identities(selected), EntryUrls(entries));
  }

  /** Every identity of settled rows is selected. */
  lemma {:induction false} AllSelected(session: string, rows: seq<Row>, url: string)
    requires Settled(session, rows) && url in Identities(rows)
    ensures Has(Ranked(Selected(Links(rows)).entries), url)
  {
    hide Canon, Take, Find, Victim;
    var cs := Links(rows);
    var entries := Selected(cs).entries;
    assert UrlsOf(cs) == Identities(rows) by {
      forall u | u in Identities(rows) ensures u in UrlsOf(cs) {
        var i :| 0 <= i < |rows| && rows[i].url == u;
        assert cs[i] in cs;
      }
    }
    KeepsAsManyAsFit(cs);
    SelectedOptimal(cs, "");
    EntryUrlsExact(entries);
    RankedSorts(Selected(cs));
    SameHas(entries, Ranked(entries), url);
  }

  lemma {:induction false} SameHas(a: seq<Entry>, b: seq<Entry>, url: string)
    requires multiset(a) == multiset(b) && Has(a, url)
    ensures Has(b, url)
  {
    var i :| 0 <= i < |a| && a[i].url == url;
    assert a[i] in multiset(b);
  }

  /** A canonical row of a unique table is its own first row. */
  lemma {:induction false} OwnFirstRow(session: string, rows: seq<Row>, i: nat)
    requires UniqueRows(rows) && CanonicalRows(session, rows) && i < |rows|
    ensures FirstRow(rows, KeyOf(rows[i].Link())) == Some(rows[i])
  {
    var l := rows[i].Link();
    CanonsOfCanonical(session, rows);
    assert Links(rows)[i] == l;
    FirstRowExact(rows, l);
    var row := FirstRow(rows, KeyOf(l)).value;
    var j :| 0 <= j < |rows| && rows[j] == row;
    assert Canon(rows[j].Link()) == Some(rows[j].Link());
  }

  lemma {:induction false} RowSelected(session: string, rows: seq<Row>, i: nat)
    requires Settled(session, rows) && i < |rows|
    ensures rows[i] in SelectRows(session, rows)
  {
    var cs, l := Links(rows), rows[i].Link();
    CanonsOfCanonical(session, rows);
    assert rows[i] in rows && cs[i] == l && l in cs;
    AllSelected(session, rows, l.url);
    InRendered(cs, Ranked(Selected(cs).entries), l);
    var k :| 0 <= k < |Normalized(cs)| && Normalized(cs)[k] == l;
    OwnFirstRow(session, rows, i);
    assert SelectRows(session, rows)[k] == rows[i];
  }

  /** Selecting from settled rows gives the same rows back. */
  lemma {:induction false} SelectSame(session: string, rows: seq<Row>)
    requires Settled(session, rows)
    ensures multiset(SelectRows(session, rows)) == multiset(rows)
  {
    var selected := SelectRows(session, rows);
    SelectSettled(session, rows);
    forall i | 0 <= i < |rows| ensures rows[i] in selected { RowSelected(session, rows, i); }
    SelectedWithin(session, rows);
    assert Elements(rows) == Elements(selected);
    DistinctMultiset(rows);
    DistinctMultiset(selected);
  }

  lemma {:induction false} SelectedWithin(session: string, rows: seq<Row>)
    requires Settled(session, rows)
    ensures forall i :: 0 <= i < |SelectRows(session, rows)| ==> SelectRows(session, rows)[i] in rows
  {
    var ls := Normalized(Links(rows));
    forall i | 0 <= i < |ls| ensures Stamp(session, rows, ls[i]) in rows {
      NormalFrom(rows, ls[i]);
      FirstRowExact(rows, ls[i]);
    }
  }

  /** Once the stored rows are settled, as every admission leaves them, nothing is lost: an admission
      gives what selecting from all stored rows and the input at once would give. */
  lemma {:induction false} SettledAdmission(session: string, rows: seq<Row>, input: seq<Row>)
    requires Settled(session, rows)
    ensures SelectRows(session, SelectRows(session, Ordered(rows)) + input) == SelectRows(session, Ordered(rows) + input)
  {
    var o := Ordered(rows);
    OrderedSame(rows);
    OrderedBySource(rows);
    SettledPermuted(session, rows, o);
    hide Normalized, Canons, Links, Stamp, Normal, Canonical, Settled, RowsBySource, Returns;
    forall l | l in Canons(o) ensures l in Normalized(Links(o)) { SettledKept(session, o, l); }
    AllReadmitted(session, o, input);
    AdmissionExact(session, o, input);
    assert forall l <- Normalized(Links(o + input)) :: !Returns(o, input, l) by { NothingReturns(o, input); }
  }

  lemma {:induction false} NothingReturns(rows: seq<Row>, input: seq<Row>)
    requires forall l :: l in Canons(rows) ==> l in Normalized(Links(rows))
    ensures forall l <- Normalized(Links(rows + input)) :: !Returns(rows, input, l)
  {
  }

  lemma {:induction false} SettledKept(session: string, rows: seq<Row>, l: RetainedLink)
    requires Settled(session, rows) && l in Canons(rows)
    ensures l in Normalized(Links(rows))
  {
    hide Normalized;
    CanonsOfCanonical(session, rows);
    var i :| 0 <= i < |rows| && Links(rows)[i] == l;
    RowSelected(session, rows, i);
    LinksOfSelect(session, rows);
    var k :| 0 <= k < |SelectRows(session, rows)| && SelectRows(session, rows)[k] == rows[i];
    assert Links(SelectRows(session, rows))[k] == l;
  }

  lemma {:induction false} AllReadmitted(session: string, rows: seq<Row>, input: seq<Row>)
    requires Settled(session, rows)
    ensures ReadmittedWhole(Canons(rows), Canons(input))
  {
    CanonsOfCanonical(session, rows);
    hide Settled, Canons, Links, Selected, LinksOf, Ranked;
    var cs := Links(rows);
    var r := Ranked(Selected(cs + Canons(input)).entries);
    forall i | 0 <= i < |r| ensures Has(Selected(cs).entries, r[i].url) || Best(cs, r[i].url) == 3 {
      IdentityKept(session, rows, r[i].url);
    }
  }

  lemma {:induction false} IdentityKept(session: string, rows: seq<Row>, url: string)
    requires Settled(session, rows)
    ensures Has(Selected(Links(rows)).entries, url) || Best(Links(rows), url) == 3
  {
    var cs := Links(rows);
    hide Selected, Settled;
    BestExact(cs, url);
    if Best(cs, url) <= 2 {
      var c :| c in cs && c.url == url;
      var i :| 0 <= i < |cs| && cs[i] == c;
      assert rows[i] in rows && rows[i].url == url;
      AllSelected(session, rows, url);
      HasRanked(cs, url);
    }
  }

  // ---------------------------------------------------------------- admission

  datatype Admission = Rejected | Admitted(links: seq<Row>)

  /** Stored rows an admission keeps as they are. */
  lemma {:induction false} SameRows(session: string, rows: seq<Row>, input: seq<Row>)
    requires UniqueRows(rows) && (forall i :: 0 <= i < |rows| ==> rows[i].session == session)
    requires var selected := SelectRows(session, SelectRows(session, Ordered(rows)) + input);
             |selected| == |rows| && forall i :: 0 <= i < |rows| ==> rows[i].Link() in Links(selected)
    ensures multiset(rows) == multiset(SelectRows(session, SelectRows(session, Ordered(rows)) + input))
    ensures Settled(session, rows)
  {
    hide Normalized, Canons, Links, Stamp, Normal, Canonical;
    RowsSettled(session, rows, SelectRows(session, Ordered(rows)) + input);
    PermutedSame(session, rows);
    LinksOfSelect(session, SelectRows(session, Ordered(rows)) + input);
    StoredRowsSelected(session, rows, Ordered(rows), input);
    SelectSettled(session, SelectRows(session, Ordered(rows)) + input);
    SameElements(rows, SelectRows(session, SelectRows(session, Ordered(rows)) + input));
  }

  lemma {:induction false} RowsSettled(session: string, rows: seq<Row>, combined: seq<Row>)
    requires UniqueRows(rows) && (forall i :: 0 <= i < |rows| ==> rows[i].session == session)
    requires forall i :: 0 <= i < |rows| ==> rows[i].Link() in Links(SelectRows(session, combined))
    ensures Settled(session, rows)
  {
    SelectSettled(session, combined);
    LinksOfSelect(session, combined);
    LinksCanonical(combined, rows);
    FewIdentities(rows, SelectRows(session, combined));
  }

  /** Ordering and selecting settled rows permutes them. */
  lemma {:induction false} PermutedSame(session: string, rows: seq<Row>)
    requires Settled(session, rows)
    ensures multiset(rows) == multiset(SelectRows(session, Ordered(rows)))
    ensures Settled(session, SelectRows(session, Ordered(rows)))
  {
    hide Normalized, Canons, Links, Stamp, Normal, Canonical;
    var o := Ordered(rows);
    OrderedSame(rows);
    SettledPermuted(session, rows, o);
    SelectSame(session, o);
    SettledPermuted(session, o, SelectRows(session, o));
  }

  lemma {:induction false} StoredRowsSelected(session: string, rows: seq<Row>, o: seq<Row>, input: seq<Row>)
    requires CanonicalRows(session, rows) && multiset(rows) == multiset(SelectRows(session, o))
    requires forall i :: 0 <= i < |rows| ==> rows[i].Link() in Normalized(Links(SelectRows(session, o) + input))
    ensures forall i :: 0 <= i < |rows| ==> rows[i] in SelectRows(session, SelectRows(session, o) + input)
  {
    var stored := SelectRows(session, o);
    SelectSettled(session, o);
    forall i | 0 <= i < |rows| ensures rows[i] in SelectRows(session, stored + input) {
      assert rows[i] in multiset(rows) && rows[i] in multiset(stored);
      var k :| 0 <= k < |stored| && stored[k] == rows[i];
      StoredRowSelected(session, stored, input, k);
    }
  }

  lemma {:induction false} LinksCanonical(combined: seq<Row>, rows: seq<Row>)
    requires forall i :: 0 <= i < |rows| ==> rows[i].Link() in Normalized(Links(combined))
    ensures forall i :: 0 <= i < |rows| ==> Canon(rows[i].Link()) == Some(rows[i].Link())
  {
    forall i | 0 <= i < |rows| ensures Canon(rows[i].Link()) == Some(rows[i].Link()) {
      NormalFrom(combined, rows[i].Link());
    }
  }

  lemma {:induction false} FewIdentities(rows: seq<Row>, selected: seq<Row>)
    requires |Identities(selected)| <= MAX_GITHUB_LINK_IDENTITIES
    requires forall i :: 0 <= i < |rows| ==> rows[i].Link() in Links(selected)
    ensures |Identities(rows)| <= MAX_GITHUB_LINK_IDENTITIES
  {
    forall u | u in Identities(rows) ensures u in Identities(selected) {
      var i :| 0 <= i < |rows| && rows[i].url == u;
      var j :| 0 <= j < |selected| && Links(selected)[j] == rows[i].Link();
      assert selected[j] in selected && selected[j].url == u;
    }
    Subset(Identities(rows), Identities(selected));
  }

  lemma {:induction false} SettledPermuted(session: string, a: seq<Row>, b: seq<Row>)
    requires Settled(session, a) && multiset(a) == multiset(b)
    ensures Settled(session, b)
  {
    forall i | 0 <= i < |b| ensures b[i] in a { assert b[i] in multiset(b); }
    forall i | 0 <= i < |a| ensures a[i] in b { assert a[i] in multiset(a); }
    assert Identities(a) == Identities(b);
    DistinctMultiset(a);
    UniquePermuted(a, b);
  }

  lemma {:induction false} UniquePermuted(a: seq<Row>, b: seq<Row>)
    requires UniqueRows(a) && multiset(a) == multiset(b)
    ensures UniqueRows(b)
  {
    DistinctMultiset(a);
    forall i, j | 0 <= i < j < |b| ensures b[i].url != b[j].url || b[i].source != b[j].source {
      assert b[i] in multiset(a) && b[j] in multiset(a);
      var x :| 0 <= x < |a| && a[x] == b[i];
      var y :| 0 <= y < |a| && a[y] == b[j];
      if x == y { OnceOnly(b, i, j); }
    }
  }

  lemma {:induction false} OnceOnly<T>(b: seq<T>, i: nat, j: nat)
    requires i < j < |b|
    ensures b[i] == b[j] ==> multiset(b)[b[i]] >= 2
  {
    assert b == b[..i] + [b[i]] + b[i + 1..j] + [b[j]] + b[j + 1..];
  }

  /** A stored row that the next selection links to is in it, with its own time. */
  lemma {:induction false} StoredRowSelected(session: string, stored: seq<Row>, input: seq<Row>, i: nat)
    requires UniqueRows(stored) && CanonicalRows(session, stored) && i < |stored|
    requires stored[i].Link() in Normalized(Links(stored + input))
    ensures stored[i] in SelectRows(session, stored + input)
  {
    var l := stored[i].Link();
    OwnFirstRow(session, stored, i);
    FirstRowAppend(stored, input, KeyOf(l));
    var ls := Normalized(Links(stored + input));
    var k :| 0 <= k < |ls| && ls[k] == l;
    assert SelectRows(session, stored + input)[k] == stored[i];
  }

  function OfSource(rows: seq<Row>, s: Source): (r: seq<Row>)
    ensures forall i :: 0 <= i < |r| ==> r[i] in rows && r[i].source == s
  {
    if rows == [] then []
    else
      var rest, row := OfSource(rows[..|rows| - 1], s), rows[|rows| - 1];
      if row.source == s then rest + [row] else rest
  }

  lemma {:induction false} NewUrl(rest: seq<Row>, row: Row, s: Source)
    requires UniqueRows(rest + [row]) && row.source == s
    ensures row.url !in Identities(OfSource(rest, s))
  {
    var r, rows := OfSource(rest, s), rest + [row];
    forall i | 0 <= i < |r| ensures r[i].url != row.url {
      var j :| 0 <= j < |rest| && rest[j] == r[i];
      assert rows[j] == r[i] && rows[|rest|] == row;
    }
  }

  lemma {:induction false} OneRowPerSource(rows: seq<Row>, s: Source)
    requires UniqueRows(rows)
    ensures |Identities(OfSource(rows, s))| == |OfSource(rows, s)|
    ensures Identities(OfSource(rows, s)) <= Identities(rows)
  {
    if rows != [] {
      var rest, row := rows[..|rows| - 1], rows[|rows| - 1];
      assert rows == rest + [row];
      OneRowPerSource(rest, s);
      var r := OfSource(rest, s);
      if row.source == s {
        assert Identities(r + [row]) == Identities(r) + {row.url};
        NewUrl(rest, row, s);
      }
    }
  }

  lemma {:induction false} ThreeSources(rows: seq<Row>)
    ensures |rows| == |OfSource(rows, Task)| + |OfSource(rows, Prompt)| + |OfSource(rows, Output)|
  {
    if rows != [] { ThreeSources(rows[..|rows| - 1]); }
  }

  /** The rows of a settled table are few enough to be compared before they are rewritten. */
  lemma {:induction false} SettledIsCompared(session: string, rows: seq<Row>)
    requires Settled(session, rows)
    ensures |rows| <= MAX_COMPARED_ROWS
  {
    ThreeSources(rows);
    OneRowPerSource(rows, Task);
    OneRowPerSource(rows, Prompt);
    OneRowPerSource(rows, Output);
    Subset(Identities(OfSource(rows, Task)), Identities(rows));
    Subset(Identities(OfSource(rows, Prompt)), Identities(rows));
    Subset(Identities(OfSource(rows, Output)), Identities(rows));
  }

  lemma {:induction false} SelectNothing(session: string)
    ensures SelectRows(session, []) == []
  {
  }

  lemma {:induction false} NextPage(session: string, all: seq<Row>, offset: nat, next: nat)
    requires RowsBySource(all) && offset <= next <= |all|
    ensures SelectRows(session, SelectRows(session, all[..offset]) + all[offset..next]) == SelectRows(session, all[..next])
  {
    assert all[..offset] + all[offset..next] == all[..next];
    PageFold(session, all[..offset], all[offset..next]);
  }

  /** With settled rows and no input the selection is the stored rows. */
  lemma {:induction false} NothingNew(session: string, rows: seq<Row>)
    requires Settled(session, rows)
    ensures var selected := SelectRows(session, SelectRows(session, Ordered(rows)) + []);
            |selected| == |rows| && forall row <- Ordered(rows) :: row.Link() in Links(selected)
  {
    hide Normalized, Canons, Stamp, Normal, Canonical, Canon;
    var o := Ordered(rows);
    PermutedSame(session, rows);
    OrderedSame(rows);
    var s := SelectRows(session, o);
    assert s + [] == s;
    SelectSame(session, s);
    var selected := SelectRows(session, s);
    assert |multiset(selected)| == |multiset(rows)|;
    forall row | row in o ensures row.Link() in Links(selected) {
      assert row in multiset(o) && row in multiset(selected);
      var i :| 0 <= i < |selected| && selected[i] == row;
      assert Links(selected)[i] == row.Link();
    }
  }

  /** One selection step: normalise and stamp each link with the time of its first row. */
  method Select(session: string, combined: seq<Row>, wantedOnly: bool) returns (selected: seq<Row>)
    ensures selected == SelectRows(session, combined)
  {
    var normalized := NormalizeRetainedGitHubLinks(Links(combined));
    var wanted := if wantedOnly then Some(set l <- normalized :: KeyOf(l)) else None;
    var first := FirstCanonicalRows(combined, wanted);
    forall i | 0 <= i < |normalized| ensures KeyOf(normalized[i]) in first {
      assert normalized[i] in normalized;
      LookupNeverMisses(combined, normalized[i]);
    }
    selected := seq(|normalized|, i requires 0 <= i < |normalized| =>
      Row(session, normalized[i].url, normalized[i].kind, normalized[i].source, first[KeyOf(normalized[i])].createdAt));
    assert selected == SelectRows(session, combined);
  }

  /** The loop has read `all[..offset]`: `selected` is its selection, `original` a copy of it
      when the table is small. */
  ghost predicate ReadTo(session: string, all: seq<Row>, offset: nat, count: nat, selected: seq<Row>, original: seq<Row>)
    requires offset <= |all|
  {
    selected == SelectRows(session, all[..offset]) && (original == if count <= MAX_COMPARED_ROWS then all[..offset] else [])
  }

  method SelectPage(session: string, ghost all: seq<Row>, ghost offset: nat, count: nat, page: seq<Row>,
                    selected: seq<Row>, original: seq<Row>)
    returns (selected': seq<Row>, original': seq<Row>)
    requires RowsBySource(all) && offset + |page| <= |all| && page == all[offset..offset + |page|]
    requires ReadTo(session, all, offset, count, selected, original)
    ensures ReadTo(session, all, offset + |page|, count, selected', original')
  {
    hide Normalized, Canons, Links, Stamp, Normal, Canonical;
    original' := if count <= MAX_COMPARED_ROWS then original + page else original;
    assert all[..offset] + page == all[..offset + |page|];
    NextPage(session, all, offset, offset + |page|);
    selected' := Select(session, selected + page, false);
  }

  /** The loop over pages of the ordered query `all`. */
  method SelectStored(session: string, all: seq<Row>, count: nat) returns (selected: seq<Row>, original: seq<Row>)
    requires RowsBySource(all)
    ensures selected == SelectRows(session, all)
    ensures original == if count <= MAX_COMPARED_ROWS then all else []
  {
    hide Normalized, Canons, Links, Stamp, Normal, Canonical;
    selected, original := [], [];
    var offset := 0;
    SelectNothing(session);
    while true
      invariant offset <= |all| && ReadTo(session, all, offset, count, selected, original)
      decreases |all| - offset
    {
      var page := all[offset..if offset + PAGE_ROWS < |all| then offset + PAGE_ROWS else |all|];
      if page == [] { break; }
      selected, original := SelectPage(session, all, offset, count, page, selected, original);
      offset := offset + |page|;
    }
    assert all[..offset] == all;
  }

  /** The stored links of one session: the rows the query can read, in row order, and the number
      of rows it cannot read. */
  class SessionLinks {
    const session: string
    var rows: seq<Row>
    var unreadable: nat

    ghost predicate Valid()
      reads this
    {
      UniqueRows(rows) && forall i :: 0 <= i < |rows| ==> rows[i].session == session
    }

    constructor (session: string)
      ensures Valid() && this.session == session && rows == [] && unreadable == 0
    {
      this.session, rows, unreadable := session, [], 0;
    }

    /** Whether the stored rows already are the selection. */
    method Unchanged(count: nat, selected: seq<Row>, original: seq<Row>, ghost input: seq<Row>) returns (same: bool)
      requires Valid() && count == |rows| + unreadable
      requires original == if count <= MAX_COMPARED_ROWS then Ordered(rows) else []
      requires selected == SelectRows(session, SelectRows(session, Ordered(rows)) + input)
      ensures same ==> multiset(rows) == multiset(selected) && unreadable == 0 && Settled(session, rows)
      ensures Settled(session, rows) && unreadable == 0 && input == [] ==> same
    {
      hide Normalized, Canons, Links, Stamp, Normal, Canonical;
      OrderedSame(rows);
      same := count == |selected| && |original| == count && forall row <- original :: row.Link() in Links(selected);
      if same {
        forall i | 0 <= i < |rows| ensures rows[i].Link() in Links(selected) {
          assert rows[i] in multiset(rows);
          assert rows[i] in original;
        }
        SameRows(session, rows, input);
      }
      if Settled(session, rows) && input == [] {
        NothingNew(session, rows);
        SettledIsCompared(session, rows);
      }
    }

    method AdmitLinks(input: seq<Row>) returns (r: Admission)
      requires Valid()
      modifies this
      ensures Valid()
      ensures r.Rejected? <==> old(|rows| + unreadable) > MAX_LEGACY_LINK_ROWS || exists i <- input :: i.session != session
      ensures r.Rejected? ==> rows == old(rows) && unreadable == old(unreadable)
      ensures r.Admitted? ==> r.links == SelectRows(session, SelectRows(session, Ordered(old(rows))) + input)
      ensures r.Admitted? ==> multiset(rows) == multiset(r.links) && unreadable == 0 && Settled(session, rows)
      ensures old(Settled(session, rows) && unreadable == 0) && input == [] ==> rows == old(rows)
    {
      hide Normalized, Canons, Links, Stamp, Normal, Canonical;
      var count := |rows| + unreadable;
      if count > MAX_LEGACY_LINK_ROWS { return Rejected; }
      if exists i <- input :: i.session != session { return Rejected; }
      OrderedBySource(rows);
      var stored, original := SelectStored(session, Ordered(rows), count);
      var selected := Select(session, stored + input, true);
      var same := Unchanged(count, selected, original, input);
      SelectSettled(session, stored + input);
      if !same { rows, unreadable := selected, 0; }
      r := Admitted(selected);
    }
  }
}
