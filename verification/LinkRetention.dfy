/** `normalizeRetainedGitHubLinks`: an online selection of at most 128 identities out of any
    number of links, at three source priorities. */
module LinkRetention {
  import opened GitHubLinks
  import opened Strings

  const MAX_GITHUB_LINK_IDENTITIES := 128

  datatype Source = Task | Prompt | Output

  function Priority(s: Source): (p: nat)
    ensures p <= 2
  {
    match s case Task => 0 case Prompt => 1 case Output => 2
  }

  datatype RetainedLink = RetainedLink(url: string, kind: Kind, source: Source)

  /** The link under its canonical URL, unless it is no GitHub link of the kind it claims. */
  function Canon(v: RetainedLink): Option<RetainedLink> {
    match ParseGitHubLink(v.url)
    case None => None
    case Some(p) => if p.kind == v.kind then Some(v.(url := p.url)) else None
  }

  function Canonical(values: seq<RetainedLink>): (r: seq<RetainedLink>)
    ensures |r| <= |values|
  {
    if values == [] then []
    else
      var rest := Canonical(values[..|values| - 1]);
      match Canon(values[|values| - 1]) case None => rest case Some(c) => rest + [c]
  }

  // ---------------------------------------------------------------- selection of identities

  /** An identity in the map. Map order is insertion order, which is the order of `order`. */
  datatype Entry = Entry(url: string, order: nat, priority: nat)

  datatype Kept = Kept(entries: seq<Entry>, next: nat)

  function Find(entries: seq<Entry>, url: string): (i: nat)
    ensures i <= |entries|
    ensures i < |entries| ==> entries[i].url == url
    ensures forall j :: 0 <= j < i ==> entries[j].url != url
  {
    if entries == [] || entries[0].url == url then 0 else 1 + Find(entries[1..], url)
  }

  /** The last of the entries with the worst priority, if that is worse than `p`; else -1. */
  function Victim(entries: seq<Entry>, p: nat): (v: int)
    ensures -1 <= v < |entries|
    ensures v == -1 ==> forall e <- entries :: e.priority <= p
    ensures v >= 0 ==> entries[v].priority > p
    ensures v >= 0 ==> forall j :: 0 <= j < |entries| ==> entries[j].priority <= entries[v].priority
    ensures v >= 0 ==> forall j :: v < j < |entries| ==> entries[j].priority < entries[v].priority
  {
    if entries == [] then -1
    else
      var last := |entries| - 1;
      var v := Victim(entries[..last], p);
      if entries[last].priority > (if v == -1 then p else entries[v].priority - 1) then last else v
  }

  function Upgraded(k: Kept, i: nat, p: nat): Kept
    requires i < |k.entries|
  {
    k.(entries := k.entries[i := k.entries[i].(priority := if p < k.entries[i].priority then p else k.entries[i].priority)])
  }

  function Added(k: Kept, url: string, p: nat): Kept {
    Kept(k.entries + [Entry(url, k.next, p)], k.next + 1)
  }

  function Removed(k: Kept, i: nat): Kept
    requires i < |k.entries|
  {
    k.(entries := k.entries[..i] + k.entries[i + 1..])
  }

  function Take(k: Kept, c: RetainedLink): Kept {
    var p, i := Priority(c.source), Find(k.entries, c.url);
    if i < |k.entries| then Upgraded(k, i, p)
    else if |k.entries| < MAX_GITHUB_LINK_IDENTITIES then Added(k, c.url, p)
    else
      var v := Victim(k.entries, p);
      if v == -1 then k else Added(Removed(k, v), c.url, p)
  }

  function TakeAll(k: Kept, cs: seq<RetainedLink>): Kept {
    if cs == [] then k else Take(TakeAll(k, cs[..|cs| - 1]), cs[|cs| - 1])
  }

  function Selected(cs: seq<RetainedLink>): Kept { TakeAll(Kept([], 0), cs) }

  // ---------------------------------------------------------------- what the selection keeps

  /** The best priority at which a URL occurs; 3 if it does not occur. */
  ghost function Best(cs: seq<RetainedLink>, url: string): (p: nat)
    ensures p <= 3
  {
    if cs == [] then 3
    else
      var rest, c := Best(cs[..|cs| - 1], url), cs[|cs| - 1];
      if c.url == url && Priority(c.source) < rest then Priority(c.source) else rest
  }

  lemma {:induction false} BestExact(cs: seq<RetainedLink>, url: string)
    ensures forall c <- cs :: c.url == url ==> Best(cs, url) <= Priority(c.source)
    ensures Best(cs, url) <= 2 ==> exists c <- cs :: c.url == url && Priority(c.source) == Best(cs, url)
  {
    if cs != [] {
      BestExact(cs[..|cs| - 1], url);
      assert cs == cs[..|cs| - 1] + [cs[|cs| - 1]];
      if Best(cs, url) <= 2 && Best(cs, url) == Best(cs[..|cs| - 1], url) {
        var c :| c in cs[..|cs| - 1] && c.url == url && Priority(c.source) == Best(cs, url);
        assert c in cs;
      }
    }
  }

  ghost predicate Has(entries: seq<Entry>, url: string) {
    exists i :: 0 <= i < |entries| && entries[i].url == url
  }

  ghost predicate DistinctUrls(entries: seq<Entry>) {
    forall i, j :: 0 <= i < j < |entries| ==> entries[i].url != entries[j].url
  }

  /** Identities are distinct, map order is the order of arrival, and the map is bounded. */
  ghost predicate Shaped(k: Kept) {
    |k.entries| <= MAX_GITHUB_LINK_IDENTITIES && DistinctUrls(k.entries) && Increasing(k.entries) &&
    (forall i :: 0 <= i < |k.entries| ==> k.entries[i].order < k.next && k.entries[i].priority <= 2)
  }

  ghost predicate NoneWorse(entries: seq<Entry>, p: nat) {
    forall i :: 0 <= i < |entries| ==> entries[i].priority <= p
  }

  /** A kept URL carries the best priority it has had; a URL that occurred and is not kept was
      no better than any entry of a full map. */
  ghost predicate Optimal(cs: seq<RetainedLink>, k: Kept, url: string) {
    (forall i :: 0 <= i < |k.entries| && k.entries[i].url == url ==> k.entries[i].priority == Best(cs, url)) &&
    (!Has(k.entries, url) && Best(cs, url) <= 2 ==>
       |k.entries| == MAX_GITHUB_LINK_IDENTITIES && NoneWorse(k.entries, Best(cs, url)))
  }

  /** What `Take` does, with the entry it upgrades or the victim it replaces. */
  ghost predicate Taken(k: Kept, c: RetainedLink, k': Kept, i: nat, v: int) {
    var p := Priority(c.source);
    if Has(k.entries, c.url) then i < |k.entries| && k.entries[i].url == c.url && k' == Upgraded(k, i, p)
    else if |k.entries| < MAX_GITHUB_LINK_IDENTITIES then k' == Added(k, c.url, p)
    else if v < 0 then k' == k && NoneWorse(k.entries, p)
    else v < |k.entries| && k.entries[v].priority > p && NoneWorse(k.entries, k.entries[v].priority) &&
         k' == Added(Removed(k, v), c.url, p)
  }

  lemma {:induction false} TakeCases(k: Kept, c: RetainedLink) returns (i: nat, v: int)
    ensures Taken(k, c, Take(k, c), i, v)
  {
    i := Find(k.entries, c.url);
    v := Victim(k.entries, Priority(c.source));
    if i < |k.entries| { assert k.entries[i].url == c.url; }
  }

  lemma {:induction false} HasUpgraded(k: Kept, i: nat, p: nat, url: string)
    requires i < |k.entries|
    ensures Has(Upgraded(k, i, p).entries, url) <==> Has(k.entries, url)
  {
    var b := Upgraded(k, i, p).entries;
    if Has(k.entries, url) {
      var j :| 0 <= j < |k.entries| && k.entries[j].url == url;
      assert b[j].url == url;
    }
  }

  lemma {:induction false} HasAdded(k: Kept, e: string, p: nat, url: string)
    ensures Has(Added(k, e, p).entries, url) <==> Has(k.entries, url) || url == e
  {
    var b := Added(k, e, p).entries;
    if Has(k.entries, url) {
      var j :| 0 <= j < |k.entries| && k.entries[j].url == url;
      assert b[j].url == url;
    }
    assert b[|k.entries|].url == e;
  }

  lemma {:induction false} HasRemoved(k: Kept, v: nat, url: string)
    requires DistinctUrls(k.entries) && v < |k.entries|
    ensures Has(Removed(k, v).entries, url) <==> Has(k.entries, url) && url != k.entries[v].url
  {
    var b := Removed(k, v).entries;
    if Has(k.entries, url) {
      var j :| 0 <= j < |k.entries| && k.entries[j].url == url;
      if j < v { assert b[j].url == url; }
      if j > v { assert b[j - 1].url == url; }
    }
  }

  lemma {:induction false} AddedShaped(k: Kept, url: string, p: nat)
    requires Shaped(k) && !Has(k.entries, url) && |k.entries| < MAX_GITHUB_LINK_IDENTITIES && p <= 2
    ensures Shaped(Added(k, url, p))
  {
  }

  lemma {:induction false} RemovedShaped(k: Kept, v: nat)
    requires Shaped(k) && v < |k.entries|
    ensures Shaped(Removed(k, v))
  {
  }

  lemma {:induction false} TakenShaped(k: Kept, c: RetainedLink, k': Kept, i: nat, v: int)
    requires Shaped(k) && Taken(k, c, k', i, v)
    ensures Shaped(k')
  {
    if !Has(k.entries, c.url) {
      if |k.entries| < MAX_GITHUB_LINK_IDENTITIES {
        AddedShaped(k, c.url, Priority(c.source));
      } else if v >= 0 {
        RemovedShaped(k, v);
        HasRemoved(k, v, c.url);
        AddedShaped(Removed(k, v), c.url, Priority(c.source));
      }
    }
  }

  lemma {:induction false} BestNext(cs: seq<RetainedLink>, c: RetainedLink, url: string)
    ensures Best(cs + [c], url) ==
            if c.url == url && Priority(c.source) < Best(cs, url) then Priority(c.source) else Best(cs, url)
  {
    assert (cs + [c])[..|cs|] == cs;
  }

  lemma {:induction false} TakenOptimal(cs: seq<RetainedLink>, k: Kept, c: RetainedLink, k': Kept, i: nat, v: int, url: string)
    requires Shaped(k) && Taken(k, c, k', i, v) && Optimal(cs, k, url) && Optimal(cs, k, c.url)
    ensures Optimal(cs + [c], k', url)
  {
    var p := Priority(c.source);
    BestNext(cs, c, url);
    if Has(k.entries, c.url) {
      HasUpgraded(k, i, p, url);
    } else if |k.entries| < MAX_GITHUB_LINK_IDENTITIES {
      HasAdded(k, c.url, p, url);
    } else if v >= 0 {
      EvictOptimal(cs, k, v, c, url);
    }
  }

  lemma {:induction false} EvictOptimal(cs: seq<RetainedLink>, k: Kept, v: nat, c: RetainedLink, url: string)
    requires Shaped(k) && Optimal(cs, k, url) && Optimal(cs, k, c.url) && !Has(k.entries, c.url)
    requires |k.entries| == MAX_GITHUB_LINK_IDENTITIES && v < |k.entries|
    requires k.entries[v].priority > Priority(c.source) && NoneWorse(k.entries, k.entries[v].priority)
    ensures Optimal(cs + [c], Added(Removed(k, v), c.url, Priority(c.source)), url)
  {
    var p, r := Priority(c.source), Removed(k, v);
    var k' := Added(r, c.url, p);
    BestNext(cs, c, url);
    HasRemoved(k, v, url);
    HasAdded(r, c.url, p, url);
    forall j | 0 <= j < |k'.entries|
      ensures j < |r.entries| ==> k'.entries[j] == k.entries[if j < v then j else j + 1]
      ensures k'.entries[j].priority <= k.entries[v].priority
    {
    }
  }

  lemma {:induction false} SelectedOptimal(cs: seq<RetainedLink>, url: string)
    ensures Shaped(Selected(cs)) && Optimal(cs, Selected(cs), url)
  {
    if cs != [] {
      var rest, c := cs[..|cs| - 1], cs[|cs| - 1];
      SelectedOptimal(rest, url);
      SelectedOptimal(rest, c.url);
      var i, v := TakeCases(Selected(rest), c);
      TakenShaped(Selected(rest), c, Selected(cs), i, v);
      TakenOptimal(rest, Selected(rest), c, Selected(cs), i, v, url);
      assert rest + [c] == cs;
    }
  }

  /** Whatever is dropped was no better, at its best, than anything kept at its best. */
  lemma {:induction false} NothingBetterDropped(cs: seq<RetainedLink>, dropped: string, kept: string)
    requires Best(cs, dropped) <= 2 && !Has(Selected(cs).entries, dropped) && Has(Selected(cs).entries, kept)
    ensures Best(cs, kept) <= Best(cs, dropped)
  {
    SelectedOptimal(cs, dropped);
    SelectedOptimal(cs, kept);
  }

  ghost function UrlsOf(cs: seq<RetainedLink>): set<string> { set c <- cs :: c.url }

  ghost function EntryUrls(entries: seq<Entry>): (r: set<string>) { set e <- entries :: e.url }

  lemma {:induction false} EntryUrlsExact(entries: seq<Entry>)
    requires DistinctUrls(entries)
    ensures |EntryUrls(entries)| == |entries|
    ensures forall url :: url in EntryUrls(entries) <==> Has(entries, url)
  {
    if entries != [] {
      var rest, e := entries[..|entries| - 1], entries[|entries| - 1];
      assert entries == rest + [e];
      EntryUrlsExact(rest);
      assert EntryUrls(entries) == EntryUrls(rest) + {e.url};
      assert !Has(rest, e.url);
      assert entries[|entries| - 1].url == e.url;
    }
  }

  /** The selection holds exactly as many identities as occur, up to the limit, and only
      identities that occur. */
  lemma {:induction false} KeepsAsManyAsFit(cs: seq<RetainedLink>)
    ensures EntryUrls(Selected(cs).entries) <= UrlsOf(cs)
    ensures |Selected(cs).entries| == if |UrlsOf(cs)| <= MAX_GITHUB_LINK_IDENTITIES then |UrlsOf(cs)| else MAX_GITHUB_LINK_IDENTITIES
    ensures |UrlsOf(cs)| <= MAX_GITHUB_LINK_IDENTITIES ==> EntryUrls(Selected(cs).entries) == UrlsOf(cs)
  {
    var k := Selected(cs);
    SelectedOptimal(cs, "");
    EntryUrlsExact(k.entries);
    forall u | u in EntryUrls(k.entries) ensures u in UrlsOf(cs) {
      SelectedOptimal(cs, u);
      BestExact(cs, u);
    }
    Subset(EntryUrls(k.entries), UrlsOf(cs));
    if u :| u in UrlsOf(cs) && u !in EntryUrls(k.entries) {
      SelectedOptimal(cs, u);
      BestExact(cs, u);
      Subset(EntryUrls(k.entries) + {u}, UrlsOf(cs));
    } else {
      assert EntryUrls(k.entries) == UrlsOf(cs);
    }
  }

  lemma {:induction false} Subset<T>(a: set<T>, b: set<T>)
    requires a <= b
    ensures |a| <= |b| && (|a| == |b| ==> a == b)
  {
    assert b == a + (b - a);
    assert |b| == |a| + |b - a|;
  }

  // ---------------------------------------------------------------- task priority

  /** The URLs with a task link, in the order of their first task link. */
  ghost function FirstTasks(cs: seq<RetainedLink>): seq<string> {
    if cs == [] then []
    else
      var rest, c := FirstTasks(cs[..|cs| - 1]), cs[|cs| - 1];
      if c.source == Task && c.url !in rest then rest + [c.url] else rest
  }

  ghost function Zeros(entries: seq<Entry>): (n: nat)
    ensures n <= |entries|
  {
    if entries == [] then 0
    else Zeros(entries[..|entries| - 1]) + if entries[|entries| - 1].priority == 0 then 1 else 0
  }

  lemma {:induction false} ZerosFull(entries: seq<Entry>)
    ensures Zeros(entries) == |entries| <==> forall i :: 0 <= i < |entries| ==> entries[i].priority == 0
  {
    if entries != [] {
      var rest := entries[..|entries| - 1];
      ZerosFull(rest);
      assert forall i :: 0 <= i < |rest| ==> rest[i] == entries[i];
    }
  }

  lemma {:induction false} ZerosSplit(a: seq<Entry>, b: seq<Entry>)
    ensures Zeros(a + b) == Zeros(a) + Zeros(b)
  {
    if b == [] {
      assert a + b == a;
    } else {
      ZerosSplit(a, b[..|b| - 1]);
      assert (a + b)[..|a + b| - 1] == a + b[..|b| - 1];
    }
  }

  lemma {:induction false} ZerosAt(entries: seq<Entry>, i: nat)
    requires i < |entries|
    ensures Zeros(entries) == Zeros(entries[..i] + entries[i + 1..]) + if entries[i].priority == 0 then 1 else 0
    ensures forall e :: Zeros(entries[i := e]) == Zeros(entries[..i] + entries[i + 1..]) + if e.priority == 0 then 1 else 0
  {
    ZerosSplit(entries[..i], entries[i + 1..]);
    forall e ensures Zeros(entries[i := e]) == Zeros(entries[..i] + entries[i + 1..]) + if e.priority == 0 then 1 else 0 {
      assert entries[i := e] == entries[..i] + ([e] + entries[i + 1..]);
      ZerosSplit(entries[..i], [e] + entries[i + 1..]);
      ZerosSplit([e], entries[i + 1..]);
      assert [e][..0] == [];
    }
    assert entries[i := entries[i]] == entries;
  }

  ghost predicate AtZero(entries: seq<Entry>, url: string) {
    exists i :: 0 <= i < |entries| && entries[i].url == url && entries[i].priority == 0
  }

  ghost predicate AmongFirst(tasks: seq<string>, url: string) {
    exists i :: 0 <= i < |tasks| && i < MAX_GITHUB_LINK_IDENTITIES && tasks[i] == url
  }

  ghost predicate TaskExact(cs: seq<RetainedLink>, k: Kept, url: string) {
    Zeros(k.entries) == (if |FirstTasks(cs)| < MAX_GITHUB_LINK_IDENTITIES then |FirstTasks(cs)| else MAX_GITHUB_LINK_IDENTITIES) &&
    (AtZero(k.entries, url) <==> AmongFirst(FirstTasks(cs), url))
  }

  lemma {:induction false} AmongFirstNext(tasks: seq<string>, added: string, url: string)
    ensures AmongFirst(tasks + [added], url) <==>
            AmongFirst(tasks, url) || (url == added && |tasks| < MAX_GITHUB_LINK_IDENTITIES)
  {
    var more := tasks + [added];
    if AmongFirst(more, url) {
      var i :| 0 <= i < |more| && i < MAX_GITHUB_LINK_IDENTITIES && more[i] == url;
      assert i < |tasks| ==> tasks[i] == url;
    }
    if AmongFirst(tasks, url) {
      var i :| 0 <= i < |tasks| && i < MAX_GITHUB_LINK_IDENTITIES && tasks[i] == url;
      assert more[i] == url;
    }
    assert more[|tasks|] == added;
  }

  ghost predicate BecomesZero(k: Kept, c: RetainedLink) {
    c.source == Task && Zeros(k.entries) < MAX_GITHUB_LINK_IDENTITIES
  }

  lemma {:induction false} ZeroTaken(k: Kept, c: RetainedLink, k': Kept, i: nat, v: int, url: string)
    requires Shaped(k) && Taken(k, c, k', i, v)
    ensures AtZero(k'.entries, url) <==> AtZero(k.entries, url) || (url == c.url && BecomesZero(k, c))
    ensures Zeros(k'.entries) == Zeros(k.entries) + if BecomesZero(k, c) && !AtZero(k.entries, c.url) then 1 else 0
  {
    var p := Priority(c.source);
    ZerosFull(k.entries);
    if Has(k.entries, c.url) {
      ZeroUpgraded(k, i, p, url);
    } else if |k.entries| < MAX_GITHUB_LINK_IDENTITIES {
      ZeroAdded(k, c.url, p, url);
    } else if v >= 0 {
      ZeroRemoved(k, v, url);
      HasRemoved(k, v, c.url);
      ZeroAdded(Removed(k, v), c.url, p, url);
    }
  }

  lemma {:induction false} ZeroUpgraded(k: Kept, i: nat, p: nat, url: string)
    requires Shaped(k) && i < |k.entries|
    ensures AtZero(Upgraded(k, i, p).entries, url) <==> AtZero(k.entries, url) || (url == k.entries[i].url && p == 0)
    ensures AtZero(k.entries, k.entries[i].url) <==> k.entries[i].priority == 0
    ensures Zeros(Upgraded(k, i, p).entries) == Zeros(k.entries) + if p == 0 && k.entries[i].priority != 0 then 1 else 0
  {
    var b := Upgraded(k, i, p).entries;
    ZerosAt(k.entries, i);
    if AtZero(k.entries, url) {
      var j :| 0 <= j < |k.entries| && k.entries[j].url == url && k.entries[j].priority == 0;
      assert b[j].url == url && b[j].priority == 0;
    }
    assert b[i].url == k.entries[i].url;
  }

  lemma {:induction false} ZeroAdded(k: Kept, e: string, p: nat, url: string)
    requires !Has(k.entries, e)
    ensures AtZero(Added(k, e, p).entries, url) <==> AtZero(k.entries, url) || (url == e && p == 0)
    ensures Zeros(Added(k, e, p).entries) == Zeros(k.entries) + if p == 0 then 1 else 0
  {
    var b := Added(k, e, p).entries;
    assert b[..|k.entries|] == k.entries && b[|k.entries|] == Entry(e, k.next, p);
    if AtZero(k.entries, url) {
      var j :| 0 <= j < |k.entries| && k.entries[j].url == url && k.entries[j].priority == 0;
      assert b[j].url == url;
    }
  }

  lemma {:induction false} ZeroRemoved(k: Kept, v: nat, url: string)
    requires v < |k.entries| && k.entries[v].priority > 0
    ensures AtZero(Removed(k, v).entries, url) <==> AtZero(k.entries, url)
    ensures Zeros(Removed(k, v).entries) == Zeros(k.entries)
  {
    ZerosAt(k.entries, v);
    AtZeroRemoved(k, v, url);
  }

  lemma {:induction false} AtZeroRemoved(k: Kept, v: nat, url: string)
    requires v < |k.entries| && k.entries[v].priority > 0
    ensures AtZero(Removed(k, v).entries, url) <==> AtZero(k.entries, url)
  {
    var b := Removed(k, v).entries;
    assert forall j :: 0 <= j < |b| ==> b[j] == k.entries[if j < v then j else j + 1];
    if AtZero(k.entries, url) {
      var j :| 0 <= j < |k.entries| && k.entries[j].url == url && k.entries[j].priority == 0;
      assert b[if j < v then j else j - 1] == k.entries[j];
    }
  }

  lemma {:induction false} TakenTask(cs: seq<RetainedLink>, k: Kept, c: RetainedLink, k': Kept, i: nat, v: int, url: string)
    requires Shaped(k) && Taken(k, c, k', i, v) && TaskExact(cs, k, url) && TaskExact(cs, k, c.url)
    ensures TaskExact(cs + [c], k', url)
  {
    assert (cs + [c])[..|cs|] == cs;
    ZeroTaken(k, c, k', i, v, url);
    AmongFirstNext(FirstTasks(cs), c.url, url);
    if c.url in FirstTasks(cs) && |FirstTasks(cs)| < MAX_GITHUB_LINK_IDENTITIES {
      assert AmongFirst(FirstTasks(cs), c.url);
    }
  }

  lemma {:induction false} SelectedTasks(cs: seq<RetainedLink>, url: string)
    ensures Shaped(Selected(cs)) && TaskExact(cs, Selected(cs), url)
  {
    SelectedOptimal(cs, url);
    if cs != [] {
      var rest, c := cs[..|cs| - 1], cs[|cs| - 1];
      assert cs == rest + [c];
      SelectedTasks(rest, url);
      SelectedTasks(rest, c.url);
      var k := Selected(rest);
      var i, v := TakeCases(k, c);
      TakeAllNext(Kept([], 0), rest, c);
      TakenTask(rest, k, c, Take(k, c), i, v, url);
    }
  }

  /** The identities kept at task priority are exactly the first 128 by first task link. */
  lemma {:induction false} TasksKept(cs: seq<RetainedLink>, url: string)
    ensures Has(Selected(cs).entries, url) && Best(cs, url) == 0 <==> AmongFirst(FirstTasks(cs), url)
  {
    SelectedTasks(cs, url);
    SelectedOptimal(cs, url);
  }

  // ---------------------------------------------------------------- the result

  function Distinct(s: seq<RetainedLink>): (r: seq<RetainedLink>)
    ensures forall x :: x in r <==> x in s
    ensures forall i, j :: 0 <= i < j < |r| ==> r[i] != r[j]
  {
    if s == [] then []
    else
      var rest, last := Distinct(s[..|s| - 1]), s[|s| - 1];
      assert s == s[..|s| - 1] + [last];
      if last in rest then rest else rest + [last]
  }

  function Of(cs: seq<RetainedLink>, url: string): (r: seq<RetainedLink>)
    ensures forall c <- r :: c.url == url && c in cs
  {
    if cs == [] then []
    else
      var rest, c := Of(cs[..|cs| - 1], url), cs[|cs| - 1];
      if c.url == url then rest + [c] else rest
  }

  /** The links of one identity: its first link of each source, in order. */
  function LinksOf(cs: seq<RetainedLink>, url: string): seq<RetainedLink> { Distinct(Of(cs, url)) }

  function OfPriority(entries: seq<Entry>, p: nat): seq<Entry> {
    if entries == [] then []
    else
      var rest, e := OfPriority(entries[..|entries| - 1], p), entries[|entries| - 1];
      if e.priority == p then rest + [e] else rest
  }

  /** The entries sorted by priority and, within it, by order. */
  function Ranked(entries: seq<Entry>): seq<Entry> {
    OfPriority(entries, 0) + OfPriority(entries, 1) + OfPriority(entries, 2)
  }

  function Rendered(cs: seq<RetainedLink>, entries: seq<Entry>): seq<RetainedLink> {
    if entries == [] then []
    else Rendered(cs, entries[..|entries| - 1]) + LinksOf(cs, entries[|entries| - 1].url)
  }

  function Normal(cs: seq<RetainedLink>): seq<RetainedLink> { Rendered(cs, Ranked(Selected(cs).entries)) }

  function Normalized(values: seq<RetainedLink>): seq<RetainedLink> { Normal(Canonical(values)) }

  // ---------------------------------------------------------------- facts about the parts

  lemma {:induction false} DistinctAbsorbs(s: seq<RetainedLink>, t: seq<RetainedLink>)
    ensures Distinct(Distinct(s) + t) == Distinct(s + t)
  {
    if t != [] {
      var t' := t[..|t| - 1];
      DistinctAbsorbs(s, t');
      assert (s + t)[..|s + t| - 1] == s + t';
      assert (Distinct(s) + t)[..|Distinct(s) + t| - 1] == Distinct(s) + t';
    } else {
      assert s + t == s && Distinct(s) + t == Distinct(s);
      DistinctFixed(Distinct(s));
    }
  }

  lemma {:induction false} DistinctFixed(s: seq<RetainedLink>)
    requires forall i, j :: 0 <= i < j < |s| ==> s[i] != s[j]
    ensures Distinct(s) == s
  {
    if s != [] {
      DistinctFixed(s[..|s| - 1]);
      assert s == s[..|s| - 1] + [s[|s| - 1]];
    }
  }

  /** Putting `s` before `t` adds nothing new if and only if `t` begins with the links of `s`. */
  lemma {:induction false} DistinctRepeats(s: seq<RetainedLink>, t: seq<RetainedLink>)
    ensures Distinct(s + t) == Distinct(t) <==> Distinct(s) <= Distinct(t)
  {
    DistinctBegins(s, t);
    DistinctMeets(s, t);
  }

  lemma {:induction false} DistinctBegins(s: seq<RetainedLink>, t: seq<RetainedLink>)
    ensures Distinct(s) <= Distinct(s + t)
  {
    if t == [] {
      assert s + t == s;
    } else {
      DistinctBegins(s, t[..|t| - 1]);
      assert (s + t)[..|s + t| - 1] == s + t[..|t| - 1];
    }
  }

  lemma {:induction false} DistinctMeets(s: seq<RetainedLink>, t: seq<RetainedLink>)
    ensures Distinct(s) <= Distinct(t) ==> Distinct(s + t) == Distinct(t)
    ensures Distinct(t) <= Distinct(s) ==> Distinct(s + t) == Distinct(s)
  {
    if t == [] {
      assert s + t == s;
    } else {
      var rest, last := t[..|t| - 1], t[|t| - 1];
      DistinctMeets(s, rest);
      assert (s + t)[..|s + t| - 1] == s + rest && (s + t)[|s + t| - 1] == last;
      if Distinct(s) <= Distinct(t) {
        if |Distinct(s)| <= |Distinct(rest)| { assert Distinct(s) <= Distinct(rest); } else { assert Distinct(s) == Distinct(t); }
      }
      if Distinct(t) <= Distinct(s) { assert last in Distinct(t) && last in Distinct(s); }
    }
  }

  lemma {:induction false} OfNext(cs: seq<RetainedLink>, c: RetainedLink, url: string)
    ensures Of(cs + [c], url) == Of(cs, url) + if c.url == url then [c] else []
  {
    assert (cs + [c])[..|cs|] == cs;
  }

  lemma {:induction false} OfAppend(a: seq<RetainedLink>, b: seq<RetainedLink>, url: string)
    ensures Of(a + b, url) == Of(a, url) + Of(b, url)
  {
    if b == [] {
      assert a + b == a;
    } else {
      var b', c := b[..|b| - 1], b[|b| - 1];
      OfAppend(a, b', url);
      assert a + b == (a + b') + [c];
      OfNext(a + b', c, url);
    }
  }

  lemma {:induction false} OfAll(cs: seq<RetainedLink>, url: string)
    requires forall i :: 0 <= i < |cs| ==> cs[i].url == url
    ensures Of(cs, url) == cs
  {
    if cs != [] {
      OfAll(cs[..|cs| - 1], url);
      assert cs == cs[..|cs| - 1] + [cs[|cs| - 1]];
    }
  }

  lemma {:induction false} OfNone(cs: seq<RetainedLink>, url: string)
    ensures Of(cs, url) == [] <==> Best(cs, url) == 3
  {
    if cs != [] { OfNone(cs[..|cs| - 1], url); }
  }

  lemma {:induction false} OfOther(cs: seq<RetainedLink>, url: string)
    requires forall i :: 0 <= i < |cs| ==> cs[i].url != url
    ensures Of(cs, url) == []
  {
    if cs != [] { OfOther(cs[..|cs| - 1], url); }
  }

  lemma {:induction false} OfLinks(cs: seq<RetainedLink>, url: string, other: string)
    ensures Of(LinksOf(cs, url), other) == if url == other then LinksOf(cs, url) else []
  {
    var ls := LinksOf(cs, url);
    forall i | 0 <= i < |ls| ensures ls[i].url == url { assert ls[i] in ls && ls[i] in Of(cs, url); }
    if url == other { OfAll(ls, url); } else { OfOther(ls, other); }
  }

  /** Rendering distinct identities leaves each with exactly its own links. */
  lemma {:induction false} OfRendered(cs: seq<RetainedLink>, entries: seq<Entry>, url: string)
    requires DistinctUrls(entries)
    ensures Of(Rendered(cs, entries), url) == if Has(entries, url) then LinksOf(cs, url) else []
  {
    if entries != [] {
      var rest, e := entries[..|entries| - 1], entries[|entries| - 1];
      hide Of, Rendered, LinksOf, Has, DistinctUrls;
      assert entries == rest + [e];
      DistinctNext(rest, e);
      OfRendered(cs, rest, url);
      HasNext(rest, e, url);
      OfRenderedNext(cs, rest, e, url);
    }
  }

  lemma {:induction false} DistinctNext(rest: seq<Entry>, e: Entry)
    requires DistinctUrls(rest + [e])
    ensures DistinctUrls(rest) && !Has(rest, e.url)
  {
    var es := rest + [e];
    assert es[|rest|] == e && forall i :: 0 <= i < |rest| ==> es[i] == rest[i];
  }

  lemma {:induction false} OfRenderedNext(cs: seq<RetainedLink>, rest: seq<Entry>, e: Entry, url: string)
    ensures Of(Rendered(cs, rest + [e]), url) == Of(Rendered(cs, rest), url) + if e.url == url then LinksOf(cs, url) else []
  {
    RenderedNext(cs, rest, e);
    OfAppend(Rendered(cs, rest), LinksOf(cs, e.url), url);
    OfLinks(cs, e.url, url);
  }

  lemma {:induction false} RenderedNext(cs: seq<RetainedLink>, rest: seq<Entry>, e: Entry)
    ensures Rendered(cs, rest + [e]) == Rendered(cs, rest) + LinksOf(cs, e.url)
  {
    assert (rest + [e])[..|rest|] == rest;
  }

  lemma {:induction false} HasNext(rest: seq<Entry>, e: Entry, url: string)
    ensures Has(rest + [e], url) <==> Has(rest, url) || e.url == url
  {
    var es := rest + [e];
    assert es[|rest|] == e && forall i :: 0 <= i < |rest| ==> es[i] == rest[i];
  }

  lemma {:induction false} TakeAllNext(k: Kept, cs: seq<RetainedLink>, c: RetainedLink)
    ensures TakeAll(k, cs + [c]) == Take(TakeAll(k, cs), c)
  {
    assert (cs + [c])[..|cs|] == cs;
  }

  lemma {:induction false} TakeAllAppend(k: Kept, a: seq<RetainedLink>, b: seq<RetainedLink>)
    ensures TakeAll(k, a + b) == TakeAll(TakeAll(k, a), b)
  {
    if b == [] {
      assert a + b == a;
    } else {
      var b', c := b[..|b| - 1], b[|b| - 1];
      TakeAllAppend(k, a, b');
      assert a + b == (a + b') + [c];
      TakeAllNext(k, a + b', c);
    }
  }

  /** The links of one new identity, taken in a row, add it at their best priority. */
  lemma {:induction false} TakeGroup(k: Kept, ls: seq<RetainedLink>, url: string)
    requires ls != [] && (forall i :: 0 <= i < |ls| ==> ls[i].url == url)
    requires !Has(k.entries, url) && |k.entries| < MAX_GITHUB_LINK_IDENTITIES
    ensures TakeAll(k, ls) == Added(k, url, Best(ls, url))
  {
    var rest, c := ls[..|ls| - 1], ls[|ls| - 1];
    assert ls == rest + [c];
    TakeAllNext(k, rest, c);
    BestNext(rest, c, url);
    if rest == [] {
      var _, _ := TakeCases(k, c);
    } else {
      TakeGroup(k, rest, url);
      var p := Best(rest, url);
      var i, v := TakeCases(Added(k, url, p), c);
      HasAdded(k, url, p, url);
      assert i == |k.entries|;
    }
  }

  lemma {:induction false} BestOfLinks(cs: seq<RetainedLink>, url: string)
    ensures Best(LinksOf(cs, url), url) == Best(cs, url)
  {
    BestExact(cs, url);
    BestExact(LinksOf(cs, url), url);
    if Best(cs, url) <= 2 {
      var c :| c in cs && c.url == url && Priority(c.source) == Best(cs, url);
      InOf(cs, c);
    }
  }

  lemma {:induction false} InOf(cs: seq<RetainedLink>, c: RetainedLink)
    requires c in cs
    ensures c in Of(cs, c.url)
  {
    var rest, last := cs[..|cs| - 1], cs[|cs| - 1];
    assert cs == rest + [last];
    if c in rest { InOf(rest, c); }
  }

  function Renumbered(entries: seq<Entry>): seq<Entry> {
    seq(|entries|, i requires 0 <= i < |entries| => entries[i].(order := i))
  }

  /** Selecting again from a rendered selection finds the same identities, in rendered order. */
  lemma {:induction false} SelectRendered(cs: seq<RetainedLink>, entries: seq<Entry>)
    requires DistinctUrls(entries) && |entries| <= MAX_GITHUB_LINK_IDENTITIES
    requires forall i :: 0 <= i < |entries| ==> entries[i].priority == Best(cs, entries[i].url) <= 2
    ensures Selected(Rendered(cs, entries)) == Kept(Renumbered(entries), |entries|)
  {
    if entries != [] {
      var n := |entries| - 1;
      var rest, e := entries[..n], entries[n];
      hide Rendered, Selected, LinksOf, Renumbered, Best, DistinctUrls, Has;
      assert entries == rest + [e];
      DistinctNext(rest, e);
      SelectRendered(cs, rest);
      RenumberedNext(rest, e);
      RenderedNext(cs, rest, e);
      SelectMore(cs, Rendered(cs, rest), Kept(Renumbered(rest), n), e.url);
    }
  }

  lemma {:induction false} RenumberedNext(entries: seq<Entry>, e: Entry)
    ensures Renumbered(entries + [e]) == Renumbered(entries) + [Entry(e.url, |entries|, e.priority)]
    ensures Has(Renumbered(entries), e.url) ==> Has(entries, e.url)
    ensures |Renumbered(entries)| == |entries|
  {
    if Has(Renumbered(entries), e.url) {
      var i :| 0 <= i < |entries| && Renumbered(entries)[i].url == e.url;
      assert entries[i].url == e.url;
    }
  }

  lemma {:induction false} SelectMore(cs: seq<RetainedLink>, r: seq<RetainedLink>, k: Kept, url: string)
    requires Selected(r) == k && !Has(k.entries, url) && |k.entries| < MAX_GITHUB_LINK_IDENTITIES && Best(cs, url) <= 2
    ensures Selected(r + LinksOf(cs, url)) == Added(k, url, Best(cs, url))
  {
    TakeAllAppend(Kept([], 0), r, LinksOf(cs, url));
    TakeLinksOf(k, cs, url);
  }

  lemma {:induction false} TakeLinksOf(k: Kept, cs: seq<RetainedLink>, url: string)
    requires Best(cs, url) <= 2 && !Has(k.entries, url) && |k.entries| < MAX_GITHUB_LINK_IDENTITIES
    ensures TakeAll(k, LinksOf(cs, url)) == Added(k, url, Best(cs, url))
  {
    OfNone(cs, url);
    assert Of(cs, url)[0] in LinksOf(cs, url);
    BestOfLinks(cs, url);
    TakeGroup(k, LinksOf(cs, url), url);
  }

  // ---------------------------------------------------------------- ranking

  ghost predicate Before(a: Entry, b: Entry) {
    a.priority < b.priority || (a.priority == b.priority && a.order < b.order)
  }

  ghost predicate RankedOrder(entries: seq<Entry>) {
    forall i, j :: 0 <= i < j < |entries| ==> Before(entries[i], entries[j])
  }

  ghost predicate Increasing(entries: seq<Entry>) {
    forall i, j :: 0 <= i < j < |entries| ==> entries[i].order < entries[j].order
  }

  ghost predicate AllOf(r: seq<Entry>, entries: seq<Entry>, p: nat) {
    forall i :: 0 <= i < |r| ==> r[i].priority == p && r[i] in entries
  }

  lemma {:induction false} OfPriorityOrdered(entries: seq<Entry>, p: nat)
    requires Increasing(entries)
    ensures Increasing(OfPriority(entries, p)) && AllOf(OfPriority(entries, p), entries, p)
  {
    if entries != [] {
      var rest, e := entries[..|entries| - 1], entries[|entries| - 1];
      OfPriorityOrdered(rest, p);
      assert entries == rest + [e];
    }
  }

  lemma {:induction false} RankedSame(entries: seq<Entry>)
    requires NoneWorse(entries, 2)
    ensures multiset(Ranked(entries)) == multiset(entries)
  {
    if entries != [] {
      var rest, e := entries[..|entries| - 1], entries[|entries| - 1];
      RankedSame(rest);
      assert entries == rest + [e];
      OfPriorityNext(rest, e, 0);
      OfPriorityNext(rest, e, 1);
      OfPriorityNext(rest, e, 2);
    }
  }

  /** Ranking is the stable sort by priority and order of arrival. */
  lemma {:induction false} RankedSorts(k: Kept)
    requires Shaped(k)
    ensures RankedOrder(Ranked(k.entries)) && multiset(Ranked(k.entries)) == multiset(k.entries)
    ensures DistinctUrls(Ranked(k.entries)) && |Ranked(k.entries)| == |k.entries|
  {
    RankedInOrder(k.entries);
    RankedSame(k.entries);
    assert |multiset(Ranked(k.entries))| == |multiset(k.entries)|;
    DistinctPermuted(k.entries, Ranked(k.entries));
  }

  lemma {:induction false} RankedInOrder(entries: seq<Entry>)
    requires Increasing(entries)
    ensures RankedOrder(Ranked(entries))
  {
    OfPriorityOrdered(entries, 0);
    OfPriorityOrdered(entries, 1);
    OfPriorityOrdered(entries, 2);
  }

  lemma {:induction false} DistinctPermuted(es: seq<Entry>, r: seq<Entry>)
    requires DistinctUrls(es) && RankedOrder(r) && multiset(r) == multiset(es)
    ensures DistinctUrls(r)
  {
    forall i, j | 0 <= i < j < |r| ensures r[i].url != r[j].url {
      assert r[i] in multiset(es) && r[j] in multiset(es) && Before(r[i], r[j]);
      var a :| 0 <= a < |es| && es[a] == r[i];
      var b :| 0 <= b < |es| && es[b] == r[j];
    }
  }

  lemma {:induction false} OfPriorityNone(entries: seq<Entry>, p: nat, q: nat)
    requires NoneWorse(entries, p) && p < q
    ensures OfPriority(entries, q) == []
  {
    if entries != [] { OfPriorityNone(entries[..|entries| - 1], p, q); }
  }

  lemma {:induction false} OfPriorityNext(rest: seq<Entry>, e: Entry, p: nat)
    ensures OfPriority(rest + [e], p) == OfPriority(rest, p) + if e.priority == p then [e] else []
  {
    assert (rest + [e])[..|rest|] == rest;
  }

  lemma {:induction false} AppendToRank(a: seq<Entry>, b: seq<Entry>, c: seq<Entry>, e: Entry)
    requires e.priority <= 2 && (e.priority < 1 ==> b == []) && (e.priority < 2 ==> c == [])
    ensures (a + if e.priority == 0 then [e] else []) + (b + if e.priority == 1 then [e] else [])
            + (c + if e.priority == 2 then [e] else []) == (a + b + c) + [e]
  {
  }

  lemma {:induction false} RankedNext(rest: seq<Entry>, e: Entry)
    requires NoneWorse(rest, e.priority) && e.priority <= 2
    ensures Ranked(rest + [e]) == Ranked(rest) + [e]
  {
    OfPriorityNext(rest, e, 0);
    OfPriorityNext(rest, e, 1);
    OfPriorityNext(rest, e, 2);
    if e.priority < 1 { OfPriorityNone(rest, e.priority, 1); }
    if e.priority < 2 { OfPriorityNone(rest, e.priority, 2); }
    AppendToRank(OfPriority(rest, 0), OfPriority(rest, 1), OfPriority(rest, 2), e);
  }

  /** No entry is followed by one of better priority. */
  ghost predicate Ascending(entries: seq<Entry>) {
    entries == [] ||
    (NoneWorse(entries[..|entries| - 1], entries[|entries| - 1].priority) && Ascending(entries[..|entries| - 1]))
  }

  lemma {:induction false} AscendingIf(entries: seq<Entry>)
    requires forall i, j :: 0 <= i < j < |entries| ==> entries[i].priority <= entries[j].priority
    ensures Ascending(entries)
  {
    if entries != [] { AscendingIf(entries[..|entries| - 1]); }
  }

  lemma {:induction false} RankedFixed(entries: seq<Entry>)
    requires Ascending(entries) && NoneWorse(entries, 2)
    ensures Ranked(entries) == entries
  {
    if entries != [] {
      var rest, e := entries[..|entries| - 1], entries[|entries| - 1];
      RankedFixed(rest);
      RankedNext(rest, e);
      assert entries == rest + [e];
    }
  }

  lemma {:induction false} RenderedCongruent(cs: seq<RetainedLink>, ds: seq<RetainedLink>, es: seq<Entry>, fs: seq<Entry>)
    requires |es| == |fs| && forall i :: 0 <= i < |es| ==> es[i].url == fs[i].url && LinksOf(cs, es[i].url) == LinksOf(ds, es[i].url)
    ensures Rendered(cs, es) == Rendered(ds, fs)
  {
    if es != [] { RenderedCongruent(cs, ds, es[..|es| - 1], fs[..|fs| - 1]); }
  }

  lemma {:induction false} LinksOfRendered(cs: seq<RetainedLink>, entries: seq<Entry>, i: nat)
    requires DistinctUrls(entries) && i < |entries|
    ensures Of(Rendered(cs, entries), entries[i].url) == LinksOf(cs, entries[i].url)
    ensures LinksOf(Rendered(cs, entries), entries[i].url) == LinksOf(cs, entries[i].url)
  {
    OfRendered(cs, entries, entries[i].url);
    DistinctFixed(LinksOf(cs, entries[i].url));
  }

  /** The ranked selection of `cs`, as it is rendered. */
  lemma {:induction false} NormalEntries(cs: seq<RetainedLink>)
    ensures var r := Ranked(Selected(cs).entries);
            DistinctUrls(r) && RankedOrder(r) && |r| == |Selected(cs).entries| &&
            NoneWorse(r, 2) &&
            Selected(Normal(cs)) == Kept(Renumbered(r), |r|)
  {
    var k := Selected(cs);
    SelectedOptimal(cs, "");
    RankedSorts(k);
    var r := Ranked(k.entries);
    forall i | 0 <= i < |r| ensures r[i].priority == Best(cs, r[i].url) <= 2 {
      assert r[i] in multiset(k.entries);
      var a :| 0 <= a < |k.entries| && k.entries[a] == r[i];
      SelectedOptimal(cs, r[i].url);
    }
    SelectRendered(cs, r);
  }

  /** Normalising canonical links twice is normalising them once. */
  lemma {:induction false} NormalIdempotent(cs: seq<RetainedLink>)
    ensures Normal(Normal(cs)) == Normal(cs)
  {
    NormalEntries(cs);
    var r := Ranked(Selected(cs).entries);
    AscendingIf(Renumbered(r)) by {
      assert forall i, j :: 0 <= i < j < |r| ==> Before(r[i], r[j]);
    }
    RankedFixed(Renumbered(r));
    forall i | 0 <= i < |r| ensures Renumbered(r)[i].url == r[i].url && LinksOf(Normal(cs), r[i].url) == LinksOf(cs, r[i].url) {
      LinksOfRendered(cs, r, i);
    }
    RenderedCongruent(Normal(cs), cs, Renumbered(r), r);
  }

  lemma {:induction false} CanonIdempotent(v: RetainedLink)
    requires Canon(v).Some?
    ensures Canon(Canon(v).value) == Canon(v)
  {
    ParseIdempotent(v.url);
  }

  ghost predicate AllCanonical(cs: seq<RetainedLink>) {
    forall i :: 0 <= i < |cs| ==> Canon(cs[i]) == Some(cs[i])
  }

  lemma {:induction false} CanonicalAll(values: seq<RetainedLink>)
    ensures AllCanonical(Canonical(values))
  {
    if values != [] {
      CanonicalAll(values[..|values| - 1]);
      if Canon(values[|values| - 1]).Some? { CanonIdempotent(values[|values| - 1]); }
    }
  }

  lemma {:induction false} CanonicalNext(rest: seq<RetainedLink>, v: RetainedLink)
    ensures Canonical(rest + [v]) == Canonical(rest) + if Canon(v).Some? then [Canon(v).value] else []
  {
    assert (rest + [v])[..|rest|] == rest;
  }

  lemma {:induction false} CanonicalFixed(cs: seq<RetainedLink>)
    requires AllCanonical(cs)
    ensures Canonical(cs) == cs
  {
    if cs != [] {
      var rest, c := cs[..|cs| - 1], cs[|cs| - 1];
      assert cs == rest + [c];
      CanonicalFixed(rest);
      CanonicalNext(rest, c);
    }
  }

  lemma {:induction false} RenderedFrom(cs: seq<RetainedLink>, entries: seq<Entry>)
    requires AllCanonical(cs)
    ensures AllCanonical(Rendered(cs, entries))
  {
    if entries != [] {
      var rest, e := entries[..|entries| - 1], entries[|entries| - 1];
      RenderedFrom(cs, rest);
      var ls := LinksOf(cs, e.url);
      forall i | 0 <= i < |ls| ensures Canon(ls[i]) == Some(ls[i]) {
        assert ls[i] in ls;
        assert ls[i] in cs;
      }
    }
  }

  lemma {:induction false} NormalCanonical(values: seq<RetainedLink>)
    ensures Canonical(Normalized(values)) == Normalized(values)
  {
    var cs := Canonical(values);
    CanonicalAll(values);
    RenderedFrom(cs, Ranked(Selected(cs).entries));
    CanonicalFixed(Normal(cs));
  }

  /** Normalising twice equals normalising once, for every input list. */
  lemma {:induction false} NormalizedIdempotent(values: seq<RetainedLink>)
    ensures Normalized(Normalized(values)) == Normalized(values)
  {
    NormalCanonical(values);
    NormalIdempotent(Canonical(values));
  }

  // ---------------------------------------------------------------- absorbing a prefix

  ghost predicate BySource(cs: seq<RetainedLink>) {
    forall i, j :: 0 <= i < j < |cs| ==> Priority(cs[i].source) <= Priority(cs[j].source)
  }

  /** On links ordered by source nothing is ever upgraded or evicted. */
  ghost predicate InOrder(k: Kept, p: nat) {
    k.next == |k.entries| && NoneWorse(k.entries, p) &&
    (forall i :: 0 <= i < |k.entries| ==> k.entries[i].order == i) &&
    (forall i, j :: 0 <= i < j < |k.entries| ==> k.entries[i].priority <= k.entries[j].priority)
  }

  lemma {:induction false} TakeInOrder(k: Kept, c: RetainedLink)
    requires Shaped(k) && InOrder(k, Priority(c.source))
    ensures InOrder(Take(k, c), Priority(c.source))
    ensures |k.entries| == MAX_GITHUB_LINK_IDENTITIES ==> Take(k, c) == k
  {
    var i, v := TakeCases(k, c);
    if Has(k.entries, c.url) {
      assert k.entries[i := k.entries[i]] == k.entries;
    }
  }

  lemma {:induction false} SelectedInOrder(cs: seq<RetainedLink>, p: nat)
    requires BySource(cs) && p <= 2 && forall i :: 0 <= i < |cs| ==> Priority(cs[i].source) <= p
    ensures Shaped(Selected(cs)) && InOrder(Selected(cs), p)
  {
    SelectedOptimal(cs, "");
    if cs != [] {
      var rest, c := cs[..|cs| - 1], cs[|cs| - 1];
      assert forall i :: 0 <= i < |rest| ==> rest[i] == cs[i];
      SelectedInOrder(rest, Priority(c.source));
      TakeInOrder(Selected(rest), c);
    }
  }

  lemma {:induction false} FullStays(cs: seq<RetainedLink>, ds: seq<RetainedLink>)
    requires BySource(cs + ds) && |Selected(cs).entries| == MAX_GITHUB_LINK_IDENTITIES
    ensures Selected(cs + ds) == Selected(cs)
  {
    if ds == [] {
      assert cs + ds == cs;
    } else {
      var rest, c := ds[..|ds| - 1], ds[|ds| - 1];
      assert (cs + ds)[..|cs + ds| - 1] == cs + rest && (cs + ds)[|cs + ds| - 1] == c;
      assert forall i :: 0 <= i < |cs + rest| ==> (cs + rest)[i] == (cs + ds)[i];
      FullStays(cs, rest);
      SelectedInOrder(cs + rest, Priority(c.source));
      TakeInOrder(Selected(cs + rest), c);
    }
  }

  /** The selection from links ordered by source survives being rendered and selected again. */
  lemma {:induction false} SelectionAbsorbed(cs: seq<RetainedLink>, ds: seq<RetainedLink>)
    requires BySource(cs)
    ensures Selected(Normal(cs) + ds) == Selected(cs + ds)
    ensures Ranked(Selected(cs).entries) == Selected(cs).entries
  {
    var k := Selected(cs);
    SelectedInOrder(cs, 2);
    AscendingIf(k.entries);
    RankedFixed(k.entries);
    NormalEntries(cs);
    assert Renumbered(k.entries) == k.entries;
    TakeAllAppend(Kept([], 0), Normal(cs), ds);
    TakeAllAppend(Kept([], 0), cs, ds);
  }

  /** What identity `url` loses when the links before it are replaced by their selection: nothing
      if it was selected or had not occurred, all its earlier links otherwise. */
  lemma {:induction false} LinksAbsorbed(cs: seq<RetainedLink>, ds: seq<RetainedLink>, url: string)
    requires BySource(cs)
    ensures LinksOf(Normal(cs) + ds, url) ==
            if Has(Selected(cs).entries, url) || Best(cs, url) == 3 then LinksOf(cs + ds, url) else LinksOf(ds, url)
  {
    SelectionAbsorbed(cs, ds);
    NormalEntries(cs);
    var es := Selected(cs).entries;
    OfAppend(Normal(cs), ds, url);
    OfAppend(cs, ds, url);
    OfRendered(cs, es, url);
    OfNone(cs, url);
    if Has(es, url) {
      DistinctAbsorbs(Of(cs, url), Of(ds, url));
    } else {
      assert [] + Of(ds, url) == Of(ds, url);
    }
  }

  /** Replacing links ordered by source with their normal form changes nothing that follows if
      and only if every identity kept in the end, that had occurred and been dropped, is given all
      its earlier links again, in the same order and before any other. */
  lemma {:induction false} AbsorbExact(cs: seq<RetainedLink>, ds: seq<RetainedLink>)
    requires BySource(cs)
    ensures Normal(Normal(cs) + ds) == Normal(cs + ds) <==> ReadmittedWhole(cs, ds)
  {
    SelectionAbsorbed(cs, ds);
    NormalEntries(cs + ds);
    var r := Ranked(Selected(cs + ds).entries);
    forall i | 0 <= i < |r|
      ensures LinksOf(Normal(cs) + ds, r[i].url) == LinksOf(cs + ds, r[i].url) <==>
              Has(Selected(cs).entries, r[i].url) || Best(cs, r[i].url) == 3 || LinksOf(cs, r[i].url) <= LinksOf(ds, r[i].url)
    {
      LinksAbsorbed(cs, ds, r[i].url);
      OfAppend(cs, ds, r[i].url);
      DistinctRepeats(Of(cs, r[i].url), Of(ds, r[i].url));
    }
    if ReadmittedWhole(cs, ds) {
      RenderedCongruent(Normal(cs) + ds, cs + ds, r, r);
    }
    if Normal(Normal(cs) + ds) == Normal(cs + ds) {
      forall i | 0 <= i < |r| ensures LinksOf(Normal(cs) + ds, r[i].url) == LinksOf(cs + ds, r[i].url) {
        LinksOfRendered(Normal(cs) + ds, r, i);
        LinksOfRendered(cs + ds, r, i);
      }
    }
  }

  ghost predicate ReadmittedWhole(cs: seq<RetainedLink>, ds: seq<RetainedLink>) {
    var r := Ranked(Selected(cs + ds).entries);
    forall i :: 0 <= i < |r| ==>
      Has(Selected(cs).entries, r[i].url) || Best(cs, r[i].url) == 3 || LinksOf(cs, r[i].url) <= LinksOf(ds, r[i].url)
  }

  // ---------------------------------------------------------------- a link lost on the way

  /** The repositories `o/x`, `o/xx`, and so on. */
  function Repo(n: nat, source: Source): RetainedLink {
    RetainedLink(PREFIX + Join(["o", seq(n + 1, _ => 'x')], "/"), Repository, source)
  }

  lemma {:induction false} RepoCanonical(n: nat, source: Source)
    requires n <= MAX_GITHUB_LINK_IDENTITIES
    ensures Canon(Repo(n, source)) == Some(Repo(n, source)) && |Repo(n, source).url| == |PREFIX| + 3 + n
    ensures Repo(n, source).source == source && Repo(n, source).url == Repo(n, Task).url
  {
    var name := seq(n + 1, _ => 'x');
    var words := ["o", name];
    assert Join([name], "/") == name;
    assert Join(words, "/") == "o" + "/" + name;
    assert name[0] == 'x';
    assert Lower("o") == "o" && Lower(name) == name;
    assert IsOwner("o") && IsRepository(name);
    ParseCanonical(words);
  }

  /** 128 repositories, all named in prompts. */
  function Full(): seq<RetainedLink> {
    seq(MAX_GITHUB_LINK_IDENTITIES, i requires 0 <= i < MAX_GITHUB_LINK_IDENTITIES => Repo(i, Prompt))
  }

  lemma {:induction false} FullSelected()
    ensures |Selected(Full()).entries| == |UrlsOf(Full())| == MAX_GITHUB_LINK_IDENTITIES && BySource(Full()) && AllCanonical(Full())
    ensures forall i :: 0 <= i < |Full()| ==> Full()[i].source == Prompt && Full()[i].url != Repo(MAX_GITHUB_LINK_IDENTITIES, Task).url
  {
    var ps := Full();
    hide Repo, Canon;
    forall i | 0 <= i < |ps| ensures Canon(ps[i]) == Some(ps[i]) && |ps[i].url| == |PREFIX| + 3 + i && ps[i].source == Prompt { RepoCanonical(i, Prompt); }
    RepoCanonical(MAX_GITHUB_LINK_IDENTITIES, Task);
    var es := seq(|ps|, i requires 0 <= i < |ps| => Entry(ps[i].url, i, 1));
    assert forall i :: 0 <= i < |es| ==> |es[i].url| == |PREFIX| + 3 + i;
    EntryUrlsExact(es);
    assert EntryUrls(es) == UrlsOf(ps) by {
      forall u | u in UrlsOf(ps) ensures u in EntryUrls(es) {
        var i :| 0 <= i < |ps| && ps[i].url == u;
        assert es[i].url == u;
      }
    }
    KeepsAsManyAsFit(ps);
  }

  /** The last repository drops out as an output link and comes back as a task link. Normalizing what
      came before loses its output link, which normalizing everything at once keeps. */
  lemma {:induction false} ReadmittedAlone()
    ensures var out, task := Repo(MAX_GITHUB_LINK_IDENTITIES, Output), Repo(MAX_GITHUB_LINK_IDENTITIES, Task);
      var cs, ds := Full() + [out], [task];
      BySource(cs) && AllCanonical(cs + ds) && !ReadmittedWhole(cs, ds) &&
      out in Normal(cs + ds) && out !in Normal(Normal(cs) + ds)
  {
    var out, task := Repo(MAX_GITHUB_LINK_IDENTITIES, Output), Repo(MAX_GITHUB_LINK_IDENTITIES, Task);
    hide Repo, Full, Canon, Selected, Normal, ReadmittedWhole;
    RepoCanonical(MAX_GITHUB_LINK_IDENTITIES, Output);
    RepoCanonical(MAX_GITHUB_LINK_IDENTITIES, Task);
    FullSelected();
    hide AllCanonical, BySource;
    PlusTwo(Full(), out, task);
    LostOnTheWay(Full(), out, task);
  }

  lemma {:induction false} PlusTwo(ps: seq<RetainedLink>, out: RetainedLink, task: RetainedLink)
    requires AllCanonical(ps) && Canon(out) == Some(out) && Canon(task) == Some(task)
    requires out.source == Output && forall i :: 0 <= i < |ps| ==> ps[i].source == Prompt
    ensures AllCanonical(ps + [out] + [task]) && BySource(ps + [out])
  {
    hide Canon;
  }

  lemma {:induction false} LostOnTheWay(ps: seq<RetainedLink>, out: RetainedLink, task: RetainedLink)
    requires |Selected(ps).entries| == MAX_GITHUB_LINK_IDENTITIES && BySource(ps + [out])
    requires forall i :: 0 <= i < |ps| ==> ps[i].source == Prompt && ps[i].url != out.url
    requires out.url == task.url && out.source == Output && task.source == Task
    ensures out in Normal(ps + [out] + [task]) && out !in Normal(Normal(ps + [out]) + [task])
    ensures !ReadmittedWhole(ps + [out], [task])
  {
    var cs, ds := ps + [out], [task];
    FullStays(ps, [out]);
    NotKept(ps, out.url);
    TaskIsKept(cs, task);
    hide Selected, ReadmittedWhole, Shaped, Optimal, RankedOrder, Ranked;
    NormalEntries(cs);
    NormalEntries(cs + ds);
    HasRanked(cs, out.url);
    HasRanked(cs + ds, out.url);
    InRendered(cs + ds, Ranked(Selected(cs + ds).entries), out);
    if out in Normal(Normal(cs) + ds) {
      RenderedMember(Normal(cs) + ds, Ranked(Selected(Normal(cs) + ds).entries), out);
      RenderedIn(cs, Ranked(Selected(cs).entries), out);
      assert false;
    }
    AbsorbExact(cs, ds);
  }

  /** When it comes back with its output link as well, no link is lost. */
  lemma {:induction false} ComesBackWhole(ps: seq<RetainedLink>, out: RetainedLink, task: RetainedLink)
    requires |Selected(ps).entries| == |UrlsOf(ps)| == MAX_GITHUB_LINK_IDENTITIES && BySource(ps + [out])
    requires forall i :: 0 <= i < |ps| ==> ps[i].source == Prompt && ps[i].url != out.url
    requires out.url == task.url && out.source == Output && task.source == Task
    ensures out !in Normal(ps + [out]) && out in Normal(ps + [out] + [out, task])
    ensures ReadmittedWhole(ps + [out], [out, task])
  {
    var cs, ds := ps + [out], [out, task];
    FullStays(ps, [out]);
    NotKept(ps, out.url);
    assert cs + ds == (cs + [out]) + [task];
    TaskIsKept(cs + [out], task);
    hide Selected, Shaped, Optimal, RankedOrder, Ranked;
    HasRanked(cs, out.url);
    HasRanked(cs + ds, out.url);
    InRendered(cs + ds, Ranked(Selected(cs + ds).entries), out);
    if out in Normal(cs) {
      RenderedIn(cs, Ranked(Selected(cs).entries), out);
      assert false;
    }
    var r := Ranked(Selected(cs + ds).entries);
    forall i | 0 <= i < |r| && r[i].url != out.url ensures Has(Selected(cs).entries, r[i].url) || Best(cs, r[i].url) == 3 {
      AllStay(ps, out, r[i].url);
    }
    LinksRepeated(ps, out, task);
    hide LinksOf;
  }

  lemma {:induction false} AllStay(ps: seq<RetainedLink>, out: RetainedLink, url: string)
    requires |UrlsOf(ps)| <= MAX_GITHUB_LINK_IDENTITIES && url != out.url
    ensures Has(Selected(ps).entries, url) || Best(ps + [out], url) == 3
  {
    BestNext(ps, out, url);
    BestExact(ps, url);
    KeepsAsManyAsFit(ps);
    SelectedOptimal(ps, "");
    EntryUrlsExact(Selected(ps).entries);
    hide Selected;
    if Best(ps, url) <= 2 { assert url in UrlsOf(ps); }
  }

  lemma {:induction false} LinksRepeated(ps: seq<RetainedLink>, out: RetainedLink, task: RetainedLink)
    requires (forall i :: 0 <= i < |ps| ==> ps[i].url != out.url) && out.url == task.url && out != task
    ensures LinksOf(ps + [out], out.url) <= LinksOf([out, task], out.url)
  {
    hide Of, Distinct, LinksOf;
    OnlyLink(ps, out);
    OwnLinks([out, task], out.url);
  }

  lemma {:induction false} OnlyLink(ps: seq<RetainedLink>, out: RetainedLink)
    requires forall i :: 0 <= i < |ps| ==> ps[i].url != out.url
    ensures LinksOf(ps + [out], out.url) == [out]
  {
    hide Of, Distinct;
    OfOther(ps, out.url);
    OfNext(ps, out, out.url);
    DistinctFixed([out]);
    assert [] + [out] == [out];
  }

  lemma {:induction false} OwnLinks(ls: seq<RetainedLink>, url: string)
    requires (forall i :: 0 <= i < |ls| ==> ls[i].url == url) && forall i, j :: 0 <= i < j < |ls| ==> ls[i] != ls[j]
    ensures LinksOf(ls, url) == ls
  {
    OfAll(ls, url);
    DistinctFixed(ls);
  }

  lemma {:induction false} HasRanked(cs: seq<RetainedLink>, url: string)
    ensures Has(Ranked(Selected(cs).entries), url) <==> Has(Selected(cs).entries, url)
  {
    var k := Selected(cs);
    SelectedOptimal(cs, url);
    RankedSorts(k);
    var r := Ranked(k.entries);
    hide Ranked, Selected;
    if Has(r, url) {
      var i :| 0 <= i < |r| && r[i].url == url;
      assert r[i] in multiset(k.entries);
    }
    if Has(k.entries, url) {
      var i :| 0 <= i < |k.entries| && k.entries[i].url == url;
      assert k.entries[i] in multiset(r);
    }
  }

  lemma {:induction false} NotKept(cs: seq<RetainedLink>, url: string)
    requires forall i :: 0 <= i < |cs| ==> cs[i].url != url
    ensures !Has(Selected(cs).entries, url)
  {
    SelectedOptimal(cs, url);
    BestExact(cs, url);
  }

  /** A first task link always gets in. */
  lemma {:induction false} TaskIsKept(cs: seq<RetainedLink>, task: RetainedLink)
    requires task.source == Task && forall c <- cs :: c.source != Task
    ensures Has(Selected(cs + [task]).entries, task.url)
  {
    var k := Selected(cs + [task]);
    hide Selected;
    SelectedOptimal(cs + [task], task.url);
    BestNext(cs, task, task.url);
    if !Has(k.entries, task.url) {
      OnlyTask(cs, task, k.entries[0].url);
      SelectedOptimal(cs + [task], k.entries[0].url);
      assert false;
    }
  }

  lemma {:induction false} OnlyTask(cs: seq<RetainedLink>, task: RetainedLink, url: string)
    requires task.source == Task && forall c <- cs :: c.source != Task
    ensures Best(cs + [task], url) == 0 ==> url == task.url
  {
    if Best(cs + [task], url) == 0 {
      BestExact(cs + [task], url);
      var c :| c in cs + [task] && c.url == url && Priority(c.source) == 0;
      assert c == task;
    }
  }

  lemma {:induction false} RenderedMember(cs: seq<RetainedLink>, entries: seq<Entry>, c: RetainedLink)
    requires c in Rendered(cs, entries)
    ensures c in cs
  {
    if c in Rendered(cs, entries[..|entries| - 1]) {
      RenderedMember(cs, entries[..|entries| - 1], c);
    } else {
      assert c in LinksOf(cs, entries[|entries| - 1].url);
    }
  }

  /** With all links ordered by source nothing dropped is ever readmitted, so normalising page
      by page is normalising everything at once. */
  lemma {:induction false} PageAbsorbed(cs: seq<RetainedLink>, ds: seq<RetainedLink>)
    requires BySource(cs + ds)
    ensures Normal(Normal(cs) + ds) == Normal(cs + ds)
    ensures forall c <- Normal(cs + ds) :: c in cs ==> c in Normal(cs)
  {
    assert BySource(cs) by {
      assert forall i :: 0 <= i < |cs| ==> cs[i] == (cs + ds)[i];
    }
    var r := Ranked(Selected(cs + ds).entries);
    NormalEntries(cs + ds);
    SelectedOptimal(cs + ds, "");
    forall i | 0 <= i < |r| ensures Has(Selected(cs).entries, r[i].url) || Best(cs, r[i].url) == 3 {
      SelectedOptimal(cs, r[i].url);
      if |Selected(cs).entries| == MAX_GITHUB_LINK_IDENTITIES {
        FullStays(cs, ds);
        RankedSorts(Selected(cs));
        assert r[i] in multiset(Selected(cs).entries);
      }
    }
    AbsorbExact(cs, ds);
    forall c | c in Normal(cs + ds) && c in cs ensures c in Normal(cs) {
      RenderedIn(cs + ds, r, c);
      var i :| 0 <= i < |r| && r[i].url == c.url;
      BestExact(cs, c.url);
      SelectionAbsorbed(cs, ds);
      InRendered(cs, Selected(cs).entries, c);
    }
  }

  lemma {:induction false} RenderedIn(cs: seq<RetainedLink>, entries: seq<Entry>, c: RetainedLink)
    requires c in Rendered(cs, entries)
    ensures exists i :: 0 <= i < |entries| && entries[i].url == c.url
  {
    if c in Rendered(cs, entries[..|entries| - 1]) {
      RenderedIn(cs, entries[..|entries| - 1], c);
      var i :| 0 <= i < |entries| - 1 && entries[..|entries| - 1][i].url == c.url;
      assert entries[i].url == c.url;
    } else {
      assert entries[|entries| - 1].url == c.url;
    }
  }

  lemma {:induction false} InRendered(cs: seq<RetainedLink>, entries: seq<Entry>, c: RetainedLink)
    requires c in cs && Has(entries, c.url)
    ensures c in Rendered(cs, entries)
  {
    if entries[|entries| - 1].url == c.url {
      InOf(cs, c);
    } else {
      var i :| 0 <= i < |entries| && entries[i].url == c.url;
      assert entries[..|entries| - 1][i].url == c.url;
      InRendered(cs, entries[..|entries| - 1], c);
    }
  }

  // ---------------------------------------------------------------- exactly what the normal form holds

  /** The link `v` stands for, if its URL is one of the kind it claims. */
  predicate Names(v: RetainedLink, link: RetainedLink) {
    var p := ParseGitHubLink(v.url);
    p.Some? && p.value.kind == v.kind == link.kind && p.value.url == link.url && v.source == link.source
  }

  lemma {:induction false} CanonicalExact(values: seq<RetainedLink>, link: RetainedLink)
    ensures link in Canonical(values) <==> exists v <- values :: Names(v, link)
  {
    hide ParseGitHubLink;
    if values != [] {
      var rest, last := values[..|values| - 1], values[|values| - 1];
      CanonicalExact(rest, link);
      assert Names(last, link) <==> Canon(last) == Some(link);
      assert forall v :: v in values <==> v in rest || v == last;
    }
  }

  /** No link is there twice. */
  predicate Differ(links: seq<RetainedLink>) { forall i, j :: 0 <= i < j < |links| ==> links[i] != links[j] }

  lemma {:induction false} DifferJoined(a: seq<RetainedLink>, b: seq<RetainedLink>)
    requires Differ(a) && Differ(b) && forall c <- a :: c !in b
    ensures Differ(a + b)
  {
    forall i, j | 0 <= i < j < |a + b| ensures (a + b)[i] != (a + b)[j] {
      if i < |a| <= j { assert a[i] in a && b[j - |a|] in b; }
    }
  }

  lemma {:induction false} RenderedDiffer(cs: seq<RetainedLink>, entries: seq<Entry>)
    requires DistinctUrls(entries)
    ensures Differ(Rendered(cs, entries))
  {
    if entries != [] {
      var rest, e := entries[..|entries| - 1], entries[|entries| - 1];
      RenderedDiffer(cs, rest);
      var early, late := Rendered(cs, rest), LinksOf(cs, e.url);
      forall c | c in early ensures c !in late { RenderedIn(cs, rest, c); }
      DifferJoined(early, late);
    }
  }

  /** A link is in the normal form exactly if its identity is kept and some input stands for it, and no link is
      there twice. */
  lemma {:induction false} NormalizedExact(values: seq<RetainedLink>, link: RetainedLink)
    ensures link in Normalized(values) <==>
      Has(Selected(Canonical(values)).entries, link.url) && exists v <- values :: Names(v, link)
    ensures Differ(Normalized(values))
  {
    var cs := Canonical(values);
    var r := Ranked(Selected(cs).entries);
    CanonicalExact(values, link);
    HasRanked(cs, link.url);
    SelectedOptimal(cs, link.url);
    RankedSorts(Selected(cs));
    RenderedDiffer(cs, r);
    assert Normalized(values) == Rendered(cs, r);
    hide Names, Canonical, Selected, Ranked, Has, Rendered, Differ, Normalized, DistinctUrls, RankedOrder, Shaped;
    if link in Rendered(cs, r) {
      RenderedIn(cs, r, link);
      HasAt(r, link.url);
      RenderedMember(cs, r, link);
    }
    if Has(r, link.url) && link in cs { InRendered(cs, r, link); }
  }

  lemma {:induction false} HasAt(entries: seq<Entry>, url: string)
    ensures Has(entries, url) <==> exists i :: 0 <= i < |entries| && entries[i].url == url
  {
  }

  // ---------------------------------------------------------------- the loops

  /** The scan for the identity to evict: worst priority, then latest arrival. */
  method FindVictim(byUrl: seq<Entry>, p: nat) returns (victim: int)
    requires Increasing(byUrl)
    ensures victim == Victim(byUrl, p)
  {
    victim := -1;
    var lastPriority := p;
    var lastOrder: int := -1;
    for i := 0 to |byUrl|
      invariant victim == Victim(byUrl[..i], p)
      invariant lastPriority == if victim == -1 then p else byUrl[victim].priority
      invariant lastOrder == if victim == -1 then -1 else byUrl[victim].order
    {
      assert byUrl[..i + 1][..i] == byUrl[..i];
      var candidate := byUrl[i];
      if candidate.priority > lastPriority
         || (candidate.priority == lastPriority && candidate.priority > p && candidate.order > lastOrder) {
        victim, lastPriority, lastOrder := i, candidate.priority, candidate.order;
      }
    }
    assert byUrl[..|byUrl|] == byUrl;
  }

  method TakeLink(byUrl: seq<Entry>, order: nat, parsed: RetainedLink) returns (k: Kept)
    requires Increasing(byUrl)
    ensures k == Take(Kept(byUrl, order), parsed)
  {
    var entries := byUrl;
    var priority := Priority(parsed.source);
    var i := Find(byUrl, parsed.url);
    if i == |byUrl| {
      if |byUrl| >= MAX_GITHUB_LINK_IDENTITIES {
        var victim := FindVictim(byUrl, priority);
        if victim == -1 { return Kept(byUrl, order); }
        entries := byUrl[..victim] + byUrl[victim + 1..];
      }
      return Kept(entries + [Entry(parsed.url, order, priority)], order + 1);
    }
    var best := if priority < byUrl[i].priority then priority else byUrl[i].priority;
    k := Kept(byUrl[i := byUrl[i].(priority := best)], order);
  }

  lemma {:induction false} SelectedNext(values: seq<RetainedLink>, n: nat)
    requires n < |values|
    ensures Selected(Canonical(values[..n + 1])) ==
            var k := Selected(Canonical(values[..n]));
            if Canon(values[n]) == None then k else Take(k, Canon(values[n]).value)
    ensures Increasing(Selected(Canonical(values[..n])).entries)
  {
    var cs := Canonical(values[..n]);
    assert values[..n + 1] == values[..n] + [values[n]];
    CanonicalNext(values[..n], values[n]);
    SelectedOptimal(cs, "");
    if Canon(values[n]) == None { assert cs + [] == cs; } else { TakeAllNext(Kept([], 0), cs, Canon(values[n]).value); }
  }

  method SelectIdentities(values: seq<RetainedLink>) returns (byUrl: seq<Entry>)
    ensures byUrl == Selected(Canonical(values)).entries
  {
    var k := Kept([], 0);
    for n := 0 to |values|
      invariant k == Selected(Canonical(values[..n]))
    {
      SelectedNext(values, n);
      var parsed := Canon(values[n]);
      if parsed != None { k := TakeLink(k.entries, k.next, parsed.value); }
    }
    assert values[..|values|] == values;
    byUrl := k.entries;
  }

  predicate HasSource(ls: seq<RetainedLink>, s: Source) { exists i :: 0 <= i < |ls| && ls[i].source == s }

  /** Links of one URL differ only by source. */
  lemma {:induction false} SourceDecides(cs: seq<RetainedLink>, c: RetainedLink)
    requires AllCanonical(cs) && Canon(c) == Some(c)
    ensures HasSource(LinksOf(cs, c.url), c.source) <==> c in LinksOf(cs, c.url)
  {
    var ls := LinksOf(cs, c.url);
    forall i | 0 <= i < |ls| && ls[i].source == c.source ensures ls[i] == c {
      assert ls[i] in ls && ls[i] in Of(cs, c.url) && ls[i] in cs;
    }
  }

  lemma {:induction false} LinksNext(values: seq<RetainedLink>, n: nat, u: string)
    requires n < |values|
    ensures LinksOf(Canonical(values[..n + 1]), u) == Grown(LinksOf(Canonical(values[..n]), u), Canon(values[n]), u)
  {
    var cs := Canonical(values[..n]);
    assert values[..n + 1] == values[..n] + [values[n]];
    CanonicalNext(values[..n], values[n]);
    if Canon(values[n]) == None {
      assert cs + [] == cs;
    } else {
      var c := Canon(values[n]).value;
      CanonicalAll(values[..n]);
      CanonIdempotent(values[n]);
      SourceDecides(cs, c);
      LinksMore(cs, c, u);
    }
  }

  lemma {:induction false} LinksMore(cs: seq<RetainedLink>, c: RetainedLink, u: string)
    requires HasSource(LinksOf(cs, c.url), c.source) <==> c in LinksOf(cs, c.url)
    ensures LinksOf(cs + [c], u) == Grown(LinksOf(cs, u), Some(c), u)
  {
    assert (cs + [c])[..|cs|] == cs;
    if c.url == u { assert (Of(cs, u) + [c])[..|Of(cs, u)|] == Of(cs, u); }
  }

  ghost predicate Collected(links: map<string, seq<RetainedLink>>, urls: set<string>, cs: seq<RetainedLink>) {
    links.Keys == urls && forall u :: u in links ==> links[u] == LinksOf(cs, u)
  }

  function Collect(links: map<string, seq<RetainedLink>>, parsed: Option<RetainedLink>): map<string, seq<RetainedLink>> {
    if parsed.Some? && parsed.value.url in links && !HasSource(links[parsed.value.url], parsed.value.source)
    then links[parsed.value.url := links[parsed.value.url] + [parsed.value]] else links
  }

  function Grown(ls: seq<RetainedLink>, parsed: Option<RetainedLink>, u: string): seq<RetainedLink> {
    if parsed.Some? && parsed.value.url == u && !HasSource(ls, parsed.value.source) then ls + [parsed.value] else ls
  }

  lemma {:induction false} CollectedNext(links: map<string, seq<RetainedLink>>, urls: set<string>, cs: seq<RetainedLink>,
                                         cs': seq<RetainedLink>, parsed: Option<RetainedLink>)
    requires Collected(links, urls, cs)
    requires forall u :: u in links ==> LinksOf(cs', u) == Grown(LinksOf(cs, u), parsed, u)
    ensures Collected(Collect(links, parsed), urls, cs')
  {
  }

  /** The second pass: every kept identity collects its first link of each source. */
  method CollectLinks(values: seq<RetainedLink>, urls: set<string>) returns (links: map<string, seq<RetainedLink>>)
    ensures links.Keys == urls
    ensures forall u :: u in links ==> links[u] == LinksOf(Canonical(values), u)
  {
    links := map u | u in urls :: [];
    for n := 0 to |values|
      invariant Collected(links, urls, Canonical(values[..n]))
    {
      var parsed := Canon(values[n]);
      forall u | u in links
        ensures LinksOf(Canonical(values[..n + 1]), u) == Grown(LinksOf(Canonical(values[..n]), u), parsed, u)
      {
        LinksNext(values, n, u);
      }
      CollectedNext(links, urls, Canonical(values[..n]), Canonical(values[..n + 1]), parsed);
      links := Collect(links, parsed);
    }
    assert values[..|values|] == values;
  }

  method RenderLinks(sorted: seq<Entry>, links: map<string, seq<RetainedLink>>, ghost cs: seq<RetainedLink>)
    returns (r: seq<RetainedLink>)
    requires forall i :: 0 <= i < |sorted| ==> sorted[i].url in links && links[sorted[i].url] == LinksOf(cs, sorted[i].url)
    ensures r == Rendered(cs, sorted)
  {
    r := [];
    for i := 0 to |sorted|
      invariant r == Rendered(cs, sorted[..i])
    {
      assert sorted[..i + 1] == sorted[..i] + [sorted[i]];
      RenderedNext(cs, sorted[..i], sorted[i]);
      r := r + links[sorted[i].url];
    }
    assert sorted[..|sorted|] == sorted;
  }

  method NormalizeRetainedGitHubLinks(values: seq<RetainedLink>) returns (r: seq<RetainedLink>)
    ensures r == Normalized(values)
  {
    var byUrl := SelectIdentities(values);
    var links := CollectLinks(values, set e <- byUrl :: e.url);
    SelectedOptimal(Canonical(values), "");
    RankedSorts(Selected(Canonical(values)));
    var sorted := Ranked(byUrl);
    forall i | 0 <= i < |sorted| ensures sorted[i].url in links { assert sorted[i] in multiset(byUrl); }
    r := RenderLinks(sorted, links, Canonical(values));
  }
}
