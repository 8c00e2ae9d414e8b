/** The artifact cache: reconciling it with its limits at the start, and keeping it within them while
    any number of callers write. */
module ArtifactCache {
  import Lock = PromiseLock

  datatype CacheFile = CacheFile(path: string, size: nat, mtime: int)

  datatype Limits = Limits(maxFileBytes: nat, maxCacheBytes: nat)

  function Total(files: seq<CacheFile>): nat {
    if files == [] then 0 else files[0].size + Total(files[1..])
  }

  // ---------------------------------------------------------------- the order of eviction

  predicate Oversized(f: CacheFile, l: Limits) { f.size > l.maxFileBytes }

  /** Oversized files go first, then the oldest. */
  predicate NotAfter(a: CacheFile, b: CacheFile, l: Limits) {
    if Oversized(a, l) != Oversized(b, l) then Oversized(a, l) else a.mtime <= b.mtime
  }

  predicate Ordered(files: seq<CacheFile>, l: Limits) {
    forall i, j :: 0 <= i < j < |files| ==> NotAfter(files[i], files[j], l)
  }

  /** Behind the files it does not come before, as a stable sort would put the last one in. */
  function Insert(f: CacheFile, files: seq<CacheFile>, l: Limits): seq<CacheFile> {
    if files == [] || !NotAfter(files[0], f, l) then [f] + files else [files[0]] + Insert(f, files[1..], l)
  }

  function Sort(files: seq<CacheFile>, l: Limits): seq<CacheFile> {
    if files == [] then [] else Insert(files[|files| - 1], Sort(files[..|files| - 1], l), l)
  }

  lemma {:induction false} InsertSame(f: CacheFile, files: seq<CacheFile>, l: Limits)
    ensures multiset(Insert(f, files, l)) == multiset(files) + multiset{f}
    ensures Total(Insert(f, files, l)) == Total(files) + f.size
  {
    if files != [] && NotAfter(files[0], f, l) {
      InsertSame(f, files[1..], l);
      assert files == [files[0]] + files[1..];
    }
  }

  ghost predicate NoneBefore(a: CacheFile, files: seq<CacheFile>, l: Limits) {
    forall j :: 0 <= j < |files| ==> NotAfter(a, files[j], l)
  }

  lemma {:induction false} InsertNoneBefore(a: CacheFile, f: CacheFile, files: seq<CacheFile>, l: Limits)
    requires NotAfter(a, f, l) && NoneBefore(a, files, l)
    ensures NoneBefore(a, Insert(f, files, l), l)
  {
    if files != [] { InsertNoneBefore(a, f, files[1..], l); }
  }

  lemma {:induction false} OrderedFirst(a: CacheFile, files: seq<CacheFile>, l: Limits)
    requires NoneBefore(a, files, l) && Ordered(files, l)
    ensures Ordered([a] + files, l)
  {
  }

  lemma {:induction false} InsertOrdered(f: CacheFile, files: seq<CacheFile>, l: Limits)
    requires Ordered(files, l)
    ensures Ordered(Insert(f, files, l), l)
  {
    if files != [] {
      assert NoneBefore(files[0], files[1..], l);
      if NotAfter(files[0], f, l) {
        InsertOrdered(f, files[1..], l);
        InsertNoneBefore(files[0], f, files[1..], l);
        OrderedFirst(files[0], Insert(f, files[1..], l), l);
      }
    }
  }

  lemma {:induction false} SortOrdered(files: seq<CacheFile>, l: Limits)
    ensures Ordered(Sort(files, l), l)
  {
    if files != [] {
      SortOrdered(files[..|files| - 1], l);
      InsertOrdered(files[|files| - 1], Sort(files[..|files| - 1], l), l);
    }
  }

  lemma {:induction false} SortSame(files: seq<CacheFile>, l: Limits)
    ensures multiset(Sort(files, l)) == multiset(files) && Total(Sort(files, l)) == Total(files)
  {
    if files != [] {
      var n := |files| - 1;
      SortSame(files[..n], l);
      InsertSame(files[n], Sort(files[..n], l), l);
      TotalLast(files[..n], files[n]);
      assert Sort(files, l) == Insert(files[n], Sort(files[..n], l), l);
      hide Sort, Insert, Total;
      assert files == files[..n] + [files[n]];
    }
  }

  lemma {:induction false} TotalLast(files: seq<CacheFile>, f: CacheFile)
    ensures Total(files + [f]) == Total(files) + f.size
  {
    if files == [] {
      assert [] + [f] == [f];
      assert [f][1..] == [];
    } else {
      assert (files + [f])[1..] == files[1..] + [f];
      TotalLast(files[1..], f);
    }
  }

  // ---------------------------------------------------------------- reconciliation

  datatype Outcome = Outcome(kept: seq<CacheFile>, removed: seq<CacheFile>, total: int)

  /** Removing goes on until the first file that may stay; a file in `stuck` cannot be removed. */
  function Evict(files: seq<CacheFile>, total: int, stuck: set<string>, l: Limits): Outcome {
    if files == [] || (total <= l.maxCacheBytes && !Oversized(files[0], l)) then Outcome(files, [], total)
    else if files[0].path in stuck then
      var o := Evict(files[1..], total, stuck, l);
      o.(kept := [files[0]] + o.kept)
    else
      var o := Evict(files[1..], total - files[0].size, stuck, l);
      o.(removed := [files[0]] + o.removed)
  }

  function Reconciled(files: seq<CacheFile>, stuck: set<string>, l: Limits): Outcome {
    Evict(Sort(files, l), Total(files), stuck, l)
  }

  predicate MayStay(f: CacheFile, total: int, l: Limits) { total <= l.maxCacheBytes && f.size <= l.maxFileBytes }

  method ReconcileCache(files: seq<CacheFile>, stuck: set<string>, l: Limits) returns (o: Outcome)
    ensures o == Reconciled(files, stuck, l)
  {
    hide Evict, Sort, Joined;
    var order := Sort(files, l);
    var total: int := Total(files);
    var kept, removed := [], [];
    var i := 0;
    JoinedNothing(Evict(order, total, stuck, l));
    assert order[0..] == order;
    while i < |order| && !MayStay(order[i], total, l)
      invariant 0 <= i <= |order|
      invariant Joined(kept, removed, Evict(order[i..], total, stuck, l)) == Evict(order, Total(files), stuck, l)
    {
      var file := order[i];
      EvictNext(order[i..], total, stuck, l);
      assert order[i..][1..] == order[i + 1..];
      if file.path in stuck {
        JoinedMore(kept, removed, file, Evict(order[i + 1..], total, stuck, l));
        kept := kept + [file];
      } else {
        JoinedMore(kept, removed, file, Evict(order[i + 1..], total - file.size, stuck, l));
        total := total - file.size;
        removed := removed + [file];
      }
      i := i + 1;
    }
    EvictEnds(order[i..], kept, removed, total, stuck, l);
    o := Outcome(kept + order[i..], removed, total);
  }

  lemma {:induction false} EvictNext(files: seq<CacheFile>, total: int, stuck: set<string>, l: Limits)
    requires files != [] && !MayStay(files[0], total, l)
    ensures Evict(files, total, stuck, l) ==
      if files[0].path in stuck
      then (var o := Evict(files[1..], total, stuck, l); o.(kept := [files[0]] + o.kept))
      else (var o := Evict(files[1..], total - files[0].size, stuck, l); o.(removed := [files[0]] + o.removed))
  {
  }

  lemma {:induction false} EvictEnds(files: seq<CacheFile>, kept: seq<CacheFile>, removed: seq<CacheFile>, total: int, stuck: set<string>, l: Limits)
    requires files == [] || MayStay(files[0], total, l)
    ensures Joined(kept, removed, Evict(files, total, stuck, l)) == Outcome(kept + files, removed, total)
  {
    assert removed + [] == removed;
  }

  lemma {:induction false} JoinedNothing(o: Outcome)
    ensures Joined([], [], o) == o
  {
  }

  function Joined(kept: seq<CacheFile>, removed: seq<CacheFile>, o: Outcome): Outcome {
    o.(kept := kept + o.kept, removed := removed + o.removed)
  }

  lemma {:induction false} JoinedMore(kept: seq<CacheFile>, removed: seq<CacheFile>, f: CacheFile, o: Outcome)
    ensures Joined(kept, removed, o.(kept := [f] + o.kept)) == Joined(kept + [f], removed, o)
    ensures Joined(kept, removed, o.(removed := [f] + o.removed)) == Joined(kept, removed + [f], o)
  {
    assert kept + ([f] + o.kept) == (kept + [f]) + o.kept;
    assert removed + ([f] + o.removed) == (removed + [f]) + o.removed;
  }

  lemma {:induction false} EvictTotal(files: seq<CacheFile>, total: int, stuck: set<string>, l: Limits)
    ensures var o := Evict(files, total, stuck, l); total - o.total == Total(files) - Total(o.kept)
  {
    if files != [] && !MayStay(files[0], total, l) {
      var f := files[0];
      var rest := if f.path in stuck then total else total - f.size;
      EvictTotal(files[1..], rest, stuck, l);
      EvictNext(files, total, stuck, l);
      var o := Evict(files[1..], rest, stuck, l);
      hide Evict;
      assert ([f] + o.kept)[1..] == o.kept;
    }
  }

  ghost function All(o: Outcome): multiset<CacheFile> { multiset(o.kept) + multiset(o.removed) }

  lemma {:induction false} AllNext(f: CacheFile, o: Outcome)
    ensures All(o.(kept := [f] + o.kept)) == multiset{f} + All(o) == All(o.(removed := [f] + o.removed))
  {
  }

  lemma {:induction false} FirstAndRest(files: seq<CacheFile>)
    requires files != []
    ensures multiset(files) == multiset{files[0]} + multiset(files[1..])
  {
    assert files == [files[0]] + files[1..];
  }

  lemma {:induction false} NothingEvicted(files: seq<CacheFile>, total: int, stuck: set<string>, l: Limits)
    requires files == [] || MayStay(files[0], total, l)
    ensures All(Evict(files, total, stuck, l)) == multiset(files)
  {
    assert Evict(files, total, stuck, l) == Outcome(files, [], total);
    assert multiset(files) + multiset([]) == multiset(files);
  }

  lemma {:induction false} OneEvicted(files: seq<CacheFile>, total: int, stuck: set<string>, l: Limits)
    requires files != [] && !MayStay(files[0], total, l)
    ensures All(Evict(files, total, stuck, l)) ==
      multiset{files[0]} + All(Evict(files[1..], if files[0].path in stuck then total else total - files[0].size, stuck, l))
  {
    EvictNext(files, total, stuck, l);
    hide Evict, All;
    AllNext(files[0], Evict(files[1..], if files[0].path in stuck then total else total - files[0].size, stuck, l));
  }

  lemma {:induction false} EvictLosesNothing(files: seq<CacheFile>, total: int, stuck: set<string>, l: Limits)
    ensures All(Evict(files, total, stuck, l)) == multiset(files)
  {
    hide Evict, All;
    if files == [] || MayStay(files[0], total, l) {
      NothingEvicted(files, total, stuck, l);
    } else {
      EvictLosesNothing(files[1..], if files[0].path in stuck then total else total - files[0].size, stuck, l);
      OneEvicted(files, total, stuck, l);
      FirstAndRest(files);
    }
  }

  ghost predicate AllStuck(kept: seq<CacheFile>, stuck: set<string>) { forall i :: 0 <= i < |kept| ==> kept[i].path in stuck }

  ghost predicate OversizedStuck(kept: seq<CacheFile>, stuck: set<string>, l: Limits) {
    forall i :: 0 <= i < |kept| && Oversized(kept[i], l) ==> kept[i].path in stuck
  }

  lemma {:induction false} EvictLimits(files: seq<CacheFile>, total: int, stuck: set<string>, l: Limits)
    requires Ordered(files, l)
    ensures var o := Evict(files, total, stuck, l);
      (o.total > l.maxCacheBytes ==> AllStuck(o.kept, stuck)) && OversizedStuck(o.kept, stuck, l)
  {
    if files == [] {
    } else if total <= l.maxCacheBytes && !Oversized(files[0], l) {
      assert forall i :: 0 < i < |files| ==> NotAfter(files[0], files[i], l);
    } else {
      EvictLimits(files[1..], if files[0].path in stuck then total else total - files[0].size, stuck, l);
    }
  }

  /** Whatever cannot be removed: nothing is lost, the total is always that of the files that stay,
      and if a limit is still broken then only by files that could not be removed. */
  lemma {:induction false} ReconcileExact(files: seq<CacheFile>, stuck: set<string>, l: Limits)
    ensures var o := Reconciled(files, stuck, l);
      multiset(o.kept) + multiset(o.removed) == multiset(files) && o.total == Total(o.kept) &&
      (o.total > l.maxCacheBytes ==> AllStuck(o.kept, stuck)) && OversizedStuck(o.kept, stuck, l)
  {
    SortOrdered(files, l);
    SortSame(files, l);
    EvictLosesNothing(Sort(files, l), Total(files), stuck, l);
    EvictTotal(Sort(files, l), Total(files), stuck, l);
    EvictLimits(Sort(files, l), Total(files), stuck, l);
  }

  /** Each of the first `k` files is oversized, or with those before it gone it is still one too many. */
  ghost predicate TooMany(files: seq<CacheFile>, k: nat, l: Limits)
    requires k <= |files|
  {
    forall i :: 0 <= i < k && !Oversized(files[i], l) ==> Total(files[i..]) > l.maxCacheBytes
  }

  lemma {:induction false} TooManyNext(files: seq<CacheFile>, j: nat, l: Limits)
    requires files != [] && j < |files| && !MayStay(files[0], Total(files), l) && TooMany(files[1..], j, l)
    ensures TooMany(files, j + 1, l)
  {
    hide Total;
    assert files[0..] == files;
    forall i | 0 < i < j + 1 && !Oversized(files[i], l) ensures Total(files[i..]) > l.maxCacheBytes {
      assert files[i] == files[1..][i - 1] && files[i..] == files[1..][i - 1..];
    }
  }

  lemma {:induction false} AllStay(files: seq<CacheFile>, total: int, l: Limits)
    requires total == Total(files) && (files == [] || MayStay(files[0], total, l))
    ensures TooMany(files, 0, l) && Evict(files, total, {}, l) == Outcome(files[0..], files[..0], total)
    ensures files != [] ==> Total(files[0..]) <= l.maxCacheBytes && !Oversized(files[0], l)
  {
    assert files[0..] == files;
  }

  /** When everything can be removed the files that stay are the last ones of the order, and each
      file removed was either oversized or one too many. */
  lemma {:induction false} EvictSplits(files: seq<CacheFile>, total: int, l: Limits) returns (k: nat)
    requires total == Total(files)
    ensures k <= |files| && TooMany(files, k, l)
    ensures var o := Evict(files, total, {}, l); o.removed == files[..k] && o.kept == files[k..]
    ensures k < |files| ==> Total(files[k..]) <= l.maxCacheBytes && !Oversized(files[k], l)
  {
    hide Evict, TooMany;
    if files == [] || MayStay(files[0], total, l) {
      k := 0;
      AllStay(files, total, l);
    } else {
      EvictNext(files, total, {}, l);
      var j := EvictSplits(files[1..], total - files[0].size, l);
      k := j + 1;
      TooManyNext(files, j, l);
      hide Total;
      SplitNext(files, j);
    }
  }

  lemma {:induction false} SplitNext(files: seq<CacheFile>, j: nat)
    requires j < |files|
    ensures files[..j + 1] == [files[0]] + files[1..][..j] && files[1..][j..] == files[j + 1..]
    ensures j + 1 < |files| ==> files[j + 1] == files[1..][j]
  {
  }

  /** A file that was within its limit and is removed is no newer than any file that stays, and with
      what came before it gone the total was still too high. */
  ghost predicate FairlyRemoved(f: CacheFile, kept: seq<CacheFile>) {
    forall i :: 0 <= i < |kept| ==> f.mtime <= kept[i].mtime
  }

  /** After a reconciliation without failures: no file left is over its limit, the total is within
      the limit, nothing but the removed files is gone, removed files that were within their limit
      are no newer than any file left, and the last of them was needed to get within the limit. */
  lemma {:induction false} ReconcileFaithful(files: seq<CacheFile>, l: Limits)
    ensures var o := Reconciled(files, {}, l);
      multiset(o.kept) + multiset(o.removed) == multiset(files) && o.total == Total(o.kept) <= l.maxCacheBytes &&
      (forall i :: 0 <= i < |o.kept| ==> !Oversized(o.kept[i], l)) &&
      (forall i :: 0 <= i < |o.removed| && !Oversized(o.removed[i], l) ==> FairlyRemoved(o.removed[i], o.kept)) &&
      (o.removed != [] && !Oversized(o.removed[|o.removed| - 1], l) ==>
         Total(o.kept) + o.removed[|o.removed| - 1].size > l.maxCacheBytes)
  {
    ReconcileExact(files, {}, l);
    SortOrdered(files, l);
    SortSame(files, l);
    var order := Sort(files, l);
    var k := EvictSplits(order, Total(files), l);
    hide Evict, Sort;
    NeededLast(order, k, l);
    RemovedFairly(order, k, l);
    assert order[k..] == [] ==> Total(order[k..]) == 0;
  }

  lemma {:induction false} NeededLast(order: seq<CacheFile>, k: nat, l: Limits)
    requires k <= |order| && (k > 0 && !Oversized(order[k - 1], l) ==> Total(order[k - 1..]) > l.maxCacheBytes)
    ensures var removed := order[..k];
      k > 0 && !Oversized(removed[k - 1], l) ==> Total(order[k..]) + removed[k - 1].size > l.maxCacheBytes
  {
    if k > 0 { assert order[k - 1..][1..] == order[k..]; }
  }

  lemma {:induction false} RemovedFairly(order: seq<CacheFile>, k: nat, l: Limits)
    requires Ordered(order, l) && k <= |order| && (k < |order| ==> !Oversized(order[k], l))
    ensures var removed, kept := order[..k], order[k..];
      (forall i :: 0 <= i < |removed| && !Oversized(removed[i], l) ==> FairlyRemoved(removed[i], kept)) &&
      (forall i :: 0 <= i < |kept| ==> !Oversized(kept[i], l))
  {
    var removed, kept := order[..k], order[k..];
    forall j | 0 <= j < |kept| ensures !Oversized(kept[j], l) {
      assert j > 0 ==> NotAfter(order[k], order[k + j], l);
    }
    forall i | 0 <= i < k && !Oversized(removed[i], l) ensures FairlyRemoved(removed[i], kept) {
      forall j | 0 <= j < |kept| ensures removed[i].mtime <= kept[j].mtime {
        assert NotAfter(order[i], order[k + j], l);
      }
    }
  }

  // ---------------------------------------------------------------- writing

  /** A writer checks the space when its turn comes, and writes if there is enough. */
  datatype Writer = Writer(size: nat, admitted: bool)

  /** Writers are numbered like the callers of the queue; `used` is what the cache holds. */
  datatype Cache = Cache(queue: Lock.Locks, writers: seq<Writer>, used: nat)

  datatype Step =
    | Arrive(size: nat)
    | Enter(writer: nat)
    | Check(writer: nat)
    | Write(writer: nat, bytes: nat)
    | Leave(writer: nat)
    | Remove(bytes: nat)

  const QUEUE := "cache"

  function Start(used: nat): Cache { Cache(Lock.Initial, [], used) }

  predicate Holds(c: Cache, w: nat) { w < |c.writers| && Lock.Enabled(c.queue, Lock.Leave(w)) }

  predicate Enabled(c: Cache, step: Step) {
    match step
    case Arrive(_) => true
    case Enter(w) => w < |c.writers| && Lock.Enabled(c.queue, Lock.Enter(w))
    case Check(w) => Holds(c, w) && !c.writers[w].admitted
    case Write(w, bytes) => Holds(c, w) && c.writers[w].admitted && bytes <= c.writers[w].size
    case Leave(w) => Holds(c, w)
    case Remove(bytes) => bytes <= c.used
  }

  /** `size` is what a writer announced; once part of it is written only the rest is left of it. */
  function Next(c: Cache, step: Step, l: Limits): Cache
    requires Enabled(c, step)
  {
    match step
    case Arrive(size) => c.(queue := Lock.Next(c.queue, Lock.Arrive(QUEUE)), writers := c.writers + [Writer(size, false)])
    case Enter(w) => c.(queue := Lock.Next(c.queue, Lock.Enter(w)))
    case Check(w) =>
      if c.used + c.writers[w].size > l.maxCacheBytes then c.(queue := Lock.Next(c.queue, Lock.Leave(w)))
      else c.(writers := c.writers[w := c.writers[w].(admitted := true)])
    case Write(w, bytes) =>
      c.(used := c.used + bytes, writers := c.writers[w := c.writers[w].(size := c.writers[w].size - bytes)])
    case Leave(w) => c.(queue := Lock.Next(c.queue, Lock.Leave(w)))
    case Remove(bytes) => c.(used := c.used - bytes)
  }

  ghost predicate IsRun(c: Cache, steps: seq<Step>, d: Cache, l: Limits)
    decreases |steps|
  {
    if steps == [] then c == d else Enabled(c, steps[0]) && IsRun(Next(c, steps[0], l), steps[1..], d, l)
  }

  ghost predicate WriterInv(c: Cache, w: nat, l: Limits)
    requires w < |c.writers| && w < |c.queue.callers|
  {
    c.queue.callers[w].key == QUEUE &&
    (c.writers[w].admitted ==> c.queue.callers[w].phase != Lock.Phase.Waiting) &&
    (c.writers[w].admitted && c.queue.callers[w].phase == Lock.Phase.Holding ==> c.used + c.writers[w].size <= l.maxCacheBytes)
  }

  ghost predicate Inv(c: Cache, l: Limits) {
    Lock.Inv(c.queue) && |c.queue.callers| == |c.writers| && forall w :: 0 <= w < |c.writers| ==> WriterInv(c, w, l)
  }

  ghost function Bound(c: Cache, l: Limits): nat { if c.used > l.maxCacheBytes then c.used else l.maxCacheBytes }

  lemma {:induction false} NextKeepsInv(c: Cache, step: Step, l: Limits)
    requires Inv(c, l) && Enabled(c, step)
    ensures Inv(Next(c, step, l), l) && Next(c, step, l).used <= Bound(c, l)
  {
    hide Lock.Inv;
    var d := Next(c, step, l);
    match step {
      case Arrive(_) => Lock.NextKeepsInv(c.queue, Lock.Arrive(QUEUE));
      case Enter(w) => Lock.NextKeepsInv(c.queue, Lock.Enter(w));
      case Check(w) => Lock.NextKeepsInv(c.queue, Lock.Leave(w));
      case Leave(w) => Lock.NextKeepsInv(c.queue, Lock.Leave(w));
      case Write(w, _) => assert WriterInv(c, w, l);
      case Remove(_) =>
    }
    forall v | 0 <= v < |d.writers| ensures WriterInv(d, v, l) {
      if v < |c.writers| { assert WriterInv(c, v, l); }
      if step.Write? && v != step.writer && c.queue.callers[v].phase == Lock.Phase.Holding { OnlyHolder(c, v, step.writer, l); }
    }
  }

  lemma {:induction false} OnlyHolder(c: Cache, v: nat, w: nat, l: Limits)
    requires Inv(c, l) && v < |c.writers| && w < |c.writers|
    requires c.queue.callers[v].phase == Lock.Phase.Holding && c.queue.callers[w].phase == Lock.Phase.Holding
    ensures v == w
  {
    assert WriterInv(c, v, l) && WriterInv(c, w, l);
    Lock.OneHolder(c.queue, v, w);
  }

  /** However many writers there are, however their writes are split up and whatever is removed
      meanwhile: the cache never holds more than its limit, or than it held at the start. */
  lemma {:induction false} WritesStayWithin(used: nat, steps: seq<Step>, d: Cache, l: Limits)
    requires IsRun(Start(used), steps, d, l)
    ensures d.used <= if used > l.maxCacheBytes then used else l.maxCacheBytes
  {
    RunStaysWithin(Start(used), steps, d, l);
  }

  lemma {:induction false} RunStaysWithin(c: Cache, steps: seq<Step>, d: Cache, l: Limits)
    requires Inv(c, l) && IsRun(c, steps, d, l)
    ensures d.used <= Bound(c, l) && Inv(d, l)
    decreases |steps|
  {
    hide Inv, Next, Enabled;
    if steps != [] {
      NextKeepsInv(c, steps[0], l);
      RunStaysWithin(Next(c, steps[0], l), steps[1..], d, l);
    }
  }

  function Written(steps: seq<Step>): nat {
    if steps == [] then 0 else (if steps[0].Write? then steps[0].bytes else 0) + Written(steps[1..])
  }

  function Taken(steps: seq<Step>): nat {
    if steps == [] then 0 else (if steps[0].Remove? then steps[0].bytes else 0) + Taken(steps[1..])
  }

  /** What the cache holds is what it held, and was written, and was not removed. */
  lemma {:induction false} UsedExact(c: Cache, steps: seq<Step>, d: Cache, l: Limits)
    requires IsRun(c, steps, d, l)
    ensures d.used + Taken(steps) == c.used + Written(steps)
    decreases |steps|
  {
    hide Lock.Next, Lock.Enabled;
    if steps != [] { UsedExact(Next(c, steps[0], l), steps[1..], d, l); }
  }

  /** A writer whose turn it is may write what it announced exactly if that fits at this moment, and is otherwise
      done without having written anything. */
  lemma {:induction false} AdmittedExactly(c: Cache, w: nat, l: Limits)
    requires Inv(c, l) && Enabled(c, Check(w))
    ensures var d := Next(c, Check(w), l);
      d.used == c.used &&
      (Enabled(d, Write(w, c.writers[w].size)) <==> c.used + c.writers[w].size <= l.maxCacheBytes) &&
      (d.queue.callers[w].phase == Lock.Phase.Released <==> c.used + c.writers[w].size > l.maxCacheBytes)
  {
  }

  ghost predicate FirstDone(c: Cache, n: nat) {
    n <= |c.queue.callers| && forall v :: 0 <= v < n ==> c.queue.callers[v].phase == Lock.Phase.Released
  }

  lemma {:induction false} WriterLeaves(c: Cache, n: nat, w: nat, l: Limits) returns (steps: seq<Step>, d: Cache)
    requires Inv(c, l) && FirstDone(c, n) && n <= w < |c.writers|
    ensures IsRun(c, steps, d, l) && |d.writers| == |c.writers| && FirstDone(d, w + 1)
    decreases w - n, if c.queue.callers[n].phase.Waiting? then 2 else if c.queue.callers[n].phase.Holding? then 1 else 0
  {
    if c.queue.callers[n].phase.Released? {
      if n == w { return [], c; }
      steps, d := WriterLeaves(c, n + 1, w, l);
    } else {
      var step := if c.queue.callers[n].phase.Waiting? then Enter(n) else Leave(n);
      FirstMayGo(c, n, l);
      NextKeepsInv(c, step, l);
      assert FirstDone(Next(c, step, l), n);
      var more;
      more, d := WriterLeaves(Next(c, step, l), n, w, l);
      steps := [step] + more;
      assert steps[1..] == more;
    }
  }

  lemma {:induction false} FirstMayGo(c: Cache, n: nat, l: Limits)
    requires Inv(c, l) && FirstDone(c, n) && n < |c.writers|
    ensures c.queue.callers[n].phase.Waiting? ==> Enabled(c, Enter(n))
    ensures c.queue.callers[n].phase.Holding? ==> Enabled(c, Leave(n))
  {
    assert Lock.Linked(c.queue, n);
  }

  /** However far a run has come, every writer can still get its turn and be done. */
  lemma {:induction false} EveryWriterEnds(used: nat, early: seq<Step>, c: Cache, w: nat, l: Limits) returns (steps: seq<Step>, d: Cache)
    requires IsRun(Start(used), early, c, l) && w < |c.writers|
    ensures IsRun(c, steps, d, l) && w < |d.queue.callers| && d.queue.callers[w].phase == Lock.Phase.Released
  {
    RunStaysWithin(Start(used), early, c, l);
    steps, d := WriterLeaves(c, 0, w, l);
  }

  // ---------------------------------------------------------------- the cache object

  class ArtifactManager {
    const limits: Limits
    var queue: Lock.Locks
    var writers: seq<Writer>
    var used: nat

    function View(): Cache
      reads this
    {
      Cache(queue, writers, used)
    }

    constructor (limits: Limits, used: nat)
      ensures View() == Start(used) && this.limits == limits
    {
      this.limits, this.used := limits, used;
      queue, writers := Lock.Initial, [];
    }

    /** `withCacheWrite` up to where it awaits its turn. */
    method Announce(size: nat) returns (writer: nat)
      modifies this
      ensures View() == Next(old(View()), Arrive(size), limits) && writer == |old(writers)|
    {
      writer := |writers|;
      queue := Lock.Next(queue, Lock.Arrive(QUEUE));
      writers := writers + [Writer(size, false)];
    }

    /** `assertCacheCapacity`; a refused writer lets the next one in. */
    method AssertCacheCapacity(writer: nat) returns (admitted: bool)
      requires Enabled(View(), Check(writer))
      modifies this
      ensures View() == Next(old(View()), Check(writer), limits)
      ensures admitted <==> old(used + writers[writer].size) <= limits.maxCacheBytes
    {
      admitted := used + writers[writer].size <= limits.maxCacheBytes;
      if admitted {
        writers := writers[writer := writers[writer].(admitted := true)];
      } else {
        queue := Lock.Next(queue, Lock.Leave(writer));
      }
    }
  }
}
