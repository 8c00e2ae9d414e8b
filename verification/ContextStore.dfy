/** The revisioned context store, for one context file: operations queue up behind each other, loads
    do not. An operation starts when its turn comes, may load the file and wait, and then finishes. */
module ContextStore {
  import opened LinkRetention
  import Lock = PromiseLock

  datatype Maybe<T> = Nothing | Just(value: T)

  datatype Context = Context(body: string, links: Maybe<seq<RetainedLink>>)

  /** A file that is not valid or too large loads as nothing. */
  datatype File = Absent | Stored(context: Context) | Invalid | TooLarge

  datatype Memory = Memory(file: File, revision: nat)

  /** `expected` is the revision a loaded context carries with it. */
  datatype Op =
    | Save(context: Context, expected: Maybe<nat>)
    | Update(change: Context -> Context)
    | Retain(links: seq<RetainedLink>)
    | Sync(links: seq<RetainedLink>)
    | Delete

  datatype Result = Written | Unchanged | Missing | Deleted | Conflict | Failed

  function Loaded(f: File): Maybe<Context> { if f.Stored? then Just(f.context) else Nothing }

  function LinksOfContext(c: Context): seq<RetainedLink> { if c.links.Just? then c.links.value else [] }

  /** What a context is on disk. */
  function OnDisk(c: Context): Context {
    c.(links := if c.links.Just? then Just(Normalized(c.links.value)) else Nothing)
  }

  /** `ok` says that the content is within the size limit and the file system does its part. */
  function Write(m: Memory, c: Context, ok: bool): (Memory, Result) {
    if m.file.TooLarge? || !ok then (m, Failed) else (Memory(Stored(OnDisk(c)), m.revision + 1), Written)
  }

  function WriteLinks(m: Memory, c: Context, links: seq<RetainedLink>, ok: bool): (Memory, Result) {
    if LinksOfContext(c) == links then (m, Unchanged) else Write(m, c.(links := Just(links)), ok)
  }

  /** The end of an operation, with the context it loaded when it started. */
  function Finished(m: Memory, op: Op, loaded: Maybe<Context>, ok: bool): (Memory, Result) {
    match op
    case Save(context, expected) =>
      if m.file.TooLarge? then (m, Failed)
      else if (expected.Nothing? && (m.revision != 0 || !m.file.Absent?)) || (expected.Just? && expected.value != m.revision)
      then (m, Conflict)
      else Write(m, context, ok)
    case Update(change) => if loaded.Nothing? then (m, Missing) else Write(m, change(loaded.value), ok)
    case Retain(links) =>
      if loaded.Nothing? then (m, Missing)
      else WriteLinks(m, loaded.value, Normalized(LinksOfContext(loaded.value) + links), ok)
    case Sync(links) => if loaded.Nothing? then (m, Missing) else WriteLinks(m, loaded.value, Normalized(links), ok)
    case Delete =>
      if m.file.Absent? then (m.(revision := m.revision + 1), Deleted)
      else if m.file.TooLarge? || !ok then (m, Failed)
      else (Memory(Absent, m.revision + 1), Deleted)
  }

  /** The operation as if nothing else happened while it ran. */
  function Applied(m: Memory, op: Op, ok: bool): (Memory, Result) { Finished(m, op, Loaded(m.file), ok) }

  // ---------------------------------------------------------------- the store and its steps

  /** `loaded` is set once the operation has read the file, `ok` and `result` once it is over. */
  datatype Job = Job(op: Op, loaded: Maybe<Maybe<Context>>, ok: bool, result: Maybe<Result>)

  datatype Handle = Handle(context: Context, revision: nat)

  /** Jobs are numbered like the callers of the lock. */
  datatype Store = Store(locks: Lock.Locks, jobs: seq<Job>, memory: Memory, handles: seq<Handle>)

  datatype Step =
    | Call(op: Op)
    | Start(job: nat)
    | Read(job: nat)
    | Finish(job: nat, ok: bool)
    | Forget(job: nat)
    | Load

  const FILE := "file"

  function Begin(m: Memory): Store { Store(Lock.Initial, [], m, []) }

  predicate Loads(op: Op) { op.Update? || op.Retain? || op.Sync? }

  ghost predicate Enabled(s: Store, step: Step) {
    match step
    case Call(op) => op.Save? && op.expected.Just? ==> exists i :: 0 <= i < |s.handles| && s.handles[i].revision == op.expected.value
    case Start(c) => c < |s.jobs| && Lock.Enabled(s.locks, Lock.Enter(c))
    case Read(c) => c < |s.jobs| && Lock.Enabled(s.locks, Lock.Leave(c)) && s.jobs[c].loaded.Nothing?
    case Finish(c, _) => c < |s.jobs| && Lock.Enabled(s.locks, Lock.Leave(c)) && (Loads(s.jobs[c].op) ==> s.jobs[c].loaded.Just?)
    case Forget(c) => Lock.Enabled(s.locks, Lock.Forget(c))
    case Load => true
  }

  ghost function Next(s: Store, step: Step): Store
    requires Enabled(s, step)
  {
    match step
    case Call(op) =>
      s.(locks := Lock.Next(s.locks, Lock.Arrive(FILE)), jobs := s.jobs + [Job(op, Nothing, false, Nothing)])
    case Start(c) => s.(locks := Lock.Next(s.locks, Lock.Enter(c)))
    case Read(c) => s.(jobs := s.jobs[c := s.jobs[c].(loaded := Just(Loaded(s.memory.file)))])
    case Finish(c, ok) =>
      var t := s.jobs[c];
      var (m, result) := Finished(s.memory, t.op, if t.loaded.Just? then t.loaded.value else Nothing, ok);
      s.(locks := Lock.Next(s.locks, Lock.Leave(c)), jobs := s.jobs[c := t.(ok := ok, result := Just(result))], memory := m)
    case Forget(c) => s.(locks := Lock.Next(s.locks, Lock.Forget(c)))
    case Load =>
      if s.memory.file.Stored? then s.(handles := s.handles + [Handle(s.memory.file.context, s.memory.revision)]) else s
  }

  ghost predicate IsRun(s: Store, steps: seq<Step>, t: Store)
    decreases |steps|
  {
    if steps == [] then s == t else Enabled(s, steps[0]) && IsRun(Next(s, steps[0]), steps[1..], t)
  }

  // ---------------------------------------------------------------- one operation at a time

  /** The memory after the first `n` jobs one after the other. */
  ghost function InTurn(m: Memory, jobs: seq<Job>, n: nat): Memory
    requires n <= |jobs|
  {
    if n == 0 then m else Applied(InTurn(m, jobs, n - 1), jobs[n - 1].op, jobs[n - 1].ok).0
  }

  /** The first `n` calls are over, and no other. */
  ghost predicate Front(callers: seq<Lock.Caller>, n: nat) {
    n <= |callers| && (forall c :: 0 <= c < n ==> callers[c].phase == Lock.Phase.Released) &&
    forall c :: n <= c < |callers| ==> callers[c].phase != Lock.Phase.Released
  }

  ghost predicate JobInv(s: Store, c: nat)
    requires c < |s.jobs| && c < |s.locks.callers|
  {
    var t := s.jobs[c];
    s.locks.callers[c].key == FILE &&
    (s.locks.callers[c].phase == Lock.Phase.Waiting ==> t.loaded.Nothing?) &&
    (s.locks.callers[c].phase == Lock.Phase.Holding && t.loaded.Just? ==> t.loaded.value == Loaded(s.memory.file)) &&
    (t.result.Just? <==> s.locks.callers[c].phase == Lock.Phase.Released)
  }

  ghost predicate HandleInv(s: Store, i: nat)
    requires i < |s.handles|
  {
    var h := s.handles[i];
    h.revision <= s.memory.revision && (h.revision == s.memory.revision ==> s.memory.file == Stored(h.context))
  }

  /** The jobs over are the first ones, and the memory is what they leave behind one by one. */
  ghost predicate Inv(s: Store, m: Memory, n: nat) {
    Lock.Inv(s.locks) && |s.locks.callers| == |s.jobs| && Front(s.locks.callers, n) &&
    (forall c :: 0 <= c < |s.jobs| ==> JobInv(s, c)) && (forall i :: 0 <= i < |s.handles| ==> HandleInv(s, i)) &&
    s.memory == InTurn(m, s.jobs, n) && ResultsInv(m, s.jobs, n)
  }

  /** The jobs that are over have the results they have one after the other. */
  ghost predicate ResultsInv(m: Memory, jobs: seq<Job>, n: nat)
    requires n <= |jobs|
  {
    forall c :: 0 <= c < n ==> jobs[c].result == Just(Applied(InTurn(m, jobs, c), jobs[c].op, jobs[c].ok).1)
  }

  lemma {:induction false} ResultsSame(m: Memory, a: seq<Job>, b: seq<Job>, n: nat)
    requires n <= |a| && n <= |b| && ResultsInv(m, a, n)
    requires forall i :: 0 <= i < n ==> a[i].op == b[i].op && a[i].ok == b[i].ok && a[i].result == b[i].result
    ensures ResultsInv(m, b, n)
  {
    hide Applied;
    forall c | 0 <= c < n ensures b[c].result == Just(Applied(InTurn(m, b, c), b[c].op, b[c].ok).1) { InTurnSame(m, a, b, c); }
  }

  lemma {:induction false} InTurnSame(m: Memory, a: seq<Job>, b: seq<Job>, n: nat)
    requires n <= |a| && n <= |b| && forall i :: 0 <= i < n ==> a[i].op == b[i].op && a[i].ok == b[i].ok
    ensures InTurn(m, a, n) == InTurn(m, b, n)
  {
    if n > 0 { InTurnSame(m, a, b, n - 1); }
  }

  /** The file never changes without its revision, and the revision never goes back. */
  lemma {:induction false} RevisionGrows(m: Memory, op: Op, loaded: Maybe<Context>, ok: bool)
    ensures var (m', r) := Finished(m, op, loaded, ok);
      (r == Written || r == Deleted ==> m'.revision == m.revision + 1) &&
      (r != Written && r != Deleted ==> m' == m)
  {
    hide Normalized;
  }

  // ---------------------------------------------------------------- each step keeps the invariant

  lemma {:induction false} CallKeeps(s: Store, op: Op, m: Memory, n: nat)
    requires Inv(s, m, n) && Enabled(s, Call(op))
    ensures Inv(Next(s, Call(op)), m, n)
  {
    hide Finished, Normalized, Lock.Inv;
    var s' := Next(s, Call(op));
    Lock.NextKeepsInv(s.locks, Lock.Arrive(FILE));
    InTurnSame(m, s.jobs, s'.jobs, n);
    ResultsSame(m, s.jobs, s'.jobs, n);
    hide ResultsInv;
    forall c | 0 <= c < |s'.jobs| ensures JobInv(s', c) { if c < |s.jobs| { assert JobInv(s, c); } }
    forall i | 0 <= i < |s'.handles| ensures HandleInv(s', i) { assert HandleInv(s, i); }
  }

  lemma {:induction false} StartKeeps(s: Store, c: nat, m: Memory, n: nat)
    requires Inv(s, m, n) && Enabled(s, Start(c))
    ensures Inv(Next(s, Start(c)), m, n)
  {
    hide Finished, Normalized, Lock.Inv;
    var s' := Next(s, Start(c));
    Lock.NextKeepsInv(s.locks, Lock.Enter(c));
    forall d | 0 <= d < |s'.jobs| ensures JobInv(s', d) { assert JobInv(s, d); }
    forall i | 0 <= i < |s'.handles| ensures HandleInv(s', i) { assert HandleInv(s, i); }
  }

  lemma {:induction false} ReadKeeps(s: Store, c: nat, m: Memory, n: nat)
    requires Inv(s, m, n) && Enabled(s, Read(c))
    ensures Inv(Next(s, Read(c)), m, n)
  {
    hide Finished, Normalized, Lock.Inv;
    var s' := Next(s, Read(c));
    InTurnSame(m, s.jobs, s'.jobs, n);
    ResultsSame(m, s.jobs, s'.jobs, n);
    hide ResultsInv;
    forall d | 0 <= d < |s'.jobs| ensures JobInv(s', d) { assert JobInv(s, d); }
    forall i | 0 <= i < |s'.handles| ensures HandleInv(s', i) { assert HandleInv(s, i); }
  }

  /** The job that holds the lock is the first one that is not over. */
  lemma {:induction false} HolderIsFront(s: Store, c: nat, n: nat)
    requires Lock.Inv(s.locks) && |s.locks.callers| == |s.jobs| && Front(s.locks.callers, n) && c < |s.jobs| && s.locks.callers[c].phase == Lock.Phase.Holding
    requires forall d :: 0 <= d < |s.jobs| ==> s.locks.callers[d].key == FILE
    ensures c == n
  {
    assert n < |s.jobs| ==> s.locks.callers[n].key == FILE;
    assert Lock.Done(s.locks, FILE, c);
  }

  lemma {:induction false} AllOneKey(s: Store, m: Memory, n: nat)
    requires Inv(s, m, n)
    ensures forall d :: 0 <= d < |s.jobs| ==> s.locks.callers[d].key == FILE
  {
    forall d | 0 <= d < |s.jobs| ensures s.locks.callers[d].key == FILE { assert JobInv(s, d); }
  }

  lemma {:induction false} FinishKeeps(s: Store, c: nat, ok: bool, m: Memory, n: nat)
    requires Inv(s, m, n) && Enabled(s, Finish(c, ok))
    ensures c == n && Inv(Next(s, Finish(c, ok)), m, n + 1)
    ensures Next(s, Finish(c, ok)).memory == Applied(s.memory, s.jobs[c].op, ok).0
  {
    hide Normalized, Lock.Inv, ResultsInv;
    var s', j := Next(s, Finish(c, ok)), s.jobs[c];
    AllOneKey(s, m, n);
    HolderIsFront(s, c, n);
    Lock.NextKeepsInv(s.locks, Lock.Leave(c));
    assert JobInv(s, c);
    FinishedAlone(s.memory, j, ok);
    RevisionGrows(s.memory, j.op, if j.loaded.Just? then j.loaded.value else Nothing, ok);
    FinishedResult(s, c, ok, m, n);
    hide Finished;
    InTurnSame(m, s.jobs, s'.jobs, n);
    forall d | 0 <= d < |s'.jobs| ensures JobInv(s', d) {
      assert JobInv(s, d);
      if d != c && s.locks.callers[d].phase == Lock.Phase.Holding { Lock.OneHolder(s.locks, c, d); }
    }
    forall i | 0 <= i < |s'.handles| ensures HandleInv(s', i) { assert HandleInv(s, i); }
  }

  lemma {:induction false} FinishedResult(s: Store, c: nat, ok: bool, m: Memory, n: nat)
    requires n == c < |s.jobs| && Enabled(s, Finish(c, ok)) && ResultsInv(m, s.jobs, n) && s.memory == InTurn(m, s.jobs, n)
    requires s.jobs[c].loaded.Just? ==> s.jobs[c].loaded.value == Loaded(s.memory.file)
    ensures ResultsInv(m, Next(s, Finish(c, ok)).jobs, n + 1)
  {
    var jobs := Next(s, Finish(c, ok)).jobs;
    FinishedAlone(s.memory, s.jobs[c], ok);
    hide Finished;
    ResultsSame(m, s.jobs, jobs, n);
    InTurnSame(m, s.jobs, jobs, n);
  }

  /** What a job loaded is still there when it finishes, so it ends as if it had run alone. */
  lemma {:induction false} FinishedAlone(m: Memory, j: Job, ok: bool)
    requires Loads(j.op) ==> j.loaded.Just?
    requires j.loaded.Just? ==> j.loaded.value == Loaded(m.file)
    ensures Finished(m, j.op, if j.loaded.Just? then j.loaded.value else Nothing, ok) == Applied(m, j.op, ok)
  {
    hide Normalized, Write, WriteLinks;
  }

  lemma {:induction false} ForgetKeeps(s: Store, c: nat, m: Memory, n: nat)
    requires Inv(s, m, n) && Enabled(s, Forget(c))
    ensures Inv(Next(s, Forget(c)), m, n)
  {
    hide Finished, Normalized, Lock.Inv;
    var s' := Next(s, Forget(c));
    Lock.NextKeepsInv(s.locks, Lock.Forget(c));
    assert s'.locks.callers == s.locks.callers;
    forall d | 0 <= d < |s'.jobs| ensures JobInv(s', d) { assert JobInv(s, d); }
    forall i | 0 <= i < |s'.handles| ensures HandleInv(s', i) { assert HandleInv(s, i); }
  }

  lemma {:induction false} LoadKeeps(s: Store, m: Memory, n: nat)
    requires Inv(s, m, n)
    ensures Inv(Next(s, Load), m, n)
  {
    hide Finished, Normalized, Lock.Inv;
    var s' := Next(s, Load);
    forall d | 0 <= d < |s'.jobs| ensures JobInv(s', d) { assert JobInv(s, d); }
    forall i | 0 <= i < |s'.handles| ensures HandleInv(s', i) { if i < |s.handles| { assert HandleInv(s, i); } }
  }

  lemma {:induction false} NextKeeps(s: Store, step: Step, m: Memory, n: nat) returns (k: nat)
    requires Inv(s, m, n) && Enabled(s, step)
    ensures k >= n && Inv(Next(s, step), m, k)
  {
    hide Inv, Next, Enabled;
    k := n;
    match step {
      case Call(op) => CallKeeps(s, op, m, n);
      case Start(c) => StartKeeps(s, c, m, n);
      case Read(c) => ReadKeeps(s, c, m, n);
      case Finish(c, ok) => FinishKeeps(s, c, ok, m, n); k := n + 1;
      case Forget(c) => ForgetKeeps(s, c, m, n);
      case Load => LoadKeeps(s, m, n);
    }
  }

  lemma {:induction false} RunKeeps(s: Store, steps: seq<Step>, t: Store, m: Memory, n: nat) returns (k: nat)
    requires Inv(s, m, n) && IsRun(s, steps, t)
    ensures k >= n && Inv(t, m, k)
    decreases |steps|
  {
    hide Inv, Next, Enabled;
    k := n;
    if steps != [] {
      k := NextKeeps(s, steps[0], m, n);
      k := RunKeeps(Next(s, steps[0]), steps[1..], t, m, k);
    }
  }

  // ---------------------------------------------------------------- what callers may rely on

  /** In every interleaving the operations take effect one after the other in the order of the calls,
      each on what the one before left behind: those over are the first `n`. */
  lemma {:induction false} InCallOrder(m: Memory, steps: seq<Step>, t: Store) returns (n: nat)
    requires IsRun(Begin(m), steps, t)
    ensures |t.locks.callers| == |t.jobs| && Front(t.locks.callers, n) && t.memory == InTurn(m, t.jobs, n)
  {
    BeginInv(m);
    n := RunKeeps(Begin(m), steps, t, m, 0);
  }

  lemma {:induction false} BeginInv(m: Memory)
    ensures Inv(Begin(m), m, 0)
  {
  }

  /** An update that finishes acts on the content that is stored at that moment, and retaining links
      leaves the normal form of the stored and the new links, whatever was loaded or saved meanwhile. */
  lemma {:induction false} FinishActsOnLatest(m: Memory, steps: seq<Step>, t: Store, c: nat, ok: bool)
    requires IsRun(Begin(m), steps, t) && Enabled(t, Finish(c, ok))
    ensures Next(t, Finish(c, ok)).memory == Applied(t.memory, t.jobs[c].op, ok).0
  {
    BeginInv(m);
    var n := RunKeeps(Begin(m), steps, t, m, 0);
    FinishKeeps(t, c, ok, m, n);
  }

  /** A save of a loaded context succeeds only if the file still holds what was loaded. */
  lemma {:induction false} SaveOnlyOverLoaded(m: Memory, steps: seq<Step>, t: Store, c: nat, ok: bool, h: nat)
    requires IsRun(Begin(m), steps, t) && Enabled(t, Finish(c, ok)) && t.jobs[c].op.Save? && h < |t.handles|
    requires t.jobs[c].op.expected == Just(t.handles[h].revision)
    ensures Applied(t.memory, t.jobs[c].op, ok).1 == Written <==>
      t.memory.revision == t.handles[h].revision && ok
    ensures Applied(t.memory, t.jobs[c].op, ok).1 == Written ==> t.memory.file == Stored(t.handles[h].context)
  {
    BeginInv(m);
    var n := RunKeeps(Begin(m), steps, t, m, 0);
    assert HandleInv(t, h);
    hide Normalized;
  }

  lemma {:induction false} NewSaveNeedsNothing(m: Memory, context: Context, ok: bool)
    ensures Applied(m, Save(context, Nothing), ok).1 == Written <==> ok && m == Memory(Absent, 0)
  {
    hide Normalized;
  }

  predicate Changed(r: Maybe<Result>) { r == Just(Written) || r == Just(Deleted) }

  /** Between two moments the revision is the same exactly if nothing was written or deleted. */
  lemma {:induction false} RevisionSame(m: Memory, jobs: seq<Job>, k: nat, i: nat, j: nat)
    requires i <= j <= k <= |jobs| && ResultsInv(m, jobs, k)
    ensures InTurn(m, jobs, i).revision <= InTurn(m, jobs, j).revision
    ensures InTurn(m, jobs, i).revision == InTurn(m, jobs, j).revision <==> forall l :: i <= l < j ==> !Changed(jobs[l].result)
    decreases j
  {
    hide InTurn, Applied;
    if i < j {
      RevisionSame(m, jobs, k, i, j - 1);
      RevisionStep(m, jobs, j - 1);
    }
  }

  lemma {:induction false} RevisionStep(m: Memory, jobs: seq<Job>, i: nat)
    requires i < |jobs| && jobs[i].result == Just(Applied(InTurn(m, jobs, i), jobs[i].op, jobs[i].ok).1)
    ensures InTurn(m, jobs, i + 1).revision == InTurn(m, jobs, i).revision + if Changed(jobs[i].result) then 1 else 0
  {
    hide Finished, Normalized;
    var before := InTurn(m, jobs, i);
    RevisionGrows(before, jobs[i].op, Loaded(before.file), jobs[i].ok);
  }

  lemma {:induction false} BeforeAll(m: Memory, jobs: seq<Job>)
    ensures InTurn(m, jobs, 0) == m
  {
  }

  predicate NewSave(op: Op) { op.Save? && op.expected == Nothing }

  /** In any run the save of a context that was never loaded is written if and only if the write
      itself succeeds, the file did not exist and no write or delete came before; so at most one such
      save is ever written. */
  lemma {:induction false} NewSaveIsFirst(m: Memory, steps: seq<Step>, t: Store, c: nat)
    requires IsRun(Begin(m), steps, t) && c < |t.jobs| && NewSave(t.jobs[c].op) && t.jobs[c].result.Just?
    ensures t.jobs[c].result == Just(Written) <==>
      t.jobs[c].ok && m == Memory(Absent, 0) && forall i :: 0 <= i < c ==> !Changed(t.jobs[i].result)
    ensures t.jobs[c].result == Just(Written) ==>
      forall i :: 0 <= i < |t.jobs| && i != c && NewSave(t.jobs[i].op) ==> t.jobs[i].result != Just(Written)
  {
    BeginInv(m);
    var n := RunKeeps(Begin(m), steps, t, m, 0);
    assert JobInv(t, c) && c < n;
    FirstChange(m, t.jobs, n, c);
    if t.jobs[c].result == Just(Written) {
      forall i | 0 <= i < |t.jobs| && i != c && NewSave(t.jobs[i].op) ensures t.jobs[i].result != Just(Written) {
        assert JobInv(t, i);
        if t.jobs[i].result == Just(Written) && i > c { FirstChange(m, t.jobs, n, i); }
      }
    }
  }

  /** A new save that is over was written exactly if it found the file absent and never changed. */
  lemma {:induction false} FirstChange(m: Memory, jobs: seq<Job>, n: nat, c: nat)
    requires c < n <= |jobs| && ResultsInv(m, jobs, n) && NewSave(jobs[c].op)
    ensures jobs[c].result == Just(Written) <==>
      jobs[c].ok && m == Memory(Absent, 0) && forall i :: 0 <= i < c ==> !Changed(jobs[i].result)
  {
    NewSaveNeedsNothing(InTurn(m, jobs, c), jobs[c].op.context, jobs[c].ok);
    RevisionSame(m, jobs, n, 0, c);
    SameRevisionSameFile(m, jobs, 0, c);
    BeforeAll(m, jobs);
    hide Applied, InTurn;
  }

  /** The context is kept with its body, and with the normal form of its links if it has any. */
  ghost predicate KeptAs(f: File, c: Context) {
    f.Stored? && f.context.body == c.body && f.context.links.Just? == c.links.Just? &&
    (c.links.Just? ==> f.context.links.value == Normalized(c.links.value))
  }

  /** What one operation does to the stored file, by its result. */
  ghost predicate Does(before: Memory, op: Op, ok: bool, result: Result, after: Memory) {
    (result == Written || result == Deleted || after == before) &&
    (result == Written || result == Deleted ==> after.revision == before.revision + 1) &&
    match op
    case Save(context, expected) =>
      (result == Written ==> KeptAs(after.file, context)) && (result == Written || result == Conflict || result == Failed) &&
      (result == Conflict <==> !before.file.TooLarge? && !(before == Memory(Absent, 0) && expected.Nothing?) && expected != Just(before.revision))
    case Update(change) =>
      (result == Written <==> before.file.Stored? && ok) && (result == Missing <==> !before.file.Stored?) &&
      (result == Written ==> KeptAs(after.file, change(before.file.context)))
    case Retain(links) => DoesLinks(before, (was: seq<RetainedLink>) => Normalized(was + links), ok, result, after)
    case Sync(links) => DoesLinks(before, (was: seq<RetainedLink>) => Normalized(links), ok, result, after)
    case Delete =>
      (result == Deleted <==> before.file.Absent? || (ok && !before.file.TooLarge?)) && (result == Deleted ==> after.file == Absent)
  }

  /** The links become `next` of what they were, with the body left alone, unless they are that already. */
  ghost predicate DoesLinks(before: Memory, next: seq<RetainedLink> -> seq<RetainedLink>, ok: bool, result: Result, after: Memory) {
    (result == Missing <==> !before.file.Stored?) &&
    (before.file.Stored? ==>
       var was := LinksOfContext(before.file.context);
       (result == Unchanged <==> next(was) == was) && (result == Written <==> next(was) != was && ok) &&
       (result == Written ==> after.file == Stored(Context(before.file.context.body, Just(next(was))))))
  }

  lemma {:induction false} OpDoes(m: Memory, op: Op, ok: bool)
    ensures Does(m, op, ok, Applied(m, op, ok).1, Applied(m, op, ok).0)
  {
    hide Normalized;
    match op {
      case Retain(links) => if m.file.Stored? { NormalizedIdempotent(LinksOfContext(m.file.context) + links); }
      case Sync(links) => NormalizedIdempotent(links);
      case _ =>
    }
  }

  /** In any run, the result of every operation that is over says exactly what it did to the file that the
      operations before it had left. */
  lemma {:induction false} ResultSays(m: Memory, steps: seq<Step>, t: Store, c: nat)
    requires IsRun(Begin(m), steps, t) && c < |t.jobs| && t.jobs[c].result.Just?
    ensures Does(InTurn(m, t.jobs, c), t.jobs[c].op, t.jobs[c].ok, t.jobs[c].result.value, InTurn(m, t.jobs, c + 1))
  {
    BeginInv(m);
    var n := RunKeeps(Begin(m), steps, t, m, 0);
    assert JobInv(t, c) && c < n;
    OpDoes(InTurn(m, t.jobs, c), t.jobs[c].op, t.jobs[c].ok);
    hide Applied, Does;
  }

  // ---------------------------------------------------------------- operations end, and what was loaded can be saved

  lemma {:induction false} RunJoins(s: Store, early: seq<Step>, t: Store, late: seq<Step>, u: Store)
    requires IsRun(s, early, t) && IsRun(t, late, u)
    ensures IsRun(s, early + late, u)
    decreases |early|
  {
    hide Next, Enabled;
    if early == [] {
      assert [] + late == late;
    } else {
      RunJoins(Next(s, early[0]), early[1..], t, late, u);
      assert (early + late)[0] == early[0] && (early + late)[1..] == early[1..] + late;
    }
  }

  lemma {:induction false} RunOn(s: Store, steps: seq<Step>, t: Store, step: Step)
    requires IsRun(s, steps, t) && Enabled(t, step)
    ensures IsRun(s, steps + [step], Next(t, step))
  {
    assert IsRun(Next(t, step), [step][1..], Next(t, step));
    hide Next, Enabled;
    RunJoins(s, steps, t, [step], Next(t, step));
  }

  /** The first operation that is not over can start, load and end, with either outcome of its write. */
  lemma {:induction false} FrontEnds(s: Store, m: Memory, n: nat, ok: bool) returns (steps: seq<Step>, t: Store)
    requires Inv(s, m, n) && n < |s.jobs|
    ensures IsRun(s, steps, t) && Inv(t, m, n + 1) && |t.jobs| == |s.jobs| && t.jobs[n].ok == ok
  {
    hide Finished, InTurn, ResultsInv;
    steps, t := [], s;
    if s.locks.callers[n].phase.Waiting? {
      FrontMayStart(s, m, n);
      StartKeeps(s, n, m, n);
      RunOn(s, [], s, Start(n));
      steps, t := [] + [Start(n)], Next(s, Start(n));
    }
    assert JobInv(t, n) && t.locks.callers[n].phase.Holding?;
    if t.jobs[n].loaded.Nothing? {
      ReadKeeps(t, n, m, n);
      RunOn(s, steps, t, Read(n));
      steps, t := steps + [Read(n)], Next(t, Read(n));
    }
    FinishKeeps(t, n, ok, m, n);
    RunOn(s, steps, t, Finish(n, ok));
    steps, t := steps + [Finish(n, ok)], Next(t, Finish(n, ok));
  }

  lemma {:induction false} FrontMayStart(s: Store, m: Memory, n: nat)
    requires Inv(s, m, n) && n < |s.jobs| && s.locks.callers[n].phase.Waiting?
    ensures Enabled(s, Start(n))
  {
    AllOneKey(s, m, n);
    assert Lock.Linked(s.locks, n);
  }

  lemma {:induction false} EndsInTurn(s: Store, m: Memory, n: nat, c: nat, ok: bool) returns (steps: seq<Step>, t: Store)
    requires Inv(s, m, n) && n <= c < |s.jobs|
    ensures IsRun(s, steps, t) && Inv(t, m, c + 1) && |t.jobs| == |s.jobs| && t.jobs[c].ok == ok
    decreases c - n
  {
    hide Inv, Next, Enabled;
    steps, t := FrontEnds(s, m, n, ok);
    if n < c {
      var more, u := EndsInTurn(t, m, n + 1, c, ok);
      RunJoins(s, steps, t, more, u);
      steps, t := steps + more, u;
    }
  }

  /** However far a run has come, every operation that is not over can still end, either way. */
  lemma {:induction false} EveryCallEnds(m: Memory, steps: seq<Step>, t: Store, c: nat, ok: bool) returns (more: seq<Step>, u: Store)
    requires IsRun(Begin(m), steps, t) && c < |t.jobs| && t.jobs[c].result.Nothing?
    ensures IsRun(t, more, u) && |u.jobs| == |t.jobs| && u.jobs[c].result.Just? && u.jobs[c].ok == ok
  {
    BeginInv(m);
    var n := RunKeeps(Begin(m), steps, t, m, 0);
    assert JobInv(t, c) && n <= c;
    more, u := EndsInTurn(t, m, n, c, ok);
    hide InTurn, ResultsInv, IsRun;
    assert JobInv(u, c);
  }

  /** What was called stays as it was called, and what is over stays as it is. */
  lemma {:induction false} JobsStay(s: Store, steps: seq<Step>, t: Store, m: Memory, n: nat, c: nat)
    requires Inv(s, m, n) && IsRun(s, steps, t) && c < |s.jobs|
    ensures |s.jobs| <= |t.jobs| && t.jobs[c].op == s.jobs[c].op && (s.jobs[c].result.Just? ==> t.jobs[c] == s.jobs[c])
    decreases |steps|
  {
    if steps != [] {
      var k := NextKeeps(s, steps[0], m, n);
      JobStays(s, steps[0], m, n, c);
      hide Inv, Next, Enabled;
      JobsStay(Next(s, steps[0]), steps[1..], t, m, k, c);
    }
  }

  lemma {:induction false} JobStays(s: Store, step: Step, m: Memory, n: nat, c: nat)
    requires Inv(s, m, n) && Enabled(s, step) && c < |s.jobs|
    ensures var t := Next(s, step);
      |s.jobs| <= |t.jobs| && t.jobs[c].op == s.jobs[c].op && (s.jobs[c].result.Just? ==> t.jobs[c] == s.jobs[c])
  {
    hide Finished, InTurn, ResultsInv, Lock.Inv;
    assert JobInv(s, c);
  }

  /** A context that was loaded can be given to a save, which is then written exactly if its write succeeds and
      none of the operations that were still under way at the load changes the file before. */
  lemma {:induction false} SaveAfterLoad(m: Memory, steps: seq<Step>, t: Store, context: Context, more: seq<Step>, w: Store)
    requires IsRun(Begin(m), steps, t) && t.memory.file.Stored?
    ensures var save := Call(Save(context, Just(t.memory.revision))); var u := Next(t, Load);
      Enabled(u, save) &&
      (IsRun(Next(u, save), more, w) && |t.jobs| < |w.jobs| && w.jobs[|t.jobs|].result.Just? ==>
         (w.jobs[|t.jobs|].result == Just(Written) <==>
            w.jobs[|t.jobs|].ok && forall i :: 0 <= i < |t.jobs| && t.jobs[i].result.Nothing? ==> !Changed(w.jobs[i].result)))
  {
    BeginInv(m);
    var n := RunKeeps(Begin(m), steps, t, m, 0);
    var u, save := Next(t, Load), Call(Save(context, Just(t.memory.revision)));
    assert u.handles[|t.handles|].revision == t.memory.revision;
    LoadKeeps(t, m, n);
    CallKeeps(u, save.op, m, n);
    if IsRun(Next(u, save), more, w) && |t.jobs| < |w.jobs| && w.jobs[|t.jobs|].result.Just? {
      SaveInTurn(t, Next(u, save), more, w, m, n, context);
    }
  }

  lemma {:induction false} SaveInTurn(t: Store, s: Store, more: seq<Step>, w: Store, m: Memory, n: nat, context: Context)
    requires Inv(t, m, n) && Inv(s, m, n) && IsRun(s, more, w) && t.memory.file.Stored?
    requires s.jobs == t.jobs + [Job(Save(context, Just(t.memory.revision)), Nothing, false, Nothing)]
    requires |t.jobs| < |w.jobs| && w.jobs[|t.jobs|].result.Just?
    ensures w.jobs[|t.jobs|].result == Just(Written) <==>
      w.jobs[|t.jobs|].ok && forall i :: 0 <= i < |t.jobs| && t.jobs[i].result.Nothing? ==> !Changed(w.jobs[i].result)
  {
    var c := |t.jobs|;
    var k := RunKeeps(s, more, w, m, n);
    forall i | 0 <= i < |s.jobs|
      ensures i < |w.jobs| && w.jobs[i].op == s.jobs[i].op && (s.jobs[i].result.Just? ==> w.jobs[i] == s.jobs[i])
    {
      JobsStay(s, more, w, m, n, i);
    }
    hide IsRun;
    assert c < k by { assert JobInv(w, c); }
    forall i | 0 <= i < c ensures t.jobs[i].result.Just? <==> i < n { assert JobInv(t, i); }
    InTurnSame(m, t.jobs, w.jobs, n);
    RevisionSame(m, w.jobs, k, n, c);
    SameRevisionSameFile(m, w.jobs, n, c);
    hide Inv, InTurn, Normalized;
  }

  /** Retaining links leaves exactly the normal form of old and new links: normalizing again when the
      file is written changes nothing. */
  lemma {:induction false} RetainExact(m: Memory, links: seq<RetainedLink>, ok: bool)
    requires m.file.Stored? && ok
    ensures var (m', r) := Applied(m, Retain(links), ok);
      m'.file.Stored? && m'.file.context.body == m.file.context.body &&
      LinksOfContext(m'.file.context) == Normalized(LinksOfContext(m.file.context) + links)
  {
    hide Normalized;
    var normal := Normalized(LinksOfContext(m.file.context) + links);
    NormalizedIdempotent(LinksOfContext(m.file.context) + links);
    WriteLinksExact(m, m.file.context, normal, ok);
  }

  lemma {:induction false} WriteLinksExact(m: Memory, c: Context, links: seq<RetainedLink>, ok: bool)
    requires m.file == Stored(c) && ok && Normalized(links) == links
    ensures var m' := WriteLinks(m, c, links, ok).0;
      m'.file.Stored? && m'.file.context.body == c.body && LinksOfContext(m'.file.context) == links
  {
    hide Normalized;
  }

  /** The file at two moments with the same revision is the same file. */
  lemma {:induction false} SameRevisionSameFile(m: Memory, jobs: seq<Job>, i: nat, j: nat)
    requires i <= j <= |jobs|
    ensures InTurn(m, jobs, i).revision <= InTurn(m, jobs, j).revision
    ensures InTurn(m, jobs, i).revision == InTurn(m, jobs, j).revision ==> InTurn(m, jobs, i) == InTurn(m, jobs, j)
    decreases j - i
  {
    if i < j {
      SameRevisionSameFile(m, jobs, i, j - 1);
      var before := InTurn(m, jobs, j - 1);
      RevisionGrows(before, jobs[j - 1].op, Loaded(before.file), jobs[j - 1].ok);
      hide Finished, Normalized;
    }
  }

  // ---------------------------------------------------------------- the store object

  /** Files and revisions by path. A method is the end of an operation, when its turn has come. */
  class SessionContextStore {
    var files: map<string, File>
    var revisions: map<string, nat>

    function Revision(path: string): nat
      reads this
    {
      if path in revisions then revisions[path] else 0
    }

    function FileAt(path: string): File
      reads this
    {
      if path in files then files[path] else Absent
    }

    function View(path: string): Memory
      reads this
    {
      Memory(FileAt(path), Revision(path))
    }

    constructor (files: map<string, File>)
      ensures forall path :: View(path) == Memory(if path in files then files[path] else Absent, 0)
    {
      this.files, revisions := files, map[];
    }

    method WriteContext(path: string, context: Context, ok: bool) returns (r: Result)
      modifies this
      ensures (View(path), r) == Write(old(View(path)), context, ok)
      ensures forall other :: other != path ==> View(other) == old(View(other))
    {
      hide Normalized;
      if FileAt(path).TooLarge? { return Failed; }
      var links := context.links;
      if links.Just? {
        var normal := NormalizeRetainedGitHubLinks(links.value);
        links := Just(normal);
      }
      if !ok { return Failed; }
      files := files[path := Stored(context.(links := links))];
      revisions := revisions[path := Revision(path) + 1];
      return Written;
    }

    method SaveContext(path: string, context: Context, expected: Maybe<nat>, ok: bool) returns (r: Result)
      modifies this
      ensures (View(path), r) == Finished(old(View(path)), Save(context, expected), Nothing, ok)
      ensures forall other :: other != path ==> View(other) == old(View(other))
    {
      hide Normalized;
      if FileAt(path).TooLarge? { return Failed; }
      var revision := Revision(path);
      if (expected.Nothing? && (revision != 0 || !FileAt(path).Absent?)) || (expected.Just? && expected.value != revision) {
        return Conflict;
      }
      r := WriteContext(path, context, ok);
    }

    method UpdateContext(path: string, loaded: Maybe<Context>, change: Context -> Context, ok: bool) returns (r: Result)
      modifies this
      ensures (View(path), r) == Finished(old(View(path)), Update(change), loaded, ok)
      ensures forall other :: other != path ==> View(other) == old(View(other))
    {
      hide Normalized;
      if loaded.Nothing? { return Missing; }
      r := WriteContext(path, change(loaded.value), ok);
    }

    method RetainLinks(path: string, loaded: Maybe<Context>, links: seq<RetainedLink>, ok: bool) returns (r: Result)
      modifies this
      ensures (View(path), r) == Finished(old(View(path)), Retain(links), loaded, ok)
      ensures forall other :: other != path ==> View(other) == old(View(other))
    {
      hide Normalized;
      if loaded.Nothing? { return Missing; }
      var retained := NormalizeRetainedGitHubLinks(LinksOfContext(loaded.value) + links);
      if LinksOfContext(loaded.value) == retained { return Unchanged; }
      r := WriteContext(path, loaded.value.(links := Just(retained)), ok);
    }

    method DeleteContext(path: string, ok: bool) returns (r: Result)
      modifies this
      ensures (View(path), r) == Finished(old(View(path)), Delete, Nothing, ok)
      ensures forall other :: other != path ==> View(other) == old(View(other))
    {
      if !FileAt(path).Absent? {
        if FileAt(path).TooLarge? || !ok { return Failed; }
        files := files - {path};
      }
      revisions := revisions[path := Revision(path) + 1];
      return Deleted;
    }
  }
}
