/** The rotating file log: entries queue up in memory, one drain at a time writes them, and the file
    is rotated through numbered archives before it would grow beyond its limit. */
module FileLog {
  import opened Utf8

  datatype Config = Config(maxBytes: nat, maxFiles: nat, maxQueueEntries: nat, maxQueueBytes: nat)

  /** The files by number: 0 is the log itself, 1 its newest archive. A file is the entries in it. */
  type Files = map<nat, seq<Text>>

  function Size(f: seq<Text>): nat {
    if f == [] then 0 else Size(f[..|f| - 1]) + ByteLength(f[|f| - 1])
  }

  function At(files: Files, i: nat): seq<Text> { if i in files then files[i] else [] }

  // ---------------------------------------------------------------- rotation

  function Renamed(files: Files, source: nat, target: nat): Files {
    if source in files then (files - {source})[target := files[source]] else files
  }

  /** File `i` is to come from the number below. */
  predicate Fed(files: Files, i: nat) { i >= 1 && i - 1 in files }

  /** Every file moves up by one, and the oldest archive is gone. */
  function Rotated(files: Files, maxFiles: nat): Files {
    map i: nat | 1 <= i <= maxFiles && Fed(files, i) :: files[i - 1]
  }

  ghost predicate Numbered(files: Files, maxFiles: nat) { forall i :: i in files ==> i <= maxFiles }

  /** Where file `i` comes from when the files above `index` have moved. */
  predicate Expected(files: Files, maxFiles: nat, index: int, i: nat) {
    if i <= index then i in files else i <= maxFiles && Fed(files, i)
  }

  predicate InPlace(r: Files, files: Files, maxFiles: nat, index: int, i: nat) {
    (i in r <==> Expected(files, maxFiles, index, i)) &&
    (i in r ==> r[i] == if i <= index then files[i] else files[i - 1])
  }

  /** All files but the one that is just going to be replaced. */
  ghost predicate Halfway(r: Files, files: Files, maxFiles: nat, index: int) {
    forall i: nat :: i != index + 1 ==> InPlace(r, files, maxFiles, index, i)
  }

  method Rotate(files: Files, maxFiles: nat) returns (r: Files)
    requires maxFiles >= 1 && Numbered(files, maxFiles)
    ensures r == Rotated(files, maxFiles)
  {
    r := files;
    var index := maxFiles - 1;
    assert forall i: nat :: i != maxFiles ==> InPlace(r, files, maxFiles, index, i);
    while index >= 1
      invariant 0 <= index <= maxFiles - 1
      invariant Halfway(r, files, maxFiles, index)
    {
      MovedUp(r, files, maxFiles, index);
      r := r - {index + 1};
      r := Renamed(r, index, index + 1);
      index := index - 1;
    }
    MovedUp(r, files, maxFiles, 0);
    r := r - {1};
    r := Renamed(r, 0, 1);
    forall i: nat ensures i in r <==> i in Rotated(files, maxFiles) {
      assert i != 0 ==> InPlace(r, files, maxFiles, -1, i);
    }
    forall i | i in r ensures r[i] == files[i - 1] {
      assert InPlace(r, files, maxFiles, -1, i);
    }
  }

  /** Removing the target and renaming the source moves one file up. */
  lemma {:induction false} MovedUp(r: Files, files: Files, maxFiles: nat, index: nat)
    requires Halfway(r, files, maxFiles, index) && index < maxFiles
    ensures var r' := Renamed(r - {index + 1}, index, index + 1); Halfway(r', files, maxFiles, index - 1) && index !in r'
  {
    var r', below := Renamed(r - {index + 1}, index, index + 1), index - 1;
    assert InPlace(r, files, maxFiles, index, index);
    forall i: nat | i != index ensures InPlace(r', files, maxFiles, below, i) {
      assert i != index + 1 ==> InPlace(r, files, maxFiles, index, i);
    }
  }

  function Appended(files: Files, line: Text): Files { files[0 := At(files, 0) + [line]] }

  function WithLine(files: Files, line: Text, config: Config): Files {
    Appended(if Size(At(files, 0)) + ByteLength(line) <= config.maxBytes then files else Rotated(files, config.maxFiles), line)
  }

  /** The entries of the archives from the oldest on, and then those of the log itself. */
  function Flatten(files: Files, n: nat): seq<Text> {
    At(files, n) + if n == 0 then [] else Flatten(files, n - 1)
  }

  lemma {:induction false} FlattenRotated(files: Files, maxFiles: nat, n: nat)
    requires 1 <= n <= maxFiles
    ensures Flatten(Rotated(files, maxFiles), n) == Flatten(files, n - 1)
  {
    var r := Rotated(files, maxFiles);
    assert At(r, n) == At(files, n - 1);
    if n == 1 {
      assert At(r, 0) == [];
      assert Flatten(r, 0) == [];
    } else {
      FlattenRotated(files, maxFiles, n - 1);
    }
  }

  lemma {:induction false} FlattenAppended(files: Files, line: Text, n: nat)
    ensures Flatten(Appended(files, line), n) == Flatten(files, n) + [line]
  {
    if n > 0 {
      FlattenAppended(files, line, n - 1);
      assert At(Appended(files, line), n) == At(files, n);
    }
  }

  ghost predicate SuffixOf(s: seq<Text>, all: seq<Text>) {
    |s| <= |all| && all[|all| - |s|..] == s
  }

  lemma {:induction false} SuffixTail(a: seq<Text>, b: seq<Text>, all: seq<Text>)
    requires SuffixOf(a + b, all)
    ensures SuffixOf(b, all)
  {
    assert (a + b)[|a|..] == b;
    assert all[|all| - |b|..] == all[|all| - |a + b|..][|a|..];
  }

  lemma {:induction false} SuffixMore(s: seq<Text>, all: seq<Text>, line: Text)
    requires SuffixOf(s, all)
    ensures SuffixOf(s + [line], all + [line])
  {
  }

  /** Each file is within the limit, the archives are numbered within theirs, and together the files
      are a suffix, in whole entries, of everything ever written. */
  ghost predicate FilesInv(files: Files, all: seq<Text>, config: Config) {
    Bounded(files, config) && SuffixOf(Flatten(files, config.maxFiles), all)
  }

  lemma {:induction false} SizeNext(f: seq<Text>, line: Text)
    ensures Size(f + [line]) == Size(f) + ByteLength(line)
  {
    assert (f + [line])[..|f|] == f;
  }

  ghost predicate Bounded(files: Files, config: Config) {
    Numbered(files, config.maxFiles) && forall i :: i in files ==> Size(files[i]) <= config.maxBytes
  }

  lemma {:induction false} LineBounded(files: Files, line: Text, config: Config)
    requires config.maxFiles >= 1 && Bounded(files, config) && ByteLength(line) <= config.maxBytes
    ensures Bounded(WithLine(files, line, config), config)
  {
    SizeNext(At(files, 0), line);
    SizeNext([], line);
    assert Size([]) == 0;
    hide ByteLength, Size;
    if Size(At(files, 0)) + ByteLength(line) > config.maxBytes {
      var r := Rotated(files, config.maxFiles);
      assert 0 !in r && At(r, 0) == [];
      assert forall i :: i in r ==> Fed(files, i) && r[i] == files[i - 1];
    }
  }

  lemma {:induction false} LineKeepsFiles(files: Files, line: Text, all: seq<Text>, config: Config)
    requires config.maxFiles >= 1 && FilesInv(files, all, config) && ByteLength(line) <= config.maxBytes
    ensures FilesInv(WithLine(files, line, config), all + [line], config)
  {
    var n := config.maxFiles;
    LineBounded(files, line, config);
    hide ByteLength, Size, Bounded;
    if Size(At(files, 0)) + ByteLength(line) <= config.maxBytes {
      FlattenAppended(files, line, n);
      SuffixMore(Flatten(files, n), all, line);
    } else {
      var r := Rotated(files, n);
      assert Flatten(files, n) == At(files, n) + Flatten(files, n - 1);
      hide Flatten, SuffixOf, Rotated;
      FlattenRotated(files, n, n);
      SuffixTail(At(files, n), Flatten(files, n - 1), all);
      FlattenAppended(r, line, n);
      SuffixMore(Flatten(r, n), all, line);
    }
  }

  /** A rotation loses exactly the oldest archive. */
  lemma {:induction false} RotationLosesOldest(files: Files, line: Text, config: Config)
    requires config.maxFiles >= 1
    ensures var n := config.maxFiles;
      Flatten(files, n) + [line] ==
        (if Size(At(files, 0)) + ByteLength(line) <= config.maxBytes then [] else At(files, n)) + Flatten(WithLine(files, line, config), n)
  {
    hide ByteLength, Size;
    var n := config.maxFiles;
    FlattenAppended(files, line, n);
    if Size(At(files, 0)) + ByteLength(line) > config.maxBytes {
      assert Flatten(files, n) == At(files, n) + Flatten(files, n - 1);
      hide Flatten, Rotated;
      FlattenRotated(files, n, n);
      FlattenAppended(Rotated(files, n), line, n);
      Regroup(At(files, n), Flatten(files, n - 1), line);
    } else {
      hide Flatten;
      Regroup([], Flatten(files, n), line);
    }
  }

  lemma {:induction false} Regroup(a: seq<Text>, b: seq<Text>, line: Text)
    ensures (a + b) + [line] == a + (b + [line]) && [] + b == b
  {
  }

  // ---------------------------------------------------------------- the queue and its drain

  /** The drain is opening the log, writing a line, or over with its last callback still to come. */
  datatype Drain = Off | Opening | Writing(line: Text) | Ending

  /** `closers` counts the calls of `close` that wait; `accepted` and `written` are all entries so far. */
  datatype Log = Log(files: Files, queue: seq<Text>, queuedBytes: int, drain: Drain, initialized: bool, accepting: bool,
                     closed: bool, closers: nat, accepted: seq<Text>, written: seq<Text>)

  datatype Step = Handle(entry: Text) | Opened | LineWritten | DrainEnded | Close | CloseReturns

  function Open(files: Files): Log { Log(files, [], 0, Off, false, true, false, 0, [], []) }

  /** The head of the drain's loop. */
  function TakeNext(l: Log): Log {
    if l.queue != [] && !l.closed
    then l.(queue := l.queue[1..], queuedBytes := l.queuedBytes - ByteLength(l.queue[0]), drain := Writing(l.queue[0]))
    else l.(drain := Ending)
  }

  function Scheduled(l: Log): Log {
    if l.drain != Off then l else if !l.initialized then l.(drain := Opening) else TakeNext(l)
  }

  predicate Accepts(l: Log, entry: Text, config: Config) {
    l.accepting && !l.closed && |l.queue| < config.maxQueueEntries && ByteLength(entry) <= config.maxBytes &&
    l.queuedBytes + ByteLength(entry) <= config.maxQueueBytes
  }

  function Queued(l: Log, entry: Text): Log {
    l.(queue := l.queue + [entry], queuedBytes := l.queuedBytes + ByteLength(entry), accepted := l.accepted + [entry])
  }

  predicate Enabled(l: Log, step: Step) {
    match step
    case Handle(_) => true
    case Opened => l.drain == Opening
    case LineWritten => l.drain.Writing?
    case DrainEnded => l.drain == Ending
    case Close => true
    case CloseReturns => l.closers > 0 && l.drain == Off
  }

  function Next(l: Log, step: Step, config: Config): Log
    requires Enabled(l, step)
  {
    match step
    case Handle(entry) =>
      if !Accepts(l, entry, config) then l
      else Scheduled(Queued(l, entry))
    case Opened => TakeNext(l.(initialized := true))
    case LineWritten =>
      TakeNext(l.(files := WithLine(l.files, l.drain.line, config), written := l.written + [l.drain.line]))
    case DrainEnded =>
      var off := l.(drain := Off);
      if l.queue != [] && !l.closed then Scheduled(off) else off
    case Close => l.(accepting := false, closers := l.closers + 1)
    case CloseReturns => l.(closed := true, closers := l.closers - 1)
  }

  ghost predicate IsRun(l: Log, steps: seq<Step>, t: Log, config: Config)
    decreases |steps|
  {
    if steps == [] then l == t else Enabled(l, steps[0]) && IsRun(Next(l, steps[0], config), steps[1..], t, config)
  }

  function InHand(d: Drain): seq<Text> { if d.Writing? then [d.line] else [] }

  ghost predicate QueueInv(l: Log, config: Config) {
    l.queuedBytes == Size(l.queue) <= config.maxQueueBytes && |l.queue| <= config.maxQueueEntries &&
    (forall i :: 0 <= i < |l.queue| ==> ByteLength(l.queue[i]) <= config.maxBytes) &&
    (l.drain.Writing? ==> ByteLength(l.drain.line) <= config.maxBytes) &&
    l.accepted == l.written + InHand(l.drain) + l.queue
  }

  /** No entry waits without a drain that will come to it, and a closed log has nothing left. */
  ghost predicate DrainInv(l: Log) {
    (l.drain == Off ==> l.queue == []) && (l.closed ==> l.drain == Off) && (l.closed || l.closers > 0 ==> !l.accepting) &&
    (l.drain == Opening ==> !l.initialized) && (l.drain.Writing? || l.drain == Ending ==> l.initialized)
  }

  /** `start` is what was in the files before. */
  ghost predicate Inv(l: Log, start: seq<Text>, config: Config) {
    QueueInv(l, config) && DrainInv(l) && FilesInv(l.files, start + l.written, config)
  }

  lemma {:induction false} SizeFirst(f: seq<Text>)
    requires f != []
    ensures Size(f) == ByteLength(f[0]) + Size(f[1..])
  {
    hide ByteLength;
    if |f| > 1 {
      SizeFirst(f[..|f| - 1]);
      assert f[..|f| - 1][1..] == f[1..][..|f| - 2];
    } else {
      assert f[1..] == [] && f[..0] == [];
    }
  }

  /** The queue parts of the state, with `hand` taken off the queue but not written yet. */
  lemma {:induction false} TakeKeeps(l: Log, start: seq<Text>, config: Config)
    requires QueueInv(l.(drain := Off), config) && FilesInv(l.files, start + l.written, config) && l.initialized && !l.closed
    requires l.closers > 0 ==> !l.accepting
    ensures Inv(TakeNext(l), start, config)
  {
    hide ByteLength, FilesInv;
    if l.queue != [] {
      SizeFirst(l.queue);
      assert l.written + [] + l.queue == l.written + [l.queue[0]] + l.queue[1..];
    } else {
      assert l.written + [] + l.queue == l.written + [] + [];
    }
  }

  lemma {:induction false} HandleKeeps(l: Log, entry: Text, start: seq<Text>, config: Config)
    requires Inv(l, start, config)
    ensures Inv(Next(l, Handle(entry), config), start, config)
  {
    hide ByteLength, FilesInv, QueueInv;
    if Accepts(l, entry, config) {
      QueuedKeeps(l, entry, config);
      var m := Queued(l, entry);
      if m.drain == Off && m.initialized { TakeKeeps(m, start, config); }
    }
  }

  lemma {:induction false} QueuedKeeps(l: Log, entry: Text, config: Config)
    requires QueueInv(l, config) && Accepts(l, entry, config)
    ensures QueueInv(Queued(l, entry), config)
    ensures QueueInv(Queued(l, entry).(drain := Opening), config) <== l.drain == Off
  {
    hide ByteLength, Size;
    SizeNext(l.queue, entry);
    assert (l.written + InHand(l.drain) + l.queue) + [entry] == l.written + InHand(l.drain) + (l.queue + [entry]);
  }

  lemma {:induction false} LineKeeps(l: Log, start: seq<Text>, config: Config)
    requires config.maxFiles >= 1 && Inv(l, start, config) && l.drain.Writing?
    ensures Inv(Next(l, LineWritten, config), start, config)
  {
    var line := l.drain.line;
    var m := l.(files := WithLine(l.files, line, config), written := l.written + [line]);
    LineKeepsFiles(l.files, line, start + l.written, config);
    WrittenKeeps(l, m.files, config);
    hide FilesInv, WithLine, QueueInv, TakeNext;
    assert (start + l.written) + [line] == start + m.written;
    TakeKeeps(m, start, config);
  }

  lemma {:induction false} WrittenKeeps(l: Log, files: Files, config: Config)
    requires QueueInv(l, config) && l.drain.Writing?
    ensures QueueInv(l.(files := files, written := l.written + [l.drain.line], drain := Off), config)
  {
    hide ByteLength, Size;
    var written := l.written + [l.drain.line];
    assert written + [] == written;
  }

  lemma {:induction false} NextKeepsInv(l: Log, step: Step, start: seq<Text>, config: Config)
    requires config.maxFiles >= 1 && Inv(l, start, config) && Enabled(l, step)
    ensures Inv(Next(l, step, config), start, config)
  {
    hide ByteLength, FilesInv;
    match step {
      case Handle(entry) => HandleKeeps(l, entry, start, config);
      case Opened => TakeKeeps(l.(initialized := true), start, config);
      case LineWritten => LineKeeps(l, start, config);
      case DrainEnded =>
        if l.queue != [] && !l.closed { TakeKeeps(l.(drain := Off), start, config); }
      case Close =>
      case CloseReturns =>
    }
  }

  lemma {:induction false} RunKeepsInv(l: Log, steps: seq<Step>, t: Log, start: seq<Text>, config: Config)
    requires config.maxFiles >= 1 && Inv(l, start, config) && IsRun(l, steps, t, config)
    ensures Inv(t, start, config)
    decreases |steps|
  {
    hide Inv, Next, Enabled;
    if steps != [] {
      NextKeepsInv(l, steps[0], start, config);
      RunKeepsInv(Next(l, steps[0], config), steps[1..], t, start, config);
    }
  }

  // ---------------------------------------------------------------- what the log promises

  /** The files the log starts with are numbered within the limit and no larger than it. */
  ghost predicate GoodStart(files: Files, config: Config) {
    config.maxFiles >= 1 && Bounded(files, config)
  }

  lemma {:induction false} OpenInv(files: Files, config: Config)
    requires GoodStart(files, config)
    ensures Inv(Open(files), Flatten(files, config.maxFiles), config)
  {
    var start := Flatten(files, config.maxFiles);
    assert start + [] == start;
    var none: seq<Text> := [];
    assert none + [] + [] == none;
  }

  /** At every moment the archives from the oldest on and then the log itself are the last entries
      accepted and written, whole and in order, after what was there at the start; every file is
      within the limit and there are at most `maxFiles` archives. */
  lemma {:induction false} FilesAreSuffix(files: Files, steps: seq<Step>, t: Log, config: Config)
    requires GoodStart(files, config) && IsRun(Open(files), steps, t, config)
    ensures SuffixOf(Flatten(t.files, config.maxFiles), Flatten(files, config.maxFiles) + t.written)
    ensures t.accepted == t.written + InHand(t.drain) + t.queue
    ensures forall i :: i in t.files ==> i <= config.maxFiles && Size(t.files[i]) <= config.maxBytes
  {
    OpenInv(files, config);
    RunKeepsInv(Open(files), steps, t, Flatten(files, config.maxFiles), config);
  }

  /** The byte count is that of the queue, both limits hold, and an entry never waits in the queue
      without a drain under way; a flush therefore returns only when all entries are written. */
  lemma {:induction false} QueueNeverForgotten(files: Files, steps: seq<Step>, t: Log, config: Config)
    requires GoodStart(files, config) && IsRun(Open(files), steps, t, config)
    ensures t.queuedBytes == Size(t.queue) <= config.maxQueueBytes && |t.queue| <= config.maxQueueEntries
    ensures t.queue != [] ==> t.drain != Off
    ensures t.drain == Off ==> t.written == t.accepted
  {
    OpenInv(files, config);
    RunKeepsInv(Open(files), steps, t, Flatten(files, config.maxFiles), config);
    assert t.drain == Off ==> t.written + [] + [] == t.written;
  }

  lemma {:induction false} AcceptingUntilClose(l: Log, steps: seq<Step>, t: Log, config: Config)
    requires IsRun(l, steps, t, config)
    ensures t.accepting <==> l.accepting && Close !in steps
    decreases |steps|
  {
    if steps != [] {
      var m := Next(l, steps[0], config);
      assert m.accepting <==> l.accepting && steps[0] != Close;
      hide Next, Enabled;
      AcceptingUntilClose(m, steps[1..], t, config);
      assert steps == [steps[0]] + steps[1..];
    }
  }

  /** In any run an entry is accepted if and only if nobody has begun to close the log, it fits into a
      file, and the queue has room for one more entry and for its bytes; otherwise nothing changes. */
  lemma {:induction false} AcceptedExactly(files: Files, steps: seq<Step>, t: Log, entry: Text, config: Config)
    requires GoodStart(files, config) && IsRun(Open(files), steps, t, config)
    ensures var u := Next(t, Handle(entry), config);
      (u.accepted == t.accepted + [entry] <==>
         Close !in steps && |t.queue| < config.maxQueueEntries && ByteLength(entry) <= config.maxBytes &&
         Size(t.queue) + ByteLength(entry) <= config.maxQueueBytes) &&
      (u.accepted != t.accepted + [entry] ==> u == t)
  {
    OpenInv(files, config);
    RunKeepsInv(Open(files), steps, t, Flatten(files, config.maxFiles), config);
    AcceptingUntilClose(Open(files), steps, t, config);
    hide FilesInv, ByteLength, Size;
    assert |t.accepted + [entry]| != |t.accepted|;
  }

  /** When `close` returns every accepted entry has been written in order, and from then on the log
      does not change any more. */
  lemma {:induction false} CloseLosesNothing(files: Files, steps: seq<Step>, t: Log, more: seq<Step>, u: Log, config: Config)
    requires GoodStart(files, config) && IsRun(Open(files), steps, t, config) && t.closed && IsRun(t, more, u, config)
    ensures t.written == t.accepted && SuffixOf(Flatten(t.files, config.maxFiles), Flatten(files, config.maxFiles) + t.accepted)
    ensures u.files == t.files && u.accepted == t.accepted
  {
    OpenInv(files, config);
    RunKeepsInv(Open(files), steps, t, Flatten(files, config.maxFiles), config);
    assert t.written + [] + [] == t.written;
    ClosedStays(t, more, u, config);
  }

  lemma {:induction false} ClosedStays(t: Log, more: seq<Step>, u: Log, config: Config)
    requires DrainInv(t) && t.closed && IsRun(t, more, u, config)
    ensures u.files == t.files && u.accepted == t.accepted && u.closed
    decreases |more|
  {
    if more != [] { ClosedStays(Next(t, more[0], config), more[1..], u, config); }
  }

  /** The drain's own next step. */
  function DrainStep(d: Drain): Step
    requires d != Off
  {
    match d
    case Opening => Opened
    case Writing(_) => LineWritten
    case Ending => DrainEnded
  }

  function Rank(l: Log): nat {
    3 * |l.queue| + match l.drain case Off => 0 case Ending => 1 case Opening => 2 case Writing(_) => 2
  }

  /** A drain comes to its end unless entries keep arriving: its next step can always be taken and
      brings the end nearer, so `close`, which lets nothing more in, does return. */
  lemma {:induction false} DrainComesToEnd(l: Log, config: Config)
    requires DrainInv(l) && l.drain != Off
    ensures Enabled(l, DrainStep(l.drain)) && Rank(Next(l, DrainStep(l.drain), config)) < Rank(l)
  {
    hide ByteLength, WithLine;
  }

  // ---------------------------------------------------------------- the handler object

  class FileLogHandler {
    const config: Config
    var files: Files
    var queue: seq<Text>
    var queuedBytes: int
    var drain: Drain
    var initialized: bool
    var accepting: bool
    var closed: bool
    var closers: nat
    ghost var accepted: seq<Text>
    ghost var written: seq<Text>

    ghost function View(): Log
      reads this
    {
      Log(files, queue, queuedBytes, drain, initialized, accepting, closed, closers, accepted, written)
    }

    constructor (config: Config, files: Files)
      ensures View() == Open(files) && this.config == config
    {
      this.config, this.files := config, files;
      queue, queuedBytes, drain, initialized, accepting, closed, closers := [], 0, Off, false, true, false, 0;
      accepted, written := [], [];
    }

    method Handle(entry: Text)
      modifies this
      ensures View() == Next(old(View()), Step.Handle(entry), config)
    {
      hide ByteLength, TakeNext;
      var entryBytes := ByteLength(entry);
      if !accepting || closed || |queue| >= config.maxQueueEntries { return; }
      if entryBytes > config.maxBytes || queuedBytes + entryBytes > config.maxQueueBytes { return; }
      queue := queue + [entry];
      queuedBytes := queuedBytes + entryBytes;
      accepted := accepted + [entry];
      ScheduleDrain();
    }

    method ScheduleDrain()
      modifies this
      ensures View() == Scheduled(old(View()))
    {
      if drain != Off { return; }
      if !initialized { drain := Opening; } else { Take(); }
    }

    method Take()
      modifies this
      ensures View() == TakeNext(old(View()))
    {
      hide ByteLength;
      if queue != [] && !closed {
        var line := queue[0];
        queue := queue[1..];
        queuedBytes := queuedBytes - ByteLength(line);
        drain := Writing(line);
      } else {
        drain := Ending;
      }
    }

    method OnOpened()
      requires Enabled(View(), Opened)
      modifies this
      ensures View() == Next(old(View()), Opened, config)
    {
      initialized := true;
      Take();
    }

    method WriteLine()
      requires Enabled(View(), LineWritten) && config.maxFiles >= 1 && Numbered(files, config.maxFiles)
      modifies this
      ensures View() == Next(old(View()), LineWritten, config)
    {
      hide ByteLength, Size, TakeNext, Rotated;
      var line := drain.line;
      if Size(At(files, 0)) + ByteLength(line) > config.maxBytes {
        files := Rotate(files, config.maxFiles);
      }
      files := files[0 := At(files, 0) + [line]];
      written := written + [line];
      Take();
    }

    method OnDrainEnded()
      requires Enabled(View(), DrainEnded)
      modifies this
      ensures View() == Next(old(View()), DrainEnded, config)
    {
      hide TakeNext;
      drain := Off;
      if queue != [] && !closed { ScheduleDrain(); }
    }

    method Close()
      modifies this
      ensures View() == Next(old(View()), Step.Close, config)
    {
      accepting := false;
      closers := closers + 1;
    }

    method OnFlushed()
      requires Enabled(View(), CloseReturns)
      modifies this
      ensures View() == Next(old(View()), CloseReturns, config)
    {
      closed := true;
      closers := closers - 1;
    }
  }
}
