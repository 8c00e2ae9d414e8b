/** One tracked turn of the agent control service: the bounded window over the terminal
    output, its generations, and reading it through cursors. */
module TurnOutput {
  import opened Utf8

  const MAX_RETAINED_TURN_BYTES := 262_144
  const DEFAULT_TURN_READ_BYTES := 32_768
  const MAX_TURN_READ_BYTES := 131_072

  datatype Option<T> = None | Some(value: T)

  datatype Status = Working | NeedsInput | Completed | Failed | Unknown

  predicate Finished(s: Status) { s == Completed || s == Failed }

  /** The status the rules or the session report for one capture. */
  datatype Detected = Busy | Idle | Asking | Done | Broken | Disconnected | Other

  /** What one capture shows: `delimited` is a response delimiter beyond those of the prompt,
      `stable` a window that stood still for STABLE_SCREEN_COMPLETION_MS. */
  datatype Observation = Observation(snapshot: Text, detected: Detected, ruleMatched: bool,
                                     delimited: bool, hasOutput: bool, stable: bool)

  datatype Turn = Turn(id: string, session: string, initial: Text, last: Text, output: Text,
                       generation: nat, base: nat, version: nat, status: Status,
                       observedWorking: bool, uncertain: bool, outputChanges: nat)

  function Opened(id: string, session: string, initial: Text): Turn {
    Turn(id, session, initial, initial, [], 1, 0, 1, Working, false, false, 0)
  }

  // ---------------------------------------------------------------- terminal output

  lemma {:induction false} TakeFirst(t: Text, p: nat)
    requires p < |t|
    ensures t[..p + 1] == [t[0]] + t[1..][..p]
  {
    forall i | 0 <= i < p + 1 ensures t[..p + 1][i] == ([t[0]] + t[1..][..p])[i] {
      assert i > 0 ==> t[1..][i - 1] == t[i];
    }
  }

  function CommonPrefix(a: Text, b: Text): (p: nat)
    ensures p <= |a| && p <= |b| && a[..p] == b[..p]
    ensures p < |a| && p < |b| ==> a[p] != b[p]
  {
    if a == [] || b == [] || a[0] != b[0] then 0
    else
      var p := CommonPrefix(a[1..], b[1..]);
      TakeFirst(a, p);
      TakeFirst(b, p);
      p + 1
  }

  /** The first UTF-16 unit of a character. */
  function FirstUnit(c: Char): int { if c >= 0x10000 then 0xD800 + (c - 0x10000) / 0x400 else c }

  function LowSurrogate(c: Char): Char
    requires c >= 0x10000
  {
    0xDC00 + (c - 0x10000) % 0x400
  }

  /** The comparison is one of UTF-16 units: where two different characters begin with the same high
      surrogate, it splits the one of the current text and keeps what is left of it. */
  function After(initial: Text, current: Text, p: nat): Text
    requires p <= |initial| && p <= |current|
  {
    if p < |initial| && p < |current| && FirstUnit(initial[p]) == FirstUnit(current[p])
    then (if current[p] >= 0x10000 then [LowSurrogate(current[p])] else []) + current[p + 1..]
    else current[p..]
  }

  function OutputSince(initial: Text, current: Text): Text {
    After(initial, current, CommonPrefix(initial, current))
  }

  /** The UTF-16 units of a text. */
  ghost function Units(t: Text): seq<int> {
    if t == [] then [] else CharUnits(t[0]) + Units(t[1..])
  }

  ghost function CharUnits(c: Char): seq<int> {
    if c >= 0x10000 then [0xD800 + (c - 0x10000) / 0x400, 0xDC00 + (c - 0x10000) % 0x400] else [c]
  }

  /** No high surrogate stands before a low one: the two would be one character. */
  ghost predicate Paired(t: Text) {
    forall i :: 1 <= i < |t| ==> !(0xD800 <= t[i - 1] < 0xDC00 && 0xDC00 <= t[i] < 0xE000)
  }

  /** `n` units are common to both, and no more. */
  ghost predicate Common(a: seq<int>, b: seq<int>, n: nat) {
    n <= |a| && n <= |b| && a[..n] == b[..n] && (n < |a| && n < |b| ==> a[n] != b[n])
  }

  lemma {:induction false} UnitsAppend(s: Text, t: Text)
    ensures Units(s + t) == Units(s) + Units(t)
  {
    if s == [] {
      assert s + t == t;
    } else {
      assert (s + t)[1..] == s[1..] + t;
      UnitsAppend(s[1..], t);
      hide CharUnits;
      assert CharUnits(s[0]) + (Units(s[1..]) + Units(t)) == CharUnits(s[0]) + Units(s[1..]) + Units(t);
    }
  }

  /** What follows the common text begins with different units, except for a shared high surrogate. */
  lemma {:induction false} RestUnits(a: Text, b: Text)
    requires Paired(a) && Paired(b) && (a != [] && b != [] ==> a[0] != b[0])
    ensures var n := if a != [] && b != [] && FirstUnit(a[0]) == FirstUnit(b[0]) then 1 else 0;
      Common(Units(a), Units(b), n) && Units(After(a, b, 0)) == Units(b)[n..]
  {
    if a != [] && b != [] {
      FirstUnits(a);
      FirstUnits(b);
      if FirstUnit(a[0]) == FirstUnit(b[0]) {
        SecondUnits(a, b);
        assert Units(b)[1..] == (if b[0] >= 0x10000 then [LowSurrogate(b[0])] else []) + Units(b[1..]);
        UnitsAppend(if b[0] >= 0x10000 then [LowSurrogate(b[0])] else [], b[1..]);
        if b[0] >= 0x10000 { assert Units([LowSurrogate(b[0])]) == [LowSurrogate(b[0])] + Units([]); }
      }
    }
  }

  lemma {:induction false} FirstUnits(t: Text)
    requires t != []
    ensures Units(t) != [] && Units(t)[0] == FirstUnit(t[0])
    ensures t[0] < 0x10000 ==> Units(t)[1..] == Units(t[1..])
    ensures t[0] >= 0x10000 ==> |Units(t)| >= 2 && Units(t)[1] == LowSurrogate(t[0]) && Units(t)[2..] == Units(t[1..])
  {
  }

  lemma {:induction false} SecondUnits(a: Text, b: Text)
    requires Paired(a) && Paired(b) && a != [] && b != [] && a[0] != b[0] && FirstUnit(a[0]) == FirstUnit(b[0])
    ensures |Units(a)| > 1 && |Units(b)| > 1 ==> Units(a)[1] != Units(b)[1]
  {
    FirstUnits(a);
    FirstUnits(b);
    if |a| > 1 { FirstUnits(a[1..]); }
    if |b| > 1 { FirstUnits(b[1..]); }
    hide Units;
  }

  /** For texts as a string of UTF-16 units has them: the output is what follows the units that both
      captures begin with. If the first capture is the beginning of the current one, that is the rest of
      it, and otherwise, unless a pair is split, it is the rest from the first different character on. */
  lemma {:induction false} OutputSinceExact(initial: Text, current: Text, n: nat)
    requires Paired(initial) && Paired(current) && Common(Units(initial), Units(current), n)
    ensures Units(OutputSince(initial, current)) == Units(current)[n..]
  {
    var k := CommonPrefix(initial, current);
    var p, a, b := initial[..k], initial[k..], current[k..];
    assert current[..k] == p;
    hide Units, CommonPrefix, Common;
    SplitUnits(initial, k);
    SplitUnits(current, k);
    assert After(initial, current, k) == After(a, b, 0);
    RestPaired(initial, k);
    RestPaired(current, k);
    hide Paired;
    RestUnits(a, b);
    hide After;
    var m := if a != [] && b != [] && FirstUnit(a[0]) == FirstUnit(b[0]) then 1 else 0;
    CommonBehind(Units(p), Units(a), Units(b), m);
    CommonUnique(Units(initial), Units(current), n, |Units(p)| + m);
  }

  lemma {:induction false} SplitUnits(t: Text, k: nat)
    requires k <= |t|
    ensures Units(t) == Units(t[..k]) + Units(t[k..])
  {
    assert t == t[..k] + t[k..];
    UnitsAppend(t[..k], t[k..]);
  }

  lemma {:induction false} RestPaired(t: Text, k: nat)
    requires Paired(t) && k <= |t|
    ensures Paired(t[k..])
  {
  }

  lemma {:induction false} CommonBehind(p: seq<int>, a: seq<int>, b: seq<int>, m: nat)
    requires Common(a, b, m)
    ensures Common(p + a, p + b, |p| + m) && (p + b)[|p| + m..] == b[m..]
  {
    assert (p + a)[..|p| + m] == p + a[..m] && (p + b)[..|p| + m] == p + b[..m];
  }

  lemma {:induction false} CommonUnique(a: seq<int>, b: seq<int>, m: nat, n: nat)
    requires Common(a, b, m) && Common(a, b, n)
    ensures m == n
  {
    forall i | 0 <= i < m ensures a[i] == b[i] { assert a[..m][i] == b[..m][i]; }
    forall i | 0 <= i < n ensures a[i] == b[i] { assert a[..n][i] == b[..n][i]; }
  }

  /** In whole characters, for any texts. */
  lemma {:induction false} OutputSinceWhole(initial: Text, current: Text, k: nat)
    requires k <= |initial| && k <= |current| && initial[..k] == current[..k]
    requires k < |initial| && k < |current| ==> initial[k] != current[k]
    ensures initial <= current ==> initial + OutputSince(initial, current) == current
    ensures k == |initial| || k == |current| || FirstUnit(initial[k]) != FirstUnit(current[k]) ==> OutputSince(initial, current) == current[k..]
    ensures k < |initial| && k < |current| && FirstUnit(initial[k]) == FirstUnit(current[k]) && current[k] >= 0x10000 ==>
      OutputSince(initial, current) == [0xDC00 + (current[k] - 0x10000) % 0x400] + current[k + 1..]
  {
    CommonPrefixUnique(initial, current, k);
    if initial <= current {
      assert initial == current[..|initial|];
      CommonPrefixUnique(initial, current, |initial|);
    }
  }

  method TerminalOutputSince(initial: Text, current: Text) returns (r: Text)
    ensures r == OutputSince(initial, current)
  {
    if initial <= current {
      assert CommonPrefix(initial, current) == |initial| by {
        forall i | 0 <= i < |initial| ensures current[i] == initial[i] {
          assert current[..|initial|][i] == initial[i];
        }
      }
      return current[|initial|..];
    }
    var prefix := 0;
    var limit := if |initial| < |current| then |initial| else |current|;
    while prefix < limit && initial[prefix] == current[prefix]
      invariant prefix <= limit
      invariant initial[..prefix] == current[..prefix]
    {
      prefix := prefix + 1;
    }
    CommonPrefixUnique(initial, current, prefix);
    r := After(initial, current, prefix);
  }

  lemma {:induction false} CommonPrefixUnique(a: Text, b: Text, p: nat)
    requires p <= |a| && p <= |b| && a[..p] == b[..p]
    requires p < |a| && p < |b| ==> a[p] != b[p]
    ensures p == CommonPrefix(a, b)
  {
    var q := CommonPrefix(a, b);
    forall i | 0 <= i < p ensures a[i] == b[i] { assert a[..p][i] == b[..p][i]; }
    forall i | 0 <= i < q ensures a[i] == b[i] { assert a[..q][i] == b[..q][i]; }
  }

  // ---------------------------------------------------------------- refresh

  predicate NowWorking(t: Turn, o: Observation) {
    t.observedWorking || (o.detected == Busy && !t.uncertain)
  }

  function NextStatus(t: Turn, o: Observation): Status {
    var ruleIdle := o.ruleMatched && o.detected == Idle;
    if o.delimited then Completed
    else if o.detected == Broken || o.detected == Disconnected then Failed
    else if o.detected == Asking then NeedsInput
    else if o.hasOutput && (o.detected == Done || ruleIdle) then Completed
    else if t.uncertain then Unknown
    else if o.detected == Busy then Working
    else if o.detected == Done then Completed
    else if ruleIdle then (if NowWorking(t, o) then Completed else Unknown)
    else if o.detected == Idle then (if o.hasOutput && o.stable then Completed else Unknown)
    else if t.status == Working then Working else Unknown
  }

  predicate StillUncertain(t: Turn, o: Observation) {
    t.uncertain && !o.delimited &&
    (o.detected == Broken || o.detected == Disconnected || o.detected == Asking ||
     !(o.hasOutput && (o.detected == Done || (o.ruleMatched && o.detected == Idle))))
  }

  predicate NewGeneration(t: Turn, snapshot: Text) {
    snapshot != t.last && t.output != [] && !(t.output <= OutputSince(t.initial, snapshot))
  }

  /** The turn after taking over the new output, before the retention cut. */
  function Extended(t: Turn, snapshot: Text): Turn {
    if snapshot == t.last then t
    else if NewGeneration(t, snapshot)
    then t.(output := OutputSince(t.initial, snapshot), outputChanges := t.outputChanges + 1,
            generation := t.generation + 1, base := 0)
    else t.(output := OutputSince(t.initial, snapshot), outputChanges := t.outputChanges + 1)
  }

  function Excess(t: Turn): nat {
    if ByteLength(t.output) > MAX_RETAINED_TURN_BYTES
    then ByteLength(t.output) - MAX_RETAINED_TURN_BYTES else 0
  }

  function Retained(t: Turn): Turn {
    if Excess(t) == 0 then t
    else t.(output := DecodeFrom(t.output, Excess(t)), base := t.base + Excess(t))
  }

  predicate Changes(t: Turn, o: Observation) {
    o.snapshot != t.last || NextStatus(t, o) != t.status
  }

  /** What a refresh does once the capture has arrived. */
  function Observed(t: Turn, o: Observation): Turn {
    var taken := if Changes(t, o)
                 then Retained(Extended(t, o.snapshot)).(status := NextStatus(t, o), version := t.version + 1)
                 else t;
    taken.(observedWorking := NowWorking(t, o), uncertain := StillUncertain(t, o), last := o.snapshot)
  }

  function Refreshed(t: Turn, o: Observation): Turn {
    if Finished(t.status) then t else Observed(t, o)
  }

  /** The capture shows the agent idle by a rule or gone, with a response. */
  predicate Answered(o: Observation) { o.hasOutput && (o.detected == Done || (o.ruleMatched && o.detected == Idle)) }

  /** A turn ends only on positive evidence. It fails exactly when the session broke or was lost
      without a delimited response; it completes exactly on a delimited response, on a response with
      an idle rule or process exit, or, unless it is uncertain that the prompt was submitted, on
      process exit, on an idle rule after work was seen, or on a response on a screen that stood
      still. It needs input exactly when asked for it, and works exactly when the agent is seen to, or
      goes on as it was; in all other cases its status is unknown. While the submission stays uncertain
      the turn is not working again, and it stops being uncertain only by completing. */
  lemma {:induction false} EndsOnEvidence(t: Turn, o: Observation)
    ensures NextStatus(t, o) == Failed <==> !o.delimited && (o.detected == Broken || o.detected == Disconnected)
    ensures NextStatus(t, o) == Completed <==>
      o.delimited || Answered(o) ||
      (!t.uncertain && (o.detected == Done || (o.detected == Idle && if o.ruleMatched then t.observedWorking else o.hasOutput && o.stable)))
    ensures NextStatus(t, o) == NeedsInput <==> !o.delimited && o.detected == Asking
    ensures NextStatus(t, o) == Working <==>
      !o.delimited && !t.uncertain && (o.detected == Busy || (o.detected == Other && t.status == Working))
    ensures StillUncertain(t, o) ==> NextStatus(t, o) != Working
    ensures t.uncertain && !StillUncertain(t, o) ==> NextStatus(t, o) == Completed
  {
    assert Answered(o) ==> o.detected != Busy;
  }

  /** What a refresh leaves behind. A turn that completed or failed stays as it is; of any other every field is
      that of the capture, and the version counts what a reader can see. */
  lemma {:induction false} RefreshExact(t: Turn, o: Observation)
    ensures t.status == Completed || t.status == Failed ==> Refreshed(t, o) == t
    ensures t.status != Completed && t.status != Failed ==>
      var r, shown := Refreshed(t, o), o.snapshot != t.last;
      r.last == o.snapshot && r.status == NextStatus(t, o) && r.id == t.id && r.session == t.session && r.initial == t.initial &&
      r.version == t.version + (if shown || r.status != t.status then 1 else 0) &&
      r.outputChanges == t.outputChanges + (if shown then 1 else 0) &&
      r.generation == t.generation + (if shown && !(t.output <= OutputSince(t.initial, o.snapshot)) then 1 else 0) &&
      (r.uncertain <==> t.uncertain && !o.delimited && !Answered(o)) &&
      (r.observedWorking <==> t.observedWorking || (o.detected == Busy && !t.uncertain))
  {
    hide NextStatus, OutputSince, ByteLength;
    assert t.output == [] ==> t.output <= OutputSince(t.initial, o.snapshot);
  }

  function Refreshes(t: Turn, captures: seq<Observation>): Turn {
    if captures == [] then t else Refreshed(Refreshes(t, captures[..|captures| - 1]), captures[|captures| - 1])
  }

  /** The turn has not ended before the last of the captures. */
  predicate GoesOn(t: Turn, captures: seq<Observation>) {
    forall i :: 0 <= i < |captures| ==> Refreshes(t, captures[..i]).status != Completed && Refreshes(t, captures[..i]).status != Failed
  }

  predicate SeenBusy(captures: seq<Observation>) { exists o <- captures :: o.detected == Busy }

  /** How often the screen was another than before. */
  function ScreenChanges(initial: Text, captures: seq<Observation>): nat {
    if captures == [] then 0
    else
      var n := |captures| - 1;
      ScreenChanges(initial, captures[..n]) +
      if captures[n].snapshot != (if n == 0 then initial else captures[n - 1].snapshot) then 1 else 0
  }

  /** What a turn remembers of its captures. It has been seen to work exactly if one of them showed so and it was
      never uncertain that the prompt was submitted; that uncertainty is gone exactly if one had a response. */
  predicate Remembers(t: Turn, initial: Text, uncertain: bool, captures: seq<Observation>) {
    t.initial == initial && t.last == (if captures == [] then initial else captures[|captures| - 1].snapshot) &&
    t.outputChanges == ScreenChanges(initial, captures) && t.outputChanges <= t.version - 1 <= |captures| &&
    (t.observedWorking <==> !uncertain && SeenBusy(captures)) &&
    (t.uncertain <==> uncertain && forall o <- captures :: !o.delimited && !Answered(o))
  }

  lemma {:induction false} HistoryExact(id: string, session: string, initial: Text, uncertain: bool, captures: seq<Observation>)
    requires GoesOn(Opened(id, session, initial).(uncertain := uncertain), captures)
    ensures Remembers(Refreshes(Opened(id, session, initial).(uncertain := uncertain), captures), initial, uncertain, captures)
  {
    hide Answered;
    if captures != [] {
      var start := Opened(id, session, initial).(uncertain := uncertain);
      var n := |captures| - 1;
      GoesOnEarly(start, captures);
      HistoryExact(id, session, initial, uncertain, captures[..n]);
      NoResponseYet(start, captures[..n]);
      RemembersNext(Refreshes(start, captures[..n]), initial, uncertain, captures[..n], captures[n]);
      hide GoesOn, Refreshed, Remembers;
      assert captures == captures[..n] + [captures[n]];
    }
  }

  lemma {:induction false} RemembersNext(t: Turn, initial: Text, uncertain: bool, captures: seq<Observation>, o: Observation)
    requires Remembers(t, initial, uncertain, captures) && t.status != Completed && t.status != Failed
    requires forall c <- captures :: !c.delimited && !Answered(c)
    ensures Remembers(Refreshed(t, o), initial, uncertain, captures + [o])
  {
    RefreshExact(t, o);
    hide Refreshed, Answered, OutputSince;
    assert (captures + [o])[..|captures|] == captures;
    SeenBusyNext(captures, o);
    hide SeenBusy;
    assert forall c :: c in captures + [o] <==> c in captures || c == o;
  }

  lemma {:induction false} GoesOnEarly(t: Turn, captures: seq<Observation>)
    requires captures != [] && GoesOn(t, captures)
    ensures var s := Refreshes(t, captures[..|captures| - 1]);
      GoesOn(t, captures[..|captures| - 1]) && s.status != Completed && s.status != Failed
  {
    var early := captures[..|captures| - 1];
    forall i | 0 <= i < |early| ensures Refreshes(t, early[..i]).status != Completed && Refreshes(t, early[..i]).status != Failed {
      assert early[..i] == captures[..i];
    }
  }

  /** As long as a turn goes on, no capture had a response. */
  lemma {:induction false} NoResponseYet(t: Turn, captures: seq<Observation>)
    requires GoesOn(t, captures) && Refreshes(t, captures).status != Completed
    ensures forall o <- captures :: !o.delimited && !Answered(o)
  {
    forall i | 0 <= i < |captures| ensures !captures[i].delimited && !Answered(captures[i]) {
      assert captures[..i + 1][..i] == captures[..i] && captures[..|captures|] == captures;
      EndsOnEvidence(Refreshes(t, captures[..i]), captures[i]);
      assert Refreshes(t, captures[..i + 1]) == Refreshed(Refreshes(t, captures[..i]), captures[i]);
      hide Answered, NextStatus;
    }
  }

  /** So without a response an idle rule ends a turn exactly if it was seen to work before. */
  lemma {:induction false} IdleRuleEnds(id: string, session: string, initial: Text, uncertain: bool, captures: seq<Observation>)
    requires var t := Opened(id, session, initial).(uncertain := uncertain);
      captures != [] && GoesOn(t, captures)
    requires var o := captures[|captures| - 1]; o.detected == Idle && o.ruleMatched && !o.delimited && !o.hasOutput
    ensures var t := Refreshes(Opened(id, session, initial).(uncertain := uncertain), captures);
      t.status == if !uncertain && SeenBusy(captures) then Completed else Unknown
  {
    var start, n := Opened(id, session, initial).(uncertain := uncertain), |captures| - 1;
    var early, o := captures[..n], captures[n];
    GoesOnEarly(start, captures);
    HistoryExact(id, session, initial, uncertain, early);
    NoResponseYet(start, early);
    var t := Refreshes(start, early);
    RefreshExact(t, o);
    EndsOnEvidence(t, o);
    assert Refreshes(start, captures) == Refreshed(t, o);
    hide Refreshed, Refreshes, OutputSince, GoesOn, ScreenChanges, NextStatus;
    SeenBusyNext(early, o);
    assert captures == early + [o];
  }

  lemma {:induction false} SeenBusyNext(captures: seq<Observation>, o: Observation)
    ensures SeenBusy(captures + [o]) <==> SeenBusy(captures) || o.detected == Busy
  {
    assert forall c :: c in captures + [o] <==> c in captures || c == o;
  }

  class TrackedTurn {
    const id: string
    const session: string
    const initial: Text
    var last: Text
    var output: Text
    var generation: nat
    var base: nat
    var version: nat
    var status: Status
    var observedWorking: bool
    var uncertain: bool
    var outputChanges: nat

    function View(): Turn
      reads this
    {
      Turn(id, session, initial, last, output, generation, base, version, status,
           observedWorking, uncertain, outputChanges)
    }

    constructor (id: string, session: string, initial: Text)
      ensures View() == Opened(id, session, initial)
    {
      this.id, this.session, this.initial, last, output := id, session, initial, initial, [];
      generation, base, version, status := 1, 0, 1, Working;
      observedWorking, uncertain, outputChanges := false, false, 0;
    }

    method Refresh(o: Observation)
      modifies this
      ensures View() == Refreshed(old(View()), o)
    {
      if Finished(status) { return; }
      var nextOutput := TerminalOutputSince(initial, o.snapshot);
      var nextStatus := NextStatus(View(), o);
      var changes := o.snapshot != last || nextStatus != status;
      var working, doubtful := NowWorking(View(), o), StillUncertain(View(), o);
      if changes {
        TakeOutput(o.snapshot, nextOutput);
        status := nextStatus;
        version := version + 1;
      }
      observedWorking, uncertain, last := working, doubtful, o.snapshot;
    }

    method TakeOutput(snapshot: Text, nextOutput: Text)
      requires nextOutput == OutputSince(initial, snapshot)
      modifies this`output, this`generation, this`base, this`outputChanges
      ensures View() == Retained(Extended(old(View()), snapshot))
    {
      if snapshot != last {
        if output != [] && !(output <= nextOutput) {
          generation := generation + 1;
          base := 0;
        }
        output := nextOutput;
        outputChanges := outputChanges + 1;
      }
      var byteLength := ByteLength(output);
      if byteLength > MAX_RETAINED_TURN_BYTES {
        var excess := byteLength - MAX_RETAINED_TURN_BYTES;
        output := DecodeFrom(output, excess);
        base := base + excess;
      }
    }
  }

  // ---------------------------------------------------------------- reading

  /** A cursor a caller may send. `None` stands for a number that is not a safe integer. */
  datatype Cursor =
    | NoCursor
    | Full(turnId: string, generation: Option<int>, offset: Option<int>)
    | Legacy(turnId: string, offset: Option<int>)

  /** `delimited` says whether the chunk read holds a delimited response. */
  datatype Request = Request(cursor: Cursor, afterVersion: Option<int>, maxBytes: Option<nat>, delimited: bool)

  datatype Reply = Reply(nothingNew: bool, status: Status, version: nat, cursor: Cursor,
                         chunk: Bytes, truncated: bool, expired: bool)

  datatype Place = Place(offset: nat, expired: bool)

  function CursorOffset(t: Turn, c: Cursor): (p: Place)
    ensures p.offset >= t.base
  {
    match c
    case NoCursor => Place(t.base, t.base > 0)
    case Full(turnId, generation, offset) =>
      if turnId != t.id || generation == None || offset == None
         || generation.value != t.generation || offset.value < t.base
      then Place(t.base, true) else Place(offset.value, false)
    case Legacy(turnId, offset) =>
      if turnId != t.id || offset == None || t.generation > 1 || offset.value < t.base
      then Place(t.base, true) else Place(offset.value, false)
  }

  function Clamped(t: Turn, c: Cursor): (p: Place)
    ensures t.base <= p.offset <= t.base + ByteLength(t.output)
  {
    var p := CursorOffset(t, c);
    var end := t.base + ByteLength(t.output);
    if p.offset > end then Place(end, true) else p
  }

  /** The length left after stepping back from `n` to the start of a character. */
  function BackToBoundary(available: Bytes, n: nat): (r: nat)
    requires n <= |available|
    ensures r <= n
  {
    if 0 < n < |available| && IsContinuation(available[n]) then BackToBoundary(available, n - 1) else n
  }

  function Limit(q: Request): nat {
    var m := if q.maxBytes.Some? then q.maxBytes.value else DEFAULT_TURN_READ_BYTES;
    if m < MAX_TURN_READ_BYTES then m else MAX_TURN_READ_BYTES
  }

  function Min(a: nat, b: nat): nat { if a < b then a else b }

  function Chunk(available: Bytes, limit: nat): Bytes {
    available[..BackToBoundary(available, Min(|available|, limit))]
  }

  function Read(t: Turn, q: Request): Reply {
    var p := Clamped(t, q.cursor);
    var available := Encode(t.output)[p.offset - t.base..];
    var chunk := Chunk(available, Limit(q));
    var nothingNew := q.afterVersion.Some? && t.version <= q.afterVersion.value && available == [];
    Reply(nothingNew, t.status, t.version, Full(t.id, Some(t.generation), Some(p.offset + |chunk|)),
          chunk, |available| > Limit(q) || (!q.delimited && DecodedLength(chunk) > Limit(q)), p.expired)
  }

  /** A read is marked as truncated if and only if more bytes than asked for are left, or they are not
      but decode to more; from a character boundary they never do. */
  lemma {:induction false} TruncatedExact(t: Turn, q: Request)
    ensures var from := Clamped(t, q.cursor).offset - t.base; var left := ByteLength(t.output) - from;
      (Read(t, q).truncated <==> left > Limit(q) || (!q.delimited && ByteLength(DecodeFrom(t.output, from)) > Limit(q))) &&
      (Boundary(t.output, from) ==> (Read(t, q).truncated <==> left > Limit(q)))
  {
    hide Clamped, Limit, ByteLength, DecodeFrom, Encode, Boundary, DecodedLength;
    var from := Clamped(t, q.cursor).offset - t.base;
    var available := Encode(t.output)[from..];
    DecodedTail(t.output, from);
    DecodeFromFaithful(t.output, from);
    if |available| <= Limit(q) { assert Chunk(available, Limit(q)) == available; }
  }

  /** A read says that nothing is new if and only if the caller has seen this version and asks from the
      end of the output; then there is nothing in it. Status and version are those of the turn. */
  lemma {:induction false} NothingNewExact(t: Turn, q: Request)
    ensures Read(t, q).nothingNew <==>
      q.afterVersion.Some? && t.version <= q.afterVersion.value && Clamped(t, q.cursor).offset == t.base + ByteLength(t.output)
    ensures Read(t, q).nothingNew ==> Shown(Read(t, q)) == Read(t, q).chunk == []
    ensures Read(t, q).status == t.status && Read(t, q).version == t.version
  {
    hide Clamped, Limit, ByteLength, DecodedLength;
  }

  /** Where a read starts: a cursor of this turn and generation that points into the retained output is
      honoured, and only that; any other starts at the base of the window, or, beyond its end, there. */
  lemma {:induction false} CursorExact(t: Turn, c: Cursor)
    ensures var p := Clamped(t, c); var end := t.base + ByteLength(t.output);
      (!p.expired <==> (c == NoCursor && t.base == 0) || (Points(t, c) && t.base <= c.offset.value <= end)) &&
      (p.offset == if Points(t, c) && c.offset.value >= t.base then Min(c.offset.value, end) else t.base)
  {
    hide ByteLength;
  }

  /** The cursor names this turn, its generation and an offset. */
  predicate Points(t: Turn, c: Cursor) {
    match c
    case NoCursor => false
    case Full(id, generation, offset) => id == t.id && generation == Some(t.generation) && offset.Some?
    case Legacy(id, offset) => id == t.id && t.generation <= 1 && offset.Some?
  }

  /** What the caller is shown of a reply. */
  function Shown(r: Reply): Bytes { if r.nothingNew then [] else r.chunk }

  method ReadTurn(t: Turn, q: Request) returns (r: Reply)
    ensures r == Read(t, q)
  {
    hide Encode, ByteLength, CursorOffset, BackToBoundary, Limit;
    var p := CursorOffset(t, q.cursor);
    var retainedEnd := t.base + ByteLength(t.output);
    if p.offset > retainedEnd { p := Place(retainedEnd, true); }
    assert p == Clamped(t, q.cursor);
    var available := Encode(t.output)[p.offset - t.base..];
    var nothingNew := q.afterVersion.Some? && t.version <= q.afterVersion.value && available == [];
    var chunkLength := StepBack(available, Min(|available|, Limit(q)));
    hide Clamped, DecodedLength;
    r := Reply(nothingNew, t.status, t.version,
               Full(t.id, Some(t.generation), Some(p.offset + chunkLength)),
               available[..chunkLength],
               |available| > Limit(q) || (!q.delimited && DecodedLength(available[..chunkLength]) > Limit(q)), p.expired);
  }

  method StepBack(available: Bytes, n: nat) returns (chunkLength: nat)
    requires n <= |available|
    ensures chunkLength == BackToBoundary(available, n)
  {
    chunkLength := n;
    while 0 < chunkLength < |available| && IsContinuation(available[chunkLength])
      invariant 0 <= chunkLength <= n
      invariant BackToBoundary(available, chunkLength) == BackToBoundary(available, n)
      decreases chunkLength
    {
      chunkLength := chunkLength - 1;
    }
  }

  /** On the bytes of whole characters the step back keeps exactly the characters that fit. */
  lemma {:induction false} BackToWholeChars(t: Text, n: nat)
    requires n <= ByteLength(t)
    ensures BackToBoundary(Encode(t), n) == ByteLength(t[..CharsWithin(t, n)])
  {
    BoundaryByByte(t, n);
    if Boundary(t, n) {
      BoundaryByByte(t, 0);
    } else {
      var k := CharsWithin(t, n);
      assert t[..0] == [];
      BackToWholeChars(t, n - 1);
      SameCharsWithin(t, n - 1, k);
    }
  }

  lemma {:induction false} SameCharsWithin(t: Text, n: nat, k: nat)
    requires k <= |t| && ByteLength(t[..k]) <= n
    requires k < |t| ==> n < ByteLength(t[..k + 1])
    ensures CharsWithin(t, n) == k
  {
    var j := CharsWithin(t, n);
    if j < k {
      assert t[..k][..j + 1] == t[..j + 1];
      PrefixMonotone(t[..k], j + 1);
    } else if k < j {
      assert t[..j][..k + 1] == t[..k + 1];
      PrefixMonotone(t[..j], k + 1);
    }
  }

  lemma {:induction false} PrefixMonotone(t: Text, i: nat)
    requires i <= |t|
    ensures ByteLength(t[..i]) <= ByteLength(t)
  {
    SplitBytes(t, i);
  }

  // ---------------------------------------------------------------- one append-only stream

  /** The window is the tail of `stream` from character `cut` on, at its true byte offset. */
  ghost predicate Window(t: Turn, stream: Text, cut: nat) {
    cut <= |stream| && t.output == stream[cut..] && t.base == ByteLength(stream[..cut])
  }

  /** The retention cut of this refresh falls on a character boundary. */
  ghost predicate CleanCut(t: Turn, o: Observation) {
    Finished(t.status) || !Changes(t, o) ||
    Boundary(Extended(t, o.snapshot).output, Excess(Extended(t, o.snapshot)))
  }

  ghost function StreamAfter(t: Turn, snapshot: Text, stream: Text): Text {
    if Finished(t.status) || snapshot == t.last then stream
    else
      var next := OutputSince(t.initial, snapshot);
      if NewGeneration(t, snapshot) then next
      else if |t.output| <= |next| then stream + next[|t.output|..] else stream
  }

  ghost function CutAfter(t: Turn, o: Observation, cut: nat): nat {
    if Finished(t.status) || !Changes(t, o) then cut
    else (if NewGeneration(t, o.snapshot) then 0 else cut) + Dropped(Extended(t, o.snapshot))
  }

  /** The number of characters the retention cut drops. */
  ghost function Dropped(e: Turn): nat {
    if Excess(e) == 0 then 0 else CharsWithin(e.output, Excess(e))
  }

  /** The retention cut keeps exactly the last bytes of the output if and only if it falls on a
      character boundary; otherwise the window ends beyond the stream it came from. */
  lemma {:induction false} RetentionFaithful(t: Turn)
    ensures Encode(Retained(t).output) == Encode(t.output)[Excess(t)..] <==> Boundary(t.output, Excess(t))
    ensures !Boundary(t.output, Excess(t)) ==>
              Retained(t).base + ByteLength(Retained(t).output) > t.base + ByteLength(t.output)
  {
    DecodeFromFaithful(t.output, Excess(t));
    if Excess(t) == 0 { PrefixIsBoundary(t.output, 0); assert t.output[..0] == []; }
  }

  /** A two-byte character whose second byte is the first one kept becomes a three-byte
      replacement character: the window then ends two bytes beyond its stream. */
  lemma {:induction false} MidCharacterCut(t: Turn)
    requires t.output == [0xE9] + seq(MAX_RETAINED_TURN_BYTES - 1, _ => 0x61)
    ensures !Boundary(t.output, Excess(t))
    ensures Retained(t).base + ByteLength(Retained(t).output) == t.base + ByteLength(t.output) + 2
  {
    var rest: Text := seq(MAX_RETAINED_TURN_BYTES - 1, _ => 0x61);
    AsciiLength(MAX_RETAINED_TURN_BYTES - 1, 0x61);
    assert t.output[1..] == rest;
    EncodeScrubbed(rest);
    Replacements(1, DecodeFrom(rest, 0));
    assert t.output[..0] == [];
  }

  /** Whole-character cuts drop whole characters, once surrogates are out of the way. */
  lemma {:induction false} DecodeAtBoundary(t: Text, n: nat)
    requires n <= ByteLength(t) && Boundary(t, n)
    requires forall i :: CharsWithin(t, n) <= i < |t| ==> !IsSurrogate(t[i])
    ensures DecodeFrom(t, n) == t[CharsWithin(t, n)..]
  {
    if t == [] {
    } else if n >= Width(t[0]) {
      var k := CharsWithin(t[1..], n - Width(t[0]));
      assert t[..k + 1] == [t[0]] + t[1..][..k];
      DecodeAtBoundary(t[1..], n - Width(t[0]));
      assert t[1..][k..] == t[k + 1..];
    } else {
      assert t[0..] == t;
    }
  }

  predicate WellFormed(t: Text) { forall c <- t :: !IsSurrogate(c) }

  /** Output may begin with the low half of a split pair; all that follows is well formed. */
  predicate TailWellFormed(t: Text) { forall i :: 1 <= i < |t| ==> !IsSurrogate(t[i]) }

  /** Within a generation a refresh only appends to the stream; a new generation starts one. */
  lemma {:induction false} RefreshKeepsWindow(t: Turn, o: Observation, stream: Text, cut: nat)
    requires Window(t, stream, cut) && CleanCut(t, o) && WellFormed(o.snapshot) && TailWellFormed(t.output)
    ensures Window(Refreshed(t, o), StreamAfter(t, o.snapshot, stream), CutAfter(t, o, cut))
    ensures TailWellFormed(Refreshed(t, o).output)
    ensures Refreshed(t, o).generation == t.generation ==> stream <= StreamAfter(t, o.snapshot, stream)
    ensures t.generation <= Refreshed(t, o).generation <= t.generation + 1
  {
    hide OutputSince, ByteLength, NextStatus, TailWellFormed, WellFormed, Boundary;
    if !Finished(t.status) && Changes(t, o) {
      ExtendKeepsWindow(t, o.snapshot, stream, cut);
      var e := Extended(t, o.snapshot);
      CutKeepsWindow(e, StreamAfter(t, o.snapshot, stream), if NewGeneration(t, o.snapshot) then 0 else cut);
    }
  }

  lemma {:induction false} OutputWellFormed(initial: Text, snapshot: Text)
    requires WellFormed(snapshot)
    ensures TailWellFormed(OutputSince(initial, snapshot))
  {
    hide CommonPrefix;
  }

  lemma {:induction false} ExtendKeepsWindow(t: Turn, snapshot: Text, stream: Text, cut: nat)
    requires Window(t, stream, cut) && WellFormed(snapshot) && TailWellFormed(t.output) && !Finished(t.status)
    ensures Window(Extended(t, snapshot), StreamAfter(t, snapshot, stream), if NewGeneration(t, snapshot) then 0 else cut)
    ensures TailWellFormed(Extended(t, snapshot).output)
    ensures !NewGeneration(t, snapshot) ==> stream <= StreamAfter(t, snapshot, stream)
  {
    OutputWellFormed(t.initial, snapshot);
    hide OutputSince, TailWellFormed, WellFormed, ByteLength;
    var next := OutputSince(t.initial, snapshot);
    if snapshot != t.last {
      if NewGeneration(t, snapshot) {
        assert next[..0] == [] && next[0..] == next;
        assert ByteLength([]) == 0 by { EmptyBytes(); }
      } else {
        assert t.output <= next;
        AppendsToStream(t.output, next, stream, cut);
      }
    }
  }

  lemma {:induction false} EmptyBytes()
    ensures ByteLength([]) == 0
  {
  }

  lemma {:induction false} AppendsToStream(output: Text, next: Text, stream: Text, cut: nat)
    requires output <= next && cut <= |stream| && stream[cut..] == output
    ensures var s := stream + next[|output|..]; cut <= |s| && s[cut..] == next && s[..cut] == stream[..cut] && stream <= s
  {
    assert next == output + next[|output|..];
  }

  lemma {:induction false} CutKeepsWindow(e: Turn, s: Text, c: nat)
    requires Window(e, s, c) && Boundary(e.output, Excess(e)) && TailWellFormed(e.output)
    ensures Window(Retained(e), s, c + Dropped(e))
    ensures TailWellFormed(Retained(e).output)
  {
    hide Encode, Width, CharsWithin;
    if Excess(e) > 0 {
      var k := CharsWithin(e.output, Excess(e));
      assert e.output[..0] == [];
      DecodeAtBoundary(e.output, Excess(e));
      assert s[..c + k] == s[..c] + e.output[..k];
      EncodeAppend(s[..c], e.output[..k]);
      assert s[c..][k..] == s[c + k..];
    }
  }

  /** `[a..b]` are the most whole characters from `a` on that fit in `limit` bytes. */
  ghost predicate Fits(s: Text, a: nat, b: nat, limit: nat) {
    a <= b <= |s| && ByteLength(s[a..b]) <= limit &&
    (b < |s| ==> limit < ByteLength(s[a..b + 1]))
  }

  lemma {:induction false} WholeCharsFit(s: Text, a: nat, limit: nat) returns (b: nat)
    requires a <= |s|
    ensures Fits(s, a, b, limit)
    ensures Chunk(Encode(s[a..]), limit) == Encode(s[a..b])
  {
    hide Encode, ByteLength, CharsWithin, CharBytes, Width, BackToBoundary;
    var rest := s[a..];
    var m := Min(ByteLength(rest), limit);
    BackToWholeChars(rest, m);
    var k := CharsWithin(rest, m);
    b := a + k;
    assert rest[..k] == s[a..b];
    SplitBytes(rest, k);
    if k < |rest| {
      SplitBytes(rest, k + 1);
      assert rest[..k + 1] == s[a..b + 1];
    }
  }

  lemma {:induction false} FitsNothing(s: Text, a: nat, b: nat, limit: nat)
    requires Fits(s, a, b, limit)
    ensures a == b <==> a == |s| || limit < Width(s[a])
  {
    if a < |s| {
      assert s[a..a + 1] == [s[a]] && ByteLength([s[a]]) == Width(s[a]);
      if a < b {
        assert s[a..b][..1] == [s[a]];
        PrefixMonotone(s[a..b], 1);
      }
    }
  }

  /** A read that starts at character `a` of the stream returns whole characters from there,
      as many as fit, and names the offset where they end. */
  lemma {:induction false} ReadWholeChars(t: Turn, q: Request, stream: Text, cut: nat, a: nat) returns (b: nat)
    requires Window(t, stream, cut) && cut <= a <= |stream|
    requires Clamped(t, q.cursor).offset == ByteLength(stream[..a])
    ensures Fits(stream, a, b, Min(if q.maxBytes.Some? then q.maxBytes.value else 32_768, 131_072))
    ensures Read(t, q).chunk == Encode(stream[a..b])
    ensures Read(t, q).cursor == Full(t.id, Some(t.generation), Some(ByteLength(stream[..b])))
  {
    hide Encode, ByteLength, Width, BackToBoundary, CursorOffset;
    AvailableBytes(t, stream, cut, a);
    b := WholeCharsFit(stream, a, Limit(q));
    AdvanceOffset(stream, a, b);
  }

  lemma {:induction false} AvailableBytes(t: Turn, stream: Text, cut: nat, a: nat)
    requires Window(t, stream, cut) && cut <= a <= |stream|
    ensures 0 <= ByteLength(stream[..a]) - t.base <= ByteLength(t.output)
    ensures Encode(t.output)[ByteLength(stream[..a]) - t.base..] == Encode(stream[a..])
  {
    hide Encode, ByteLength, Width;
    SplitBytes(t.output, a - cut);
    SplitBytes(stream[..a], cut);
    assert t.output[a - cut..] == stream[a..] && t.output[..a - cut] == stream[cut..a];
    assert stream[..a][..cut] == stream[..cut] && stream[..a][cut..] == stream[cut..a];
  }

  lemma {:induction false} AdvanceOffset(stream: Text, a: nat, b: nat)
    requires a <= b <= |stream|
    ensures ByteLength(stream[..b]) == ByteLength(stream[..a]) + ByteLength(stream[a..b])
  {
    assert stream[..b] == stream[..a] + stream[a..b];
    EncodeAppend(stream[..a], stream[a..b]);
  }

  /** With room for any character, every read before the end makes progress. */
  lemma {:induction false} ReadProgress(t: Turn, q: Request, stream: Text, cut: nat, a: nat)
    requires Window(t, stream, cut) && cut <= a < |stream|
    requires Clamped(t, q.cursor).offset == ByteLength(stream[..a])
    requires q.maxBytes == None || q.maxBytes.value >= 4
    ensures Read(t, q).chunk != []
  {
    var b := ReadWholeChars(t, q, stream, cut, a);
    FitsNothing(stream, a, b, Limit(q));
    assert stream[a..b] != [];
  }

  // ---------------------------------------------------------------- runs

  /** A reader that always sends back the cursor it was given last. `collected` is what it was shown
      since its chain began at character `from`; an expired reply begins a new chain. */
  datatype Reader = Reader(cursor: Cursor, generation: nat, from: nat, collected: Bytes)

  datatype Event = Refresh(o: Observation) | Fetch(afterVersion: Option<int>, maxBytes: Option<nat>, delimited: bool)

  /** The turn, the stream of every generation so far, the cut of the last one, and a reader. */
  datatype World = World(turn: Turn, streams: seq<Text>, cut: nat, reader: Reader)

  ghost function Initially(id: string, session: string, initial: Text): World {
    World(Opened(id, session, initial), [[]], 0, Reader(NoCursor, 1, 0, []))
  }

  ghost function Step(w: World, e: Event): World
    requires w.streams != []
  {
    match e
    case Refresh(o) =>
      var s := StreamAfter(w.turn, o.snapshot, w.streams[|w.streams| - 1]);
      var t := Refreshed(w.turn, o);
      w.(turn := t, cut := CutAfter(w.turn, o, w.cut),
         streams := if t.generation == w.turn.generation then w.streams[|w.streams| - 1 := s] else w.streams + [s])
    case Fetch(afterVersion, maxBytes, delimited) =>
      var r := Read(w.turn, Request(w.reader.cursor, afterVersion, maxBytes, delimited));
      w.(reader := if w.reader.cursor == NoCursor || r.expired
                   then Reader(r.cursor, w.turn.generation, w.cut, Shown(r))
                   else w.reader.(cursor := r.cursor, collected := w.reader.collected + Shown(r)))
  }

  ghost predicate CleanStep(w: World, e: Event) {
    e.Refresh? ==> WellFormed(e.o.snapshot) && CleanCut(w.turn, e.o)
  }

  /** What the reader collected is a slice of whole characters of one generation's stream. */
  ghost predicate ReaderInv(w: World) {
    w.reader.cursor == NoCursor ||
    (var g := w.reader.generation;
     1 <= g <= |w.streams| && w.reader.cursor.Full? && w.reader.cursor.turnId == w.turn.id &&
     w.reader.cursor.generation == Some(g) &&
     ReadsSlice(w.reader, w.streams[g - 1]))
  }

  ghost predicate ReadsSlice(r: Reader, stream: Text)
    requires r.cursor.Full?
  {
    exists to: nat :: ReadsTo(r, stream, to)
  }

  ghost predicate ReadsTo(r: Reader, stream: Text, to: nat)
    requires r.cursor.Full?
  {
    r.from <= to <= |stream| && r.collected == Encode(stream[r.from..to]) &&
    r.cursor.offset == Some(ByteLength(stream[..to]))
  }

  ghost predicate Inv(w: World) {
    |w.streams| == w.turn.generation && w.turn.generation > 0 &&
    Window(w.turn, w.streams[|w.streams| - 1], w.cut) && TailWellFormed(w.turn.output) && ReaderInv(w)
  }

  ghost predicate Grown(early: seq<Text>, late: seq<Text>) {
    |early| <= |late| && forall g :: 0 <= g < |early| ==> early[g] <= late[g]
  }

  lemma {:induction false} RefreshInv(w: World, o: Observation)
    requires Inv(w) && CleanStep(w, Refresh(o))
    ensures Inv(Step(w, Refresh(o)))
    ensures Grown(w.streams, Step(w, Refresh(o)).streams)
  {
    hide OutputSince, ByteLength, NextStatus, TailWellFormed, WellFormed, Window;
    RefreshKeepsWindow(w.turn, o, w.streams[|w.streams| - 1], w.cut);
    var w' := Step(w, Refresh(o));
    assert Grown(w.streams, w'.streams);
    GrownReader(w, w');
  }

  lemma {:induction false} GrownReader(w: World, w': World)
    requires ReaderInv(w) && Grown(w.streams, w'.streams) && w'.reader == w.reader && w'.turn.id == w.turn.id
    ensures ReaderInv(w')
  {
    if w.reader.cursor != NoCursor {
      GrownSlice(w.reader, w.streams[w.reader.generation - 1], w'.streams[w.reader.generation - 1]);
    }
  }

  lemma {:induction false} GrownSlice(r: Reader, s: Text, s': Text)
    requires r.cursor.Full? && ReadsSlice(r, s) && s <= s'
    ensures ReadsSlice(r, s')
  {
    var to: nat :| ReadsTo(r, s, to);
    assert s'[..to] == s[..to] && s'[r.from..to] == s[r.from..to];
    assert ReadsTo(r, s', to);
  }

  lemma {:induction false} FetchInv(w: World, e: Event)
    requires Inv(w) && e.Fetch?
    ensures Inv(Step(w, e))
  {
    hide Encode, ByteLength, Width, Chunk, Refreshed, StreamAfter, CutAfter, TailWellFormed, ReadsTo;
    var q := Request(w.reader.cursor, e.afterVersion, e.maxBytes, e.delimited);
    var stream := w.streams[|w.streams| - 1];
    NothingNewExact(w.turn, q);
    if w.reader.cursor == NoCursor || Read(w.turn, q).expired {
      ExpiredAtBase(w);
      ChainBegins(w.turn, q, stream, w.cut);
    } else {
      ChainContinues(w.turn, q, stream, w.cut, w.reader);
    }
  }

  lemma {:induction false} ChainBegins(t: Turn, q: Request, stream: Text, cut: nat)
    requires Window(t, stream, cut) && Clamped(t, q.cursor).offset == t.base
    ensures ReadsSlice(Reader(Read(t, q).cursor, t.generation, cut, Read(t, q).chunk), stream)
  {
    var b := ReadWholeChars(t, q, stream, cut, cut);
    assert ReadsTo(Reader(Read(t, q).cursor, t.generation, cut, Read(t, q).chunk), stream, b);
  }

  lemma {:induction false} JoinSlices(s: Text, i: nat, j: nat, k: nat)
    requires i <= j <= k <= |s|
    ensures Encode(s[i..k]) == Encode(s[i..j]) + Encode(s[j..k])
  {
    assert s[i..k] == s[i..j] + s[j..k];
    EncodeAppend(s[i..j], s[j..k]);
  }

  lemma {:induction false} ChainContinues(t: Turn, q: Request, stream: Text, cut: nat, r: Reader)
    requires Window(t, stream, cut) && r.cursor.Full? && ReadsSlice(r, stream)
    requires q.cursor == r.cursor && !Clamped(t, r.cursor).expired
    ensures ReadsSlice(r.(cursor := Read(t, q).cursor, collected := r.collected + Read(t, q).chunk), stream)
  {
    hide Encode, Width, Chunk;
    var to: nat :| ReadsTo(r, stream, to);
    assert cut <= to by { if to < cut { LongerPrefix(stream, to, cut); } }
    var b := ReadWholeChars(t, q, stream, cut, to);
    JoinSlices(stream, r.from, to, b);
    assert ReadsTo(r.(cursor := Read(t, q).cursor, collected := r.collected + Read(t, q).chunk), stream, b);
  }

  lemma {:induction false} LongerPrefix(s: Text, i: nat, j: nat)
    requires i < j <= |s|
    ensures ByteLength(s[..i]) < ByteLength(s[..j])
  {
    SplitBytes(s[..j], i);
    assert s[..j][..i] == s[..i] && s[..j][i..] != [];
  }

  /** A cursor the service issued never points past the retained output, so an expired reply
      always starts at the base of the window. */
  lemma {:induction false} ExpiredAtBase(w: World)
    requires Inv(w)
    requires w.reader.cursor == NoCursor || Clamped(w.turn, w.reader.cursor).expired
    ensures Clamped(w.turn, w.reader.cursor).offset == w.turn.base
  {
    if w.reader.cursor != NoCursor && w.reader.generation == w.turn.generation {
      var stream := w.streams[|w.streams| - 1];
      var to: nat :| ReadsTo(w.reader, stream, to);
      SplitBytes(stream, to);
      SplitBytes(stream, w.cut);
    }
  }

  ghost function Run(w: World, events: seq<Event>): (w': World)
    requires w.streams != []
    ensures w'.streams != []
    decreases |events|
  {
    if events == [] then w else Step(Run(w, events[..|events| - 1]), events[|events| - 1])
  }

  ghost predicate CleanRun(w: World, events: seq<Event>)
    requires w.streams != []
    decreases |events|
  {
    events == [] ||
    (CleanRun(w, events[..|events| - 1]) &&
     CleanStep(Run(w, events[..|events| - 1]), events[|events| - 1]))
  }

  lemma {:induction false} RunInv(id: string, session: string, initial: Text, events: seq<Event>)
    requires CleanRun(Initially(id, session, initial), events)
    ensures Inv(Run(Initially(id, session, initial), events))
    decreases |events|
  {
    if events != [] {
      RunInv(id, session, initial, events[..|events| - 1]);
      var w := Run(Initially(id, session, initial), events[..|events| - 1]);
      match events[|events| - 1] {
        case Refresh(o) => RefreshInv(w, o);
        case Fetch(_, _, _) => FetchInv(w, events[|events| - 1]);
      }
    }
  }

  /** Over any run of refreshes and reads whose cuts fall on character boundaries, the chunks of
      a chain of cursors concatenate to the bytes between two offsets of the generation's stream. */
  lemma {:induction false} ChainReadsContiguousSlice(id: string, session: string, initial: Text, events: seq<Event>)
    requires CleanRun(Initially(id, session, initial), events)
    ensures ChainIsSlice(Run(Initially(id, session, initial), events))
  {
    RunInv(id, session, initial, events);
    InvMakesSlice(Run(Initially(id, session, initial), events));
  }

  ghost predicate ChainIsSlice(w: World) {
    w.reader.cursor == NoCursor ||
    (1 <= w.reader.generation <= |w.streams| &&
     var stream := w.streams[w.reader.generation - 1];
     w.reader.cursor.Full? && w.reader.cursor.offset.Some? && w.reader.from <= |stream| &&
     ByteLength(stream[..w.reader.from]) <= w.reader.cursor.offset.value <= ByteLength(stream) &&
     w.reader.collected == Encode(stream)[ByteLength(stream[..w.reader.from])..w.reader.cursor.offset.value])
  }

  lemma {:induction false} InvMakesSlice(w: World)
    requires Inv(w)
    ensures ChainIsSlice(w)
  {
    if w.reader.cursor != NoCursor {
      var stream := w.streams[w.reader.generation - 1];
      var to: nat :| ReadsTo(w.reader, stream, to);
      SliceBytes(stream, w.reader.from, to);
    }
  }

  lemma {:induction false} SliceBytes(s: Text, i: nat, j: nat)
    requires i <= j <= |s|
    ensures ByteLength(s[..i]) <= ByteLength(s[..j]) <= ByteLength(s)
    ensures Encode(s[i..j]) == Encode(s)[ByteLength(s[..i])..ByteLength(s[..j])]
  {
    SplitBytes(s, j);
    SplitBytes(s[..j], i);
    assert s[..j][..i] == s[..i] && s[..j][i..] == s[i..j];
  }

  /** A refresh never rewrites what any generation's stream already holds. */
  lemma {:induction false} StreamsOnlyGrow(id: string, session: string, initial: Text, events: seq<Event>, n: nat)
    requires n <= |events| && CleanRun(Initially(id, session, initial), events)
    ensures var w0 := Initially(id, session, initial);
            Grown(Run(w0, events[..n]).streams, Run(w0, events).streams)
    decreases |events|
  {
    if n == |events| {
      assert events[..n] == events;
    } else {
      var rest := events[..|events| - 1];
      StreamsOnlyGrow(id, session, initial, rest, n);
      assert rest[..n] == events[..n];
      RunInv(id, session, initial, rest);
      var w := Run(Initially(id, session, initial), rest);
      if events[|events| - 1].Refresh? { RefreshInv(w, events[|events| - 1].o); }
    }
  }

  /** Whatever has been read stays readable: a reader's chain expires only when the generation
      changed or retention moved the base past it. */
  lemma {:induction false} ExpiryExact(w: World)
    requires Inv(w) && w.reader.cursor != NoCursor
    ensures Clamped(w.turn, w.reader.cursor).expired <==>
            w.reader.generation != w.turn.generation || w.reader.cursor.offset.value < w.turn.base
  {
    if w.reader.generation == w.turn.generation {
      var stream := w.streams[|w.streams| - 1];
      var to: nat :| ReadsTo(w.reader, stream, to);
      SplitBytes(stream, to);
      SplitBytes(stream, w.cut);
    }
  }

  /** After the window was cut, the next capture starts a new generation unless the whole
      output since the start happens to begin with the retained window. */
  lemma {:induction false} CutThenNewGeneration(t: Turn, o: Observation, stream: Text, cut: nat)
    requires Window(t, stream, cut) && 0 < cut < |stream| && o.snapshot != t.last && !Finished(t.status)
    requires stream <= OutputSince(t.initial, o.snapshot)
    ensures Refreshed(t, o).generation == t.generation + 1 <==> exists i :: 0 <= i < |stream| - cut && stream[cut + i] != stream[i]
  {
    var next := OutputSince(t.initial, o.snapshot);
    RefreshExact(t, o);
    hide Refreshed, OutputSince, ByteLength;
    assert |t.output| == |stream| - cut && forall i :: 0 <= i < |t.output| ==> t.output[i] == stream[cut + i];
    forall i | 0 <= i < |stream| ensures next[i] == stream[i] { assert next[..|stream|][i] == next[i]; }
    if t.output <= next {
      forall i | 0 <= i < |stream| - cut ensures stream[cut + i] == stream[i] { assert t.output[i] == next[i]; }
    }
    if forall i :: 0 <= i < |stream| - cut ==> stream[cut + i] == stream[i] { assert t.output == next[..|t.output|]; }
  }
}
