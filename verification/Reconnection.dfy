/** The reconnection supervisor: timers, running attempts, manual retries and marks of one host.
    One step is the code between two awaits, so a step either comes from outside or continues after
    a timer, a reconnect action or a round of state listeners. */
module Reconnection {
  datatype Option<T> = None | Some(value: T)

  datatype Status = Connected | Reconnecting | Disconnected

  /** What a running attempt waits for: its action, the listeners told that it is over, or the
      listeners told that attempt `next` will follow. */
  datatype Phase = Acting | Settling | Rescheduling(next: nat)

  datatype Attempt = Attempt(number: nat, phase: Phase)

  /** What the event loop holds for a host: live timers with the attempt they start, running
      attempts, and the attempts of manual retries whose listeners are being told. */
  datatype Loop = Loop(timers: map<nat, nat>, running: seq<Attempt>, manual: seq<nat>)

  /** `entry` is the host's entry in the timer table, `inFlight` whether it is in the in-flight set. */
  datatype Host = Host(status: Status, attempt: nat, entry: Option<nat>, inFlight: bool, loop: Loop)

  datatype Result = Success | AuthFailure | Failure

  /** `id` is the handle a new timer gets. */
  datatype Step =
    | Drop(auth: bool, id: nat)
    | Retry
    | MarkConnected
    | MarkDisconnected
    | Fire(timer: nat)
    | Go(manual: nat)
    | Return(attempt: nat, result: Result)
    | Reschedule(attempt: nat, id: nat)
    | Settle(attempt: nat)

  const Initial := Host(Connected, 0, None, false, Loop(map[], [], []))

  predicate Enabled(h: Host, step: Step) {
    match step
    case Drop(_, id) => id !in h.loop.timers
    case Retry => true
    case MarkConnected => true
    case MarkDisconnected => true
    case Fire(id) => id in h.loop.timers
    case Go(i) => i < |h.loop.manual|
    case Return(i, _) => i < |h.loop.running| && h.loop.running[i].phase == Acting
    case Reschedule(i, id) => i < |h.loop.running| && h.loop.running[i].phase.Rescheduling? && id !in h.loop.timers
    case Settle(i) => i < |h.loop.running| && h.loop.running[i].phase == Settling
  }

  function Cleared(h: Host): Host {
    if h.entry == None then h
    else h.(entry := None, loop := h.loop.(timers := h.loop.timers - {h.entry.value}))
  }

  function Scheduled(h: Host, id: nat, attempt: nat): Host {
    var c := Cleared(h);
    c.(entry := Some(id), loop := c.loop.(timers := c.loop.timers[id := attempt]))
  }

  /** A start is swallowed while an attempt is in flight. */
  function Started(h: Host, attempt: nat): Host {
    if h.inFlight then h
    else h.(inFlight := true, loop := h.loop.(running := h.loop.running + [Attempt(attempt, Acting)]))
  }

  function Without<T>(s: seq<T>, i: nat): seq<T>
    requires i < |s|
  {
    s[..i] + s[i + 1..]
  }

  function Over(h: Host, i: nat): Host
    requires i < |h.loop.running|
  {
    h.(inFlight := false, loop := h.loop.(running := Without(h.loop.running, i)))
  }

  function InPhase(h: Host, i: nat, phase: Phase): Host
    requires i < |h.loop.running|
  {
    h.(loop := h.loop.(running := h.loop.running[i := h.loop.running[i].(phase := phase)]))
  }

  function Next(h: Host, step: Step, max: nat): Host
    requires Enabled(h, step)
  {
    match step
    case Drop(auth, id) =>
      if auth then Cleared(h).(status := Disconnected)
      else if h.status == Reconnecting && h.entry.Some? then h
      else Scheduled(h.(status := Reconnecting, attempt := 1), id, 1)
    case Retry =>
      var attempt := if h.status == Reconnecting then h.attempt else 1;
      var c := Cleared(h);
      c.(status := Reconnecting, attempt := attempt, loop := c.loop.(manual := c.loop.manual + [attempt]))
    case MarkConnected => Cleared(h).(status := Connected, attempt := 0)
    case MarkDisconnected => Cleared(h).(status := Disconnected)
    case Fire(id) =>
      Started(h.(entry := None, loop := h.loop.(timers := h.loop.timers - {id})), h.loop.timers[id])
    case Go(i) => Started(h.(loop := h.loop.(manual := Without(h.loop.manual, i))), h.loop.manual[i])
    case Return(i, result) => Returned(h, i, result, max)
    case Reschedule(i, id) => Over(Scheduled(h, id, h.loop.running[i].phase.next), i)
    case Settle(i) => Over(h, i)
  }

  function Returned(h: Host, i: nat, result: Result, max: nat): Host
    requires i < |h.loop.running|
  {
    var number := h.loop.running[i].number;
    match result
    case Success => InPhase(Cleared(h).(status := Connected, attempt := 0), i, Settling)
    case AuthFailure => InPhase(Cleared(h).(status := Disconnected), i, Settling)
    case Failure =>
      if number + 1 > max then InPhase(h.(status := Disconnected, attempt := number), i, Settling)
      else InPhase(h.(status := Reconnecting, attempt := number + 1), i, Rescheduling(number + 1))
  }

  ghost predicate IsRun(h: Host, steps: seq<Step>, t: Host, max: nat)
    decreases |steps|
  {
    if steps == [] then h == t else Enabled(h, steps[0]) && IsRun(Next(h, steps[0], max), steps[1..], t, max)
  }

  // ---------------------------------------------------------------- the invariant

  /** The attempts a host is allowed, at least the one a drop always starts. */
  function Top(max: nat): nat { if max == 0 then 1 else max }

  ghost predicate AttemptInv(a: Attempt, max: nat) {
    1 <= a.number <= Top(max) && (a.phase.Rescheduling? ==> a.phase.next == a.number + 1 <= max)
  }

  /** The timer table names the one live timer, if there is one; the in-flight set says exactly
      whether an attempt runs, and no two do. */
  ghost predicate Inv(h: Host, max: nat) {
    (h.entry == None ==> h.loop.timers == map[]) &&
    (h.entry.Some? ==> h.entry.value in h.loop.timers && h.loop.timers == map[h.entry.value := h.loop.timers[h.entry.value]]) &&
    |h.loop.running| == (if h.inFlight then 1 else 0) &&
    (h.entry.Some? ==> 1 <= h.loop.timers[h.entry.value] <= Top(max)) &&
    (h.inFlight ==> AttemptInv(h.loop.running[0], max)) &&
    (forall i :: 0 <= i < |h.loop.manual| ==> 1 <= h.loop.manual[i] <= Top(max)) &&
    h.attempt <= Top(max) && (h.status == Reconnecting ==> h.attempt >= 1)
  }

  lemma {:induction false} NextKeepsInv(h: Host, step: Step, max: nat)
    requires Inv(h, max) && Enabled(h, step)
    ensures Inv(Next(h, step, max), max)
  {
    match step {
      case Return(i, result) => ReturnKeepsInv(h, i, result, max);
      case Fire(_) => StartKeepsInv(h, step, max);
      case Go(_) => StartKeepsInv(h, step, max);
      case Reschedule(_, _) => EndKeepsInv(h, step, max);
      case Settle(_) => EndKeepsInv(h, step, max);
      case _ => OutsideKeepsInv(h, step, max);
    }
  }

  lemma {:induction false} ReturnKeepsInv(h: Host, i: nat, result: Result, max: nat)
    requires Inv(h, max) && Enabled(h, Return(i, result))
    ensures Inv(Next(h, Return(i, result), max), max)
  {
    assert i == 0;
    assert Cleared(h).loop.timers == map[];
  }

  lemma {:induction false} StartKeepsInv(h: Host, step: Step, max: nat)
    requires Inv(h, max) && Enabled(h, step) && (step.Fire? || step.Go?)
    ensures Inv(Next(h, step, max), max)
  {
  }

  lemma {:induction false} EndKeepsInv(h: Host, step: Step, max: nat)
    requires Inv(h, max) && Enabled(h, step) && (step.Reschedule? || step.Settle?)
    ensures Inv(Next(h, step, max), max)
  {
    assert Cleared(h).loop.timers == map[];
  }

  lemma {:induction false} OutsideKeepsInv(h: Host, step: Step, max: nat)
    requires Inv(h, max) && Enabled(h, step) && (step.Drop? || step.Retry? || step.MarkConnected? || step.MarkDisconnected?)
    ensures Inv(Next(h, step, max), max)
  {
    assert Cleared(h).loop.timers == map[];
  }

  lemma {:induction false} RunKeepsInv(h: Host, steps: seq<Step>, t: Host, max: nat)
    requires Inv(h, max) && IsRun(h, steps, t, max)
    ensures Inv(t, max)
    decreases |steps|
  {
    hide Inv, Next, Enabled;
    if steps != [] {
      NextKeepsInv(h, steps[0], max);
      RunKeepsInv(Next(h, steps[0], max), steps[1..], t, max);
    }
  }

  /** In every interleaving: one timer, which the table knows; one attempt in flight; and no attempt
      beyond the limit, be it stored, scheduled, running or waiting. */
  lemma {:induction false} OneTimerOneAttempt(steps: seq<Step>, t: Host, max: nat)
    requires IsRun(Initial, steps, t, max)
    ensures forall a, b :: a in t.loop.timers && b in t.loop.timers ==> a == b
    ensures forall a :: a in t.loop.timers <==> t.entry == Some(a)
    ensures |t.loop.running| <= 1 && (t.inFlight <==> |t.loop.running| == 1)
    ensures t.attempt <= Top(max) && forall a :: a in t.loop.timers ==> 1 <= t.loop.timers[a] <= Top(max)
    ensures forall i :: 0 <= i < |t.loop.running| ==> 1 <= t.loop.running[i].number <= Top(max)
    ensures forall i :: 0 <= i < |t.loop.manual| ==> 1 <= t.loop.manual[i] <= Top(max)
  {
    RunKeepsInv(Initial, steps, t, max);
  }

  // ---------------------------------------------------------------- does reconnecting go on?

  /** Something will still try: a timer, a manual retry, or an attempt that is not over. */
  predicate Underway(h: Host) {
    h.entry.Some? || h.loop.manual != [] || (|h.loop.running| > 0 && h.loop.running[0].phase != Settling)
  }

  predicate Stranded(h: Host) { h.status == Reconnecting && !Underway(h) }

  /** A timer or a manual retry wants to start an attempt while one is in flight that is over
      already and only waits for listeners. */
  predicate SwallowedLate(h: Host, step: Step) {
    (step.Fire? || step.Go?) && h.inFlight && |h.loop.running| > 0 && h.loop.running[0].phase == Settling
  }

  /** A reconnecting host loses its last prospect exactly by a start that is swallowed while the
      attempt in flight is already over, and nothing else is waiting. */
  lemma {:induction false} StrandedExact(h: Host, step: Step, max: nat)
    requires Inv(h, max) && Enabled(h, step) && !Stranded(h)
    ensures Stranded(Next(h, step, max)) <==>
      SwallowedLate(h, step) && h.status == Reconnecting && (step.Go? ==> h.entry == None && |h.loop.manual| == 1) &&
      (step.Fire? ==> h.loop.manual == [])
  {
  }

  ghost predicate NoneSwallowedLate(h: Host, steps: seq<Step>, max: nat)
    decreases |steps|
  {
    steps != [] && Enabled(h, steps[0]) ==>
      !SwallowedLate(h, steps[0]) && NoneSwallowedLate(Next(h, steps[0], max), steps[1..], max)
  }

  /** As long as listeners are told before the next start comes, a reconnecting host always has a
      timer, a manual retry or an attempt that goes on. */
  lemma {:induction false} NeverStranded(h: Host, steps: seq<Step>, t: Host, max: nat)
    requires Inv(h, max) && !Stranded(h) && IsRun(h, steps, t, max) && NoneSwallowedLate(h, steps, max)
    ensures !Stranded(t)
    decreases |steps|
  {
    if steps != [] {
      NextKeepsInv(h, steps[0], max);
      StrandedExact(h, steps[0], max);
      hide Inv, Next, Enabled, Stranded, SwallowedLate;
      NeverStranded(Next(h, steps[0], max), steps[1..], t, max);
    }
  }

  /** It does happen: a connection that is just back drops again, its timer fires while the
      listeners are still being told of the success, and the host stays reconnecting with nothing
      left that would try. */
  lemma {:induction false} StrandingRun(max: nat)
    ensures exists steps, t :: IsRun(Initial, steps, t, max) && t == Host(Reconnecting, 1, None, false, Loop(map[], [], []))
  {
    var first, settling := Attempt(1, Acting), Attempt(1, Settling);
    var h := [Initial,
              Host(Reconnecting, 1, Some(1), false, Loop(map[1 := 1], [], [])),
              Host(Reconnecting, 1, None, true, Loop(map[], [first], [])),
              Host(Connected, 0, None, true, Loop(map[], [settling], [])),
              Host(Reconnecting, 1, Some(2), true, Loop(map[2 := 1], [settling], [])),
              Host(Reconnecting, 1, None, true, Loop(map[], [settling], [])),
              Host(Reconnecting, 1, None, false, Loop(map[], [], []))];
    var steps := [Drop(false, 1), Fire(1), Return(0, Success), Drop(false, 2), Fire(2), Settle(0)];
    forall i | 0 <= i < 6 ensures Leads(h[i], steps[i], h[i + 1], max) {
      FirstHalf(max);
      SecondHalf(max);
    }
    hide Next, Enabled;
    PathIsRun(h, steps, 6, max);
    assert steps[6 - 6..] == steps;
  }

  ghost predicate Leads(h: Host, step: Step, t: Host, max: nat) { Enabled(h, step) && Next(h, step, max) == t }

  lemma {:induction false} FirstHalf(max: nat)
    ensures Leads(Initial, Drop(false, 1), Host(Reconnecting, 1, Some(1), false, Loop(map[1 := 1], [], [])), max)
    ensures Leads(Host(Reconnecting, 1, Some(1), false, Loop(map[1 := 1], [], [])), Fire(1),
                  Host(Reconnecting, 1, None, true, Loop(map[], [Attempt(1, Acting)], [])), max)
    ensures Leads(Host(Reconnecting, 1, None, true, Loop(map[], [Attempt(1, Acting)], [])), Return(0, Success),
                  Host(Connected, 0, None, true, Loop(map[], [Attempt(1, Settling)], [])), max)
  {
    assert map[1 := 1] - {1} == map[];
    assert [Attempt(1, Acting)][0 := Attempt(1, Settling)] == [Attempt(1, Settling)];
  }

  lemma {:induction false} SecondHalf(max: nat)
    ensures var settling := [Attempt(1, Settling)];
      Leads(Host(Connected, 0, None, true, Loop(map[], settling, [])), Drop(false, 2),
            Host(Reconnecting, 1, Some(2), true, Loop(map[2 := 1], settling, [])), max) &&
      Leads(Host(Reconnecting, 1, Some(2), true, Loop(map[2 := 1], settling, [])), Fire(2),
            Host(Reconnecting, 1, None, true, Loop(map[], settling, [])), max) &&
      Leads(Host(Reconnecting, 1, None, true, Loop(map[], settling, [])), Settle(0),
            Host(Reconnecting, 1, None, false, Loop(map[], [], [])), max)
  {
    assert map[2 := 1] - {2} == map[];
  }

  /** A path of states is a run, built up from its end. */
  lemma {:induction false} PathIsRun(h: seq<Host>, steps: seq<Step>, n: nat, max: nat)
    requires |h| == |steps| + 1 && n <= |steps|
    requires forall i :: 0 <= i < |steps| ==> Leads(h[i], steps[i], h[i + 1], max)
    ensures IsRun(h[|steps| - n], steps[|steps| - n..], h[|steps|], max)
  {
    hide Next, Enabled;
    if n > 0 {
      PathIsRun(h, steps, n - 1, max);
      assert Leads(h[|steps| - n], steps[|steps| - n], h[|steps| - n + 1], max);
      assert steps[|steps| - n..][1..] == steps[|steps| - n + 1..];
    }
  }

  // ---------------------------------------------------------------- how long it goes on

  /** No new drop, manual retry or mark from outside. */
  predicate Quiet(step: Step) { step.Fire? || step.Go? || step.Return? || step.Reschedule? || step.Settle? }

  predicate StartsAttempt(h: Host, step: Step) { (step.Fire? || step.Go?) && !h.inFlight }

  /** Attempts that a timer can still lead to, then those an attempt in flight can. */
  function TimerLeft(h: Host, max: nat): int {
    if h.entry.Some? && h.entry.value in h.loop.timers then Top(max) - h.loop.timers[h.entry.value] + 1 else 0
  }

  function AttemptLeft(h: Host, max: nat): int {
    if h.loop.running == [] then 0
    else match h.loop.running[0].phase
         case Acting => Top(max) - h.loop.running[0].number
         case Rescheduling(next) => Top(max) - next + 1
         case Settling => 0
  }

  function ManualLeft(manual: seq<nat>, max: nat): int {
    if manual == [] then 0 else ManualLeft(manual[..|manual| - 1], max) + Top(max) - manual[|manual| - 1] + 1
  }

  /** A timer and an attempt in flight never both use up their share: the attempt swallows the
      timer's start or replaces the timer. */
  function Left(h: Host, max: nat): int {
    (if TimerLeft(h, max) > AttemptLeft(h, max) then TimerLeft(h, max) else AttemptLeft(h, max)) + ManualLeft(h.loop.manual, max)
  }

  lemma {:induction false} ManualWithout(manual: seq<nat>, i: nat, max: nat)
    requires i < |manual|
    ensures ManualLeft(manual, max) == ManualLeft(Without(manual, i), max) + Top(max) - manual[i] + 1
  {
    var n := |manual| - 1;
    if i < n {
      ManualWithout(manual[..n], i, max);
      assert Without(manual, i)[..n - 1] == Without(manual[..n], i);
    } else {
      assert Without(manual, i) == manual[..n];
    }
  }

  lemma {:induction false} ManualNonNegative(manual: seq<nat>, max: nat)
    requires forall i :: 0 <= i < |manual| ==> 1 <= manual[i] <= Top(max)
    ensures ManualLeft(manual, max) >= 0
  {
    if manual != [] { ManualNonNegative(manual[..|manual| - 1], max); }
  }

  /** Every start uses up one of the attempts that are left, and no quiet step adds one. */
  lemma {:induction false} StartUsesOne(h: Host, step: Step, max: nat)
    requires Inv(h, max) && Enabled(h, step) && Quiet(step)
    ensures (if StartsAttempt(h, step) then 1 else 0) + Left(Next(h, step, max), max) <= Left(h, max)
  {
    if step.Go? {
      ManualWithout(h.loop.manual, step.manual, max);
    }
  }

  ghost function Starts(h: Host, steps: seq<Step>, max: nat): nat
    decreases |steps|
  {
    if steps == [] || !Enabled(h, steps[0]) then 0
    else (if StartsAttempt(h, steps[0]) then 1 else 0) + Starts(Next(h, steps[0], max), steps[1..], max)
  }

  lemma {:induction false} StartsBounded(h: Host, steps: seq<Step>, t: Host, max: nat)
    requires Inv(h, max) && IsRun(h, steps, t, max)
    requires forall i :: 0 <= i < |steps| ==> Quiet(steps[i])
    ensures Starts(h, steps, max) + Left(t, max) <= Left(h, max)
    decreases |steps|
  {
    hide Inv, Next, Enabled, Left, Quiet, StartsAttempt;
    if steps != [] {
      NextKeepsInv(h, steps[0], max);
      StartUsesOne(h, steps[0], max);
      assert forall i :: 0 <= i < |steps| - 1 ==> steps[1..][i] == steps[i + 1];
      StartsBounded(Next(h, steps[0], max), steps[1..], t, max);
    }
  }

  lemma {:induction false} LeftBounded(h: Host, max: nat)
    requires Inv(h, max)
    ensures 0 <= Left(h, max) <= Top(max) * |h.loop.manual| + Top(max)
  {
    hide Top;
    ManualNonNegative(h.loop.manual, max);
    ManualBounded(h.loop.manual, max);
  }

  /** Left alone after a drop, a host sees at most `maxAttempts` attempts; a host with `n` manual
      retries waiting sees at most that many for each of them more. */
  lemma {:induction false} AtMostMaxAttempts(h: Host, steps: seq<Step>, t: Host, max: nat)
    requires Inv(h, max) && IsRun(h, steps, t, max)
    requires forall i :: 0 <= i < |steps| ==> Quiet(steps[i])
    ensures Starts(h, steps, max) <= Top(max) * (|h.loop.manual| + 1)
  {
    StartsBounded(h, steps, t, max);
    LeftBounded(h, max);
    LeftBounded(t, max) by { RunKeepsInv(h, steps, t, max); }
    Distribute(Top(max), |h.loop.manual|);
  }

  lemma {:induction false} ManualBounded(manual: seq<nat>, max: nat)
    requires forall i :: 0 <= i < |manual| ==> 1 <= manual[i] <= Top(max)
    ensures ManualLeft(manual, max) <= Top(max) * |manual|
  {
    if manual != [] {
      ManualBounded(manual[..|manual| - 1], max);
      Distribute(Top(max), |manual| - 1);
    }
  }

  lemma {:induction false} Distribute(a: nat, n: nat)
    ensures a * (n + 1) == a * n + a
  {
  }

  // ---------------------------------------------------------------- it comes to rest

  /** Steps a timer, an attempt or a manual retry can still cause. */
  function Rank(h: Host, max: nat): int {
    3 * TimerLeft(h, max) + AttemptRank(h, max) + 3 * ManualLeft(h.loop.manual, max)
  }

  function AttemptRank(h: Host, max: nat): int {
    if h.loop.running == [] then 0
    else match h.loop.running[0].phase
         case Acting => 3 * (Top(max) - h.loop.running[0].number) + 2
         case Rescheduling(next) => 3 * (Top(max) - next + 1) + 1
         case Settling => 1
  }

  lemma {:induction false} QuietStepsRunOut(h: Host, step: Step, max: nat)
    requires Inv(h, max) && Enabled(h, step) && Quiet(step)
    ensures Rank(Next(h, step, max), max) < Rank(h, max)
  {
    hide Top, ManualLeft;
    if step.Go? { ManualWithout(h.loop.manual, step.manual, max); }
  }

  lemma {:induction false} RankNonNegative(h: Host, max: nat)
    requires Inv(h, max)
    ensures Rank(h, max) >= 0
  {
    ManualNonNegative(h.loop.manual, max);
  }

  /** A host left alone comes to rest: no quiet run is longer than its rank, and when no quiet step
      is left there is no timer and nothing in flight, and the host is not reconnecting unless
      stranded. */
  lemma {:induction false} ComesToRest(h: Host, steps: seq<Step>, t: Host, max: nat)
    requires Inv(h, max) && IsRun(h, steps, t, max)
    requires forall i :: 0 <= i < |steps| ==> Quiet(steps[i])
    ensures |steps| <= Rank(h, max) - Rank(t, max) <= Rank(h, max)
    ensures (forall step :: Quiet(step) ==> !Enabled(t, step)) ==>
      t.entry == None && !t.inFlight && t.loop.manual == [] && (t.status != Reconnecting || Stranded(t))
    decreases |steps|
  {
    RestingState(t, max) by { RunKeepsInv(h, steps, t, max); }
    RankNonNegative(t, max) by { RunKeepsInv(h, steps, t, max); }
    hide Inv, Next, Enabled, Rank, Quiet;
    if steps != [] {
      NextKeepsInv(h, steps[0], max);
      QuietStepsRunOut(h, steps[0], max);
      assert forall i :: 0 <= i < |steps| - 1 ==> steps[1..][i] == steps[i + 1];
      ComesToRest(Next(h, steps[0], max), steps[1..], t, max);
    }
  }

  lemma {:induction false} RestingState(t: Host, max: nat)
    requires Inv(t, max)
    ensures (forall step :: Quiet(step) ==> !Enabled(t, step)) ==>
      t.entry == None && !t.inFlight && t.loop.manual == [] && (t.status != Reconnecting || Stranded(t))
  {
    if forall step :: Quiet(step) ==> !Enabled(t, step) {
      assert t.entry.Some? ==> Enabled(t, Fire(t.entry.value));
      assert t.loop.manual != [] ==> Enabled(t, Go(0));
      assert t.inFlight ==> Enabled(t, Return(0, Success)) || Enabled(t, Settle(0)) || Enabled(t, Reschedule(0, 0));
    }
  }

  // ---------------------------------------------------------------- what is tried again, and what is not

  /** A host on its way through its attempts, with nothing else going on: a timer for the next one, the
      attempt in flight, or the end. */
  ghost predicate Backoff(h: Host, max: nat) {
    h.loop.manual == [] &&
    if h.entry.Some? then
      !h.inFlight && h.loop.running == [] && h.status == Reconnecting && 1 <= h.attempt <= Top(max) &&
      h.loop.timers == map[h.entry.value := h.attempt]
    else
      h.loop.timers == map[] &&
      if h.inFlight then
        |h.loop.running| == 1 && OnItsWay(h, h.loop.running[0], max)
      else h.loop.running == [] && h.status == Disconnected && h.attempt == Top(max)
  }

  predicate OnItsWay(h: Host, a: Attempt, max: nat) {
    1 <= a.number <= Top(max) &&
    match a.phase
    case Acting => h.status == Reconnecting && h.attempt == a.number
    case Rescheduling(next) => h.status == Reconnecting && h.attempt == next == a.number + 1 <= max
    case Settling => h.status == Disconnected && h.attempt == a.number == Top(max)
  }

  /** The attempts that still start if all of them fail. */
  ghost function Ahead(h: Host, max: nat): int
    requires Backoff(h, max)
  {
    if h.entry.Some? then Top(max) - h.attempt + 1
    else if h.inFlight then Top(max) - h.loop.running[0].number else 0
  }

  predicate Failing(step: Step) { Quiet(step) && (step.Return? ==> step.result == Failure) }

  lemma {:induction false} FailingStep(h: Host, step: Step, max: nat)
    requires Backoff(h, max) && Enabled(h, step) && Failing(step)
    ensures Backoff(Next(h, step, max), max)
    ensures (if StartsAttempt(h, step) then 1 else 0) + Ahead(Next(h, step, max), max) == Ahead(h, max)
  {
  }

  lemma {:induction false} FailingRun(h: Host, steps: seq<Step>, t: Host, max: nat)
    requires Backoff(h, max) && IsRun(h, steps, t, max) && forall i :: 0 <= i < |steps| ==> Failing(steps[i])
    ensures Backoff(t, max) && Starts(h, steps, max) + Ahead(t, max) == Ahead(h, max)
    decreases |steps|
  {
    hide Backoff, Next, Enabled, Ahead, Failing, StartsAttempt;
    if steps != [] {
      FailingStep(h, steps[0], max);
      assert forall i :: 0 <= i < |steps| - 1 ==> steps[1..][i] == steps[i + 1];
      FailingRun(Next(h, steps[0], max), steps[1..], t, max);
    }
  }

  /** A connection that drops is tried again until it comes back: if every attempt fails, exactly the
      allowed number of attempts starts before the host is at rest, and then it is disconnected at the
      last one. */
  lemma {:induction false} AllAttemptsTried(id: nat, steps: seq<Step>, t: Host, max: nat)
    requires IsRun(Next(Initial, Drop(false, id), max), steps, t, max) && forall i :: 0 <= i < |steps| ==> Failing(steps[i])
    ensures Starts(Next(Initial, Drop(false, id), max), steps, max) <= Top(max)
    ensures (forall step :: Quiet(step) ==> !Enabled(t, step)) <==> t == Host(Disconnected, Top(max), None, false, Loop(map[], [], []))
    ensures (forall step :: Quiet(step) ==> !Enabled(t, step)) ==> Starts(Next(Initial, Drop(false, id), max), steps, max) == Top(max)
  {
    var h := Next(Initial, Drop(false, id), max);
    assert Backoff(h, max) && Ahead(h, max) == Top(max);
    hide Next, Enabled, Starts;
    FailingRun(h, steps, t, max);
    AtRest(t, max);
  }

  lemma {:induction false} AtRest(t: Host, max: nat)
    requires Backoff(t, max)
    ensures Ahead(t, max) >= 0
    ensures (forall step :: Quiet(step) ==> !Enabled(t, step)) <==> t == Host(Disconnected, Top(max), None, false, Loop(map[], [], []))
  {
    if t.entry.Some? { assert Enabled(t, Fire(t.entry.value)); }
    if t.inFlight { assert Enabled(t, Return(0, Failure)) || Enabled(t, Settle(0)) || Enabled(t, Reschedule(0, 0)); }
  }

  /** A drop that is no authentication failure sets a timer for the first attempt, unless one is set. */
  lemma {:induction false} DropSchedules(h: Host, id: nat, max: nat)
    requires Inv(h, max) && Enabled(h, Drop(false, id))
    ensures var t := Next(h, Drop(false, id), max);
      t.status == Reconnecting && t.entry.Some? && t.loop.running == h.loop.running && t.loop.manual == h.loop.manual &&
      if h.status == Reconnecting && h.entry.Some? then t == h else t.attempt == 1 && t.loop.timers == map[id := 1] && t.entry == Some(id)
  {
    assert Cleared(h).loop.timers == map[];
  }

  /** Nothing is left that would try: at most an attempt that is over. */
  predicate NothingLeft(h: Host) {
    h.entry == None && h.loop.manual == [] && (h.loop.running == [] || h.loop.running[0].phase == Settling)
  }

  lemma {:induction false} NothingFollows(h: Host, steps: seq<Step>, t: Host, max: nat)
    requires Inv(h, max) && NothingLeft(h) && IsRun(h, steps, t, max) && forall i :: 0 <= i < |steps| ==> Quiet(steps[i])
    ensures Starts(h, steps, max) == 0 && NothingLeft(t) && t.status == h.status && t.attempt == h.attempt
    decreases |steps|
  {
    if steps != [] {
      assert steps[0] == Settle(0);
      NextKeepsInv(h, steps[0], max);
      assert NothingLeft(Next(h, steps[0], max));
      assert forall i :: 0 <= i < |steps| - 1 ==> steps[1..][i] == steps[i + 1];
      hide Inv, Enabled, NothingLeft, Next, Quiet;
      NothingFollows(Next(h, steps[0], max), steps[1..], t, max);
    }
  }

  /** An attempt that succeeds or fails to authenticate is the last one: with no manual retry waiting no
      other starts until something happens from outside, and the host stays connected at no attempt, or
      disconnected. */
  lemma {:induction false} LastAttempt(h: Host, i: nat, result: Result, steps: seq<Step>, t: Host, max: nat)
    requires Inv(h, max) && Enabled(h, Return(i, result)) && result != Failure && h.loop.manual == []
    requires IsRun(Next(h, Return(i, result), max), steps, t, max) && forall k :: 0 <= k < |steps| ==> Quiet(steps[k])
    ensures Starts(Next(h, Return(i, result), max), steps, max) == 0 && t.entry == None
    ensures if result == Success then t.status == Connected && t.attempt == 0 else t.status == Disconnected
  {
    var h1 := Next(h, Return(i, result), max);
    NextKeepsInv(h, Return(i, result), max);
    assert NothingLeft(h1);
    hide Inv, Next, NothingLeft;
    NothingFollows(h1, steps, t, max);
    assert t.entry == None by { EntryNone(t); }
  }

  lemma {:induction false} EntryNone(t: Host)
    requires NothingLeft(t)
    ensures t.entry == None
  {
  }

  predicate Mark(step: Step) { (step.Drop? && step.auth) || step.MarkConnected? || step.MarkDisconnected? }

  ghost predicate TriesAgain(h: Host, max: nat) {
    exists steps, t :: IsRun(h, steps, t, max) && (forall i :: 0 <= i < |steps| ==> Quiet(steps[i])) && Starts(h, steps, max) > 0
  }

  /** An authentication failure that is reported, or a mark, settles the status and removes the timer. With
      no manual retry waiting it ends the trying if and only if no attempt is in flight that may still
      fail and has others after it: such an attempt is not stopped, and when it fails the host is
      reconnecting again. */
  lemma {:induction false} MarkStopsExactly(h: Host, step: Step, max: nat)
    requires Inv(h, max) && Enabled(h, step) && Mark(step) && h.loop.manual == []
    ensures var d := Next(h, step, max);
      d.status == (if step.MarkConnected? then Connected else Disconnected) && d.entry == None && d.loop.timers == map[] &&
      d.attempt == (if step.MarkConnected? then 0 else h.attempt) &&
      (TriesAgain(d, max) <==>
         h.inFlight && (h.loop.running[0].phase.Rescheduling? || (h.loop.running[0].phase == Acting && h.loop.running[0].number < max)))
  {
    var d := Next(h, step, max);
    NextKeepsInv(h, step, max);
    assert d.loop.running == h.loop.running && d.loop.manual == [] && d.inFlight == h.inFlight;
    if TriesAgain(d, max) {
      var steps, t :| IsRun(d, steps, t, max) && (forall i :: 0 <= i < |steps| ==> Quiet(steps[i])) && Starts(d, steps, max) > 0;
      StartsBounded(d, steps, t, max);
      LeftBounded(t, max) by { RunKeepsInv(d, steps, t, max); }
    }
    if d.inFlight && d.loop.running[0].phase.Rescheduling? { ReschedulesOn(d, max); }
    if d.inFlight && d.loop.running[0].phase == Acting && d.loop.running[0].number < max { FailsOn(d, max); }
  }

  lemma {:induction false} ReschedulesOn(d: Host, max: nat)
    requires Inv(d, max) && d.entry == None && d.inFlight && d.loop.running[0].phase.Rescheduling?
    ensures TriesAgain(d, max)
  {
    var h1 := Next(d, Reschedule(0, 0), max);
    var h2 := Next(h1, Fire(0), max);
    var steps := [Reschedule(0, 0), Fire(0)];
    assert steps[1..] == [Fire(0)] && steps[1..][1..] == [];
    assert Enabled(d, Reschedule(0, 0)) && Enabled(h1, Fire(0)) && StartsAttempt(h1, Fire(0));
    hide Next, Inv;
    assert IsRun(h2, [], h2, max);
    assert IsRun(h1, steps[1..], h2, max);
    assert Starts(h1, steps[1..], max) == 1 + Starts(h2, [], max);
    assert IsRun(d, steps, h2, max) && Starts(d, steps, max) > 0;
  }

  lemma {:induction false} FailsOn(d: Host, max: nat)
    requires Inv(d, max) && d.entry == None && d.inFlight && d.loop.running[0].phase == Acting && d.loop.running[0].number < max
    ensures TriesAgain(d, max)
  {
    var h1 := Next(d, Return(0, Failure), max);
    NextKeepsInv(d, Return(0, Failure), max);
    ReschedulesOn(h1, max);
    assert Enabled(d, Return(0, Failure)) && Quiet(Return(0, Failure));
    hide Next, Inv, Enabled, Quiet;
    var steps, t :| IsRun(h1, steps, t, max) && (forall i :: 0 <= i < |steps| ==> Quiet(steps[i])) && Starts(h1, steps, max) > 0;
    var all := [Return(0, Failure)] + steps;
    assert all[1..] == steps;
    assert IsRun(d, all, t, max) && Starts(d, all, max) > 0;
    forall i | 0 <= i < |all| ensures Quiet(all[i]) { assert i > 0 ==> all[i] == steps[i - 1]; }
  }

  /** It does happen: an authentication failure is reported while the first attempt is in flight, that
      attempt fails for another reason, and a second one starts. */
  lemma {:induction false} AttemptOutlivesDrop(max: nat)
    requires max >= 2
    ensures exists steps, t :: |steps| == 6 && steps[2] == Drop(true, 2) && IsRun(Initial, steps, t, max) &&
                               (forall i :: 3 <= i < 6 ==> Quiet(steps[i])) && t.loop.running == [Attempt(2, Acting)]
  {
    var one, two, failed := [Attempt(1, Acting)], [Attempt(2, Acting)], [Attempt(1, Rescheduling(2))];
    var h := [Initial,
              Host(Reconnecting, 1, Some(1), false, Loop(map[1 := 1], [], [])),
              Host(Reconnecting, 1, None, true, Loop(map[], one, [])),
              Host(Disconnected, 1, None, true, Loop(map[], one, [])),
              Host(Reconnecting, 2, None, true, Loop(map[], failed, [])),
              Host(Reconnecting, 2, Some(2), false, Loop(map[2 := 2], [], [])),
              Host(Reconnecting, 2, None, true, Loop(map[], two, []))];
    var steps := [Drop(false, 1), Fire(1), Drop(true, 2), Return(0, Failure), Reschedule(0, 2), Fire(2)];
    FirstHalf(max);
    OutlivesHalf(max);
    hide Next, Enabled, Leads;
    PathIsRun(h, steps, 6, max);
    assert steps[6 - 6..] == steps;
  }

  lemma {:induction false} OutlivesHalf(max: nat)
    requires max >= 2
    ensures var one, failed := [Attempt(1, Acting)], [Attempt(1, Rescheduling(2))];
      Leads(Host(Reconnecting, 1, None, true, Loop(map[], one, [])), Drop(true, 2), Host(Disconnected, 1, None, true, Loop(map[], one, [])), max) &&
      Leads(Host(Disconnected, 1, None, true, Loop(map[], one, [])), Return(0, Failure), Host(Reconnecting, 2, None, true, Loop(map[], failed, [])), max) &&
      Leads(Host(Reconnecting, 2, None, true, Loop(map[], failed, [])), Reschedule(0, 2), Host(Reconnecting, 2, Some(2), false, Loop(map[2 := 2], [], [])), max) &&
      Leads(Host(Reconnecting, 2, Some(2), false, Loop(map[2 := 2], [], [])), Fire(2), Host(Reconnecting, 2, None, true, Loop(map[], [Attempt(2, Acting)], [])), max)
  {
    assert [Attempt(1, Acting)][0 := Attempt(1, Rescheduling(2))] == [Attempt(1, Rescheduling(2))];
    assert Without([Attempt(1, Rescheduling(2))], 0) == [];
    assert map[2 := 2] - {2} == map[] && map[][2 := 2] == map[2 := 2];
  }

  /** A manual retry that is let through starts the attempt the host stood at, or the first one, and
      removes the timer; it is swallowed if and only if an attempt is in flight. */
  lemma {:induction false} RetryStarts(h: Host, max: nat)
    requires Inv(h, max)
    ensures var m := Next(h, Retry, max); var n := |h.loop.manual|;
      Enabled(m, Go(n)) && m.status == Reconnecting && m.entry == None && m.loop.timers == map[] &&
      Next(m, Go(n), max) == if h.inFlight then m.(loop := m.loop.(manual := h.loop.manual))
        else m.(inFlight := true, loop := Loop(map[], [Attempt(if h.status == Reconnecting then h.attempt else 1, Acting)], h.loop.manual))
  {
    assert Without(h.loop.manual + [if h.status == Reconnecting then h.attempt else 1], |h.loop.manual|) == h.loop.manual;
  }

  // ---------------------------------------------------------------- the supervisor object

  datatype HostState = HostState(status: Status, attempt: nat)

  /** All hosts in the supervisor's three tables, and beside them what the event loop holds. */
  class HostReconnectionSupervisor {
    const maxAttempts: nat
    var hostStates: map<string, HostState>
    var retryTimers: map<string, nat>
    var inFlight: set<string>
    var loops: map<string, Loop>

    function GetState(server: string): HostState
      reads this
    {
      if server in hostStates then hostStates[server] else HostState(Connected, 0)
    }

    function LoopOf(server: string): Loop
      reads this
    {
      if server in loops then loops[server] else Loop(map[], [], [])
    }

    ghost function View(server: string): Host
      reads this
    {
      Host(GetState(server).status, GetState(server).attempt,
           if server in retryTimers then Some(retryTimers[server]) else None, server in inFlight, LoopOf(server))
    }

    constructor (maxAttempts: nat)
      ensures this.maxAttempts == maxAttempts && forall server :: View(server) == Initial
    {
      this.maxAttempts := maxAttempts;
      hostStates, retryTimers, inFlight, loops := map[], map[], {}, map[];
    }

    method ClearTimer(server: string)
      modifies this`retryTimers, this`loops
      ensures View(server) == Cleared(old(View(server)))
      ensures forall other :: other != server ==> View(other) == old(View(other))
    {
      if server in retryTimers {
        loops := loops[server := LoopOf(server).(timers := LoopOf(server).timers - {retryTimers[server]})];
        retryTimers := retryTimers - {server};
      }
    }

    method ScheduleRetry(server: string, id: nat, attempt: nat)
      modifies this`retryTimers, this`loops
      ensures View(server) == Scheduled(old(View(server)), id, attempt)
      ensures forall other :: other != server ==> View(other) == old(View(other))
    {
      ClearTimer(server);
      loops := loops[server := LoopOf(server).(timers := LoopOf(server).timers[id := attempt])];
      retryTimers := retryTimers[server := id];
    }

    method HandleConnectionDrop(server: string, auth: bool, id: nat)
      requires Enabled(View(server), Drop(auth, id))
      modifies this
      ensures View(server) == Next(old(View(server)), Drop(auth, id), maxAttempts)
      ensures forall other :: other != server ==> View(other) == old(View(other))
    {
      if auth {
        MarkDisconnected(server);
        return;
      }
      if GetState(server).status == Reconnecting && server in retryTimers { return; }
      hostStates := hostStates[server := HostState(Reconnecting, 1)];
      ScheduleRetry(server, id, 1);
    }

    method MarkConnected(server: string)
      modifies this
      ensures View(server) == Next(old(View(server)), Step.MarkConnected, maxAttempts)
      ensures forall other :: other != server ==> View(other) == old(View(other))
    {
      ClearTimer(server);
      hostStates := hostStates[server := HostState(Connected, 0)];
    }

    method MarkDisconnected(server: string)
      modifies this
      ensures View(server) == Next(old(View(server)), Step.MarkDisconnected, maxAttempts)
      ensures forall other :: other != server ==> View(other) == old(View(other))
    {
      ClearTimer(server);
      hostStates := hostStates[server := HostState(Disconnected, GetState(server).attempt)];
    }

    /** `executeReconnectAttempt` up to where it awaits the action. */
    method BeginAttempt(server: string, attempt: nat)
      modifies this`inFlight, this`loops
      ensures View(server) == Started(old(View(server)), attempt)
      ensures forall other :: other != server ==> View(other) == old(View(other))
    {
      if server in inFlight { return; }
      inFlight := inFlight + {server};
      loops := loops[server := LoopOf(server).(running := LoopOf(server).running + [Attempt(attempt, Acting)])];
    }

    method TimerFires(server: string, id: nat)
      requires Enabled(View(server), Fire(id))
      modifies this
      ensures View(server) == Next(old(View(server)), Fire(id), maxAttempts)
      ensures forall other :: other != server ==> View(other) == old(View(other))
    {
      var attempt := LoopOf(server).timers[id];
      loops := loops[server := LoopOf(server).(timers := LoopOf(server).timers - {id})];
      retryTimers := retryTimers - {server};
      BeginAttempt(server, attempt);
    }

    /** `retryNow` up to where it awaits the listeners. */
    method RetryNow(server: string)
      modifies this
      ensures View(server) == Next(old(View(server)), Retry, maxAttempts)
      ensures forall other :: other != server ==> View(other) == old(View(other))
    {
      ClearTimer(server);
      var attempt := if GetState(server).status == Reconnecting then GetState(server).attempt else 1;
      hostStates := hostStates[server := HostState(Reconnecting, attempt)];
      loops := loops[server := LoopOf(server).(manual := LoopOf(server).manual + [attempt])];
    }

    method RetryGoesOn(server: string, i: nat)
      requires Enabled(View(server), Go(i))
      modifies this
      ensures View(server) == Next(old(View(server)), Go(i), maxAttempts)
      ensures forall other :: other != server ==> View(other) == old(View(other))
    {
      var attempt := LoopOf(server).manual[i];
      loops := loops[server := LoopOf(server).(manual := Without(LoopOf(server).manual, i))];
      BeginAttempt(server, attempt);
    }

    method SetPhase(server: string, i: nat, phase: Phase)
      requires i < |LoopOf(server).running|
      modifies this`loops
      ensures View(server) == InPhase(old(View(server)), i, phase)
      ensures forall other :: other != server ==> View(other) == old(View(other))
    {
      var running := LoopOf(server).running;
      loops := loops[server := LoopOf(server).(running := running[i := running[i].(phase := phase)])];
    }

    method ActionReturns(server: string, i: nat, result: Result)
      requires Enabled(View(server), Return(i, result))
      modifies this
      ensures View(server) == Next(old(View(server)), Return(i, result), maxAttempts)
      ensures forall other :: other != server ==> View(other) == old(View(other))
    {
      var attempt := LoopOf(server).running[i].number;
      if result.Success? {
        MarkConnected(server);
        SetPhase(server, i, Settling);
        return;
      }
      var nextAttempt := attempt + 1;
      if result.AuthFailure? {
        MarkDisconnected(server);
        SetPhase(server, i, Settling);
      } else if nextAttempt > maxAttempts {
        hostStates := hostStates[server := HostState(Disconnected, attempt)];
        SetPhase(server, i, Settling);
      } else {
        hostStates := hostStates[server := HostState(Reconnecting, nextAttempt)];
        SetPhase(server, i, Rescheduling(nextAttempt));
      }
    }

    /** The end of `executeReconnectAttempt`, through its `finally`. */
    method EndAttempt(server: string, i: nat)
      requires i < |LoopOf(server).running|
      modifies this`inFlight, this`loops
      ensures View(server) == Over(old(View(server)), i)
      ensures forall other :: other != server ==> View(other) == old(View(other))
    {
      inFlight := inFlight - {server};
      loops := loops[server := LoopOf(server).(running := Without(LoopOf(server).running, i))];
    }

    method ListenersTold(server: string, i: nat, id: nat)
      requires Enabled(View(server), Settle(i)) || Enabled(View(server), Reschedule(i, id))
      modifies this
      ensures View(server) == Next(old(View(server)), if old(LoopOf(server)).running[i].phase == Settling then Settle(i) else Reschedule(i, id), maxAttempts)
      ensures forall other :: other != server ==> View(other) == old(View(other))
    {
      var phase := LoopOf(server).running[i].phase;
      if phase.Rescheduling? { ScheduleRetry(server, id, phase.next); }
      EndAttempt(server, i);
    }
  }
}
