/** Flow control of one PTY channel: output is kept until the renderer is ready, then sent, and the
    stream is paused and resumed as unacknowledged bytes pile up and drain. */
module PtyBroker {
  import opened Utf8

  const MAX_SAFE_INTEGER := 9007199254740991

  datatype Command = Pause | Resume

  datatype Marks = Marks(high: nat, low: nat)

  /** `sent` is what the renderer was given, `commands` what the stream was told. */
  datatype Channel = Channel(isReady: bool, isPaused: bool, inFlightBytes: nat, pendingData: seq<Text>,
                             pendingBytes: nat, sent: seq<Text>, commands: seq<Command>)

  datatype Event = Data(chunk: Text) | Ready | Ack(bytes: int)

  const Initial := Channel(false, false, 0, [], 0, [], [])

  function Bytes(chunks: seq<Text>): nat {
    if chunks == [] then 0 else Bytes(chunks[..|chunks| - 1]) + ByteLength(chunks[|chunks| - 1])
  }

  function ValidBytes(bytes: int): nat { if 0 < bytes <= MAX_SAFE_INTEGER then bytes else 0 }

  function AfterData(c: Channel, chunk: Text, m: Marks): Channel {
    var d := if c.isReady
             then c.(sent := c.sent + [chunk], inFlightBytes := c.inFlightBytes + ByteLength(chunk))
             else c.(pendingData := c.pendingData + [chunk], pendingBytes := c.pendingBytes + ByteLength(chunk));
    if !d.isPaused && d.inFlightBytes + d.pendingBytes >= m.high
    then d.(isPaused := true, commands := d.commands + [Pause]) else d
  }

  function AfterReady(c: Channel): Channel {
    c.(isReady := true, sent := c.sent + c.pendingData, inFlightBytes := c.inFlightBytes + c.pendingBytes,
       pendingData := [], pendingBytes := 0)
  }

  function AfterAck(c: Channel, bytes: int, m: Marks): Channel {
    if !c.isReady then c
    else
      var left := if ValidBytes(bytes) > c.inFlightBytes then 0 else c.inFlightBytes - ValidBytes(bytes);
      var d := c.(inFlightBytes := left);
      if d.isPaused && left <= m.low then d.(isPaused := false, commands := d.commands + [Resume]) else d
  }

  function Next(c: Channel, e: Event, m: Marks): Channel {
    match e
    case Data(chunk) => AfterData(c, chunk, m)
    case Ready => AfterReady(c)
    case Ack(bytes) => AfterAck(c, bytes, m)
  }

  function Run(c: Channel, events: seq<Event>, m: Marks): Channel {
    if events == [] then c else Next(Run(c, events[..|events| - 1], m), events[|events| - 1], m)
  }

  /** The chunks the stream delivered. */
  function Received(events: seq<Event>): seq<Text> {
    if events == [] then []
    else
      var e := events[|events| - 1];
      Received(events[..|events| - 1]) + if e.Data? then [e.chunk] else []
  }

  /** Pause first, and then never the same command twice in a row. */
  predicate Alternate(commands: seq<Command>) {
    (commands != [] ==> commands[0] == Pause) && forall i :: 0 < i < |commands| ==> commands[i] != commands[i - 1]
  }

  predicate EndsPaused(commands: seq<Command>) { commands != [] && commands[|commands| - 1] == Pause }

  ghost predicate BufferInv(c: Channel) {
    (!c.isReady ==> c.sent == [] && c.inFlightBytes == 0) && (c.isReady ==> c.pendingData == [] && c.pendingBytes == 0) &&
    c.pendingBytes == Bytes(c.pendingData) && c.inFlightBytes <= Bytes(c.sent)
  }

  ghost predicate FlowInv(c: Channel, m: Marks) {
    Alternate(c.commands) && (c.isPaused <==> EndsPaused(c.commands)) &&
    (m.low < m.high ==> (if c.isPaused then m.low < c.inFlightBytes + c.pendingBytes else c.inFlightBytes + c.pendingBytes < m.high))
  }

  ghost predicate Inv(c: Channel, m: Marks) { BufferInv(c) && FlowInv(c, m) }

  lemma {:induction false} BytesNext(chunks: seq<Text>, chunk: Text)
    ensures Bytes(chunks + [chunk]) == Bytes(chunks) + ByteLength(chunk)
  {
    assert (chunks + [chunk])[..|chunks|] == chunks;
  }

  lemma {:induction false} NextKeepsBuffer(c: Channel, e: Event, m: Marks)
    requires BufferInv(c)
    ensures BufferInv(Next(c, e, m))
  {
    if e.Data? {
      DataKeepsBuffer(c, e.chunk, m);
    } else {
      assert [] + c.pendingData == c.pendingData && c.sent + [] == c.sent;
    }
  }

  lemma {:induction false} DataKeepsBuffer(c: Channel, chunk: Text, m: Marks)
    requires BufferInv(c)
    ensures BufferInv(AfterData(c, chunk, m))
  {
    BytesNext(c.sent, chunk);
    BytesNext(c.pendingData, chunk);
    hide ByteLength, Bytes;
  }

  lemma {:induction false} NextKeepsFlow(c: Channel, e: Event, m: Marks)
    requires BufferInv(c) && FlowInv(c, m)
    ensures FlowInv(Next(c, e, m), m)
  {
    hide ByteLength, Bytes;
    AlternateNext(c.commands, if c.isPaused then Resume else Pause);
    hide Alternate;
  }

  lemma {:induction false} NextKeepsInv(c: Channel, e: Event, m: Marks)
    requires Inv(c, m)
    ensures Inv(Next(c, e, m), m)
  {
    NextKeepsBuffer(c, e, m);
    NextKeepsFlow(c, e, m);
  }

  lemma {:induction false} AlternateNext(commands: seq<Command>, next: Command)
    ensures Alternate(commands) && (next == Resume <==> EndsPaused(commands)) ==> Alternate(commands + [next])
    ensures EndsPaused(commands + [next]) <==> next == Pause
  {
  }

  lemma {:induction false} RunKeepsInv(events: seq<Event>, m: Marks)
    ensures Inv(Run(Initial, events, m), m)
  {
    if events != [] {
      RunKeepsInv(events[..|events| - 1], m);
      NextKeepsInv(Run(Initial, events[..|events| - 1], m), events[|events| - 1], m);
    }
  }

  // ---------------------------------------------------------------- nothing is lost or reordered

  predicate SaidReady(events: seq<Event>) { exists i :: 0 <= i < |events| && events[i] == Ready }

  lemma {:induction false} ReadyOnceSaid(events: seq<Event>, m: Marks)
    ensures Run(Initial, events, m).isReady <==> SaidReady(events)
  {
    if events != [] {
      var early, e := events[..|events| - 1], events[|events| - 1];
      ReadyOnceSaid(early, m);
      assert SaidReady(events) <==> SaidReady(early) || e == Ready by {
        if SaidReady(early) {
          var i :| 0 <= i < |early| && early[i] == Ready;
          assert events[i] == Ready;
        }
        if e == Ready { assert events[|events| - 1] == Ready; }
        if SaidReady(events) && e != Ready {
          var i :| 0 <= i < |events| && events[i] == Ready;
          assert early[i] == Ready;
        }
      }
    }
  }

  lemma {:induction false} StepCarries(c: Channel, e: Event, m: Marks)
    requires c.isReady ==> c.pendingData == []
    ensures var d := Next(c, e, m);
      d.sent + d.pendingData == (c.sent + c.pendingData) + if e.Data? then [e.chunk] else []
  {
    hide ByteLength;
    var all := c.sent + c.pendingData;
    match e {
      case Data(chunk) =>
        assert c.isReady ==> (c.sent + [chunk]) + c.pendingData == all + [chunk];
        assert c.sent + (c.pendingData + [chunk]) == all + [chunk];
      case _ => assert all + [] == all;
    }
  }

  /** What was sent and what is pending are together the chunks received, in order: all of them
      pending before the renderer is ready, none after. */
  lemma {:induction false} NothingLost(events: seq<Event>, m: Marks)
    ensures var c := Run(Initial, events, m);
      c.sent + c.pendingData == Received(events) && (c.isReady <==> SaidReady(events)) &&
      (if c.isReady then c.pendingData == [] else c.sent == [])
  {
    RunKeepsInv(events, m);
    ReadyOnceSaid(events, m);
    if events != [] {
      var early := events[..|events| - 1];
      NothingLost(early, m);
      hide Inv, Next, SaidReady;
      StepCarries(Run(Initial, early, m), events[|events| - 1], m);
    }
  }

  // ---------------------------------------------------------------- pausing and resuming

  /** Pause and resume strictly alternate, starting with a pause, and the flag says which was last. */
  lemma {:induction false} PausesAlternate(events: seq<Event>, m: Marks)
    ensures var c := Run(Initial, events, m);
      Alternate(c.commands) && (c.isPaused <==> EndsPaused(c.commands))
  {
    RunKeepsInv(events, m);
  }

  /** With the low mark below the high one a paused channel always has more than the low mark
      outstanding, so there is something whose acknowledgement is still to come; a channel that
      runs is below the high mark. */
  lemma {:induction false} PausedIsOutstanding(events: seq<Event>, m: Marks)
    requires m.low < m.high
    ensures var c := Run(Initial, events, m); var outstanding := c.inFlightBytes + c.pendingBytes;
      (c.isPaused ==> m.low < outstanding <= Bytes(c.sent) + Bytes(c.pendingData)) &&
      (!c.isPaused ==> outstanding < m.high)
  {
    RunKeepsInv(events, m);
  }

  // ---------------------------------------------------------------- exactly what is outstanding, and when it pauses

  /** What one event adds; acknowledgements count once the renderer is ready. */
  function Delta(events: seq<Event>, i: nat): int
    requires i < |events|
  {
    match events[i]
    case Data(chunk) => ByteLength(chunk)
    case Ready => 0
    case Ack(bytes) => if SaidReady(events[..i]) && 0 < bytes <= MAX_SAFE_INTEGER then -bytes else 0
  }

  /** What the events from the `i`th on brought beyond what they acknowledged. */
  function Net(events: seq<Event>, i: nat): int {
    if |events| <= i then 0 else Net(events[..|events| - 1], i) + Delta(events, |events| - 1)
  }

  function Outstanding(events: seq<Event>, m: Marks): nat {
    var c := Run(Initial, events, m);
    c.inFlightBytes + c.pendingBytes
  }

  /** What is outstanding is the most that any last stretch of the events brought beyond what it acknowledged,
      so acknowledging too much is never held against what comes later. */
  lemma {:induction false} OutstandingExact(events: seq<Event>, m: Marks)
    ensures forall i: nat :: i <= |events| ==> Net(events, i) <= Outstanding(events, m)
    ensures exists i: nat :: i <= |events| && Net(events, i) == Outstanding(events, m)
  {
    if events == [] {
      assert Net(events, 0) == 0;
    } else {
      var n := |events| - 1;
      var early := events[..n];
      OutstandingExact(early, m);
      OutstandingNext(events, m);
      var k: nat :| k <= n && Net(early, k) == Outstanding(early, m);
      hide Outstanding, Delta;
      NetNext(events, k);
      assert Net(events, n + 1) == 0;
      hide Net;
      forall i: nat | i <= n + 1 ensures Net(events, i) <= Outstanding(events, m) { if i <= n { NetNext(events, i); } }
      assert Net(events, if Net(events, k) >= 0 then k else n + 1) == Outstanding(events, m);
    }
  }

  lemma {:induction false} NetNext(events: seq<Event>, i: nat)
    requires i < |events|
    ensures Net(events, i) == Net(events[..|events| - 1], i) + Delta(events, |events| - 1)
  {
  }

  /** One more event moves what is outstanding by what it adds, but never below nothing. */
  lemma {:induction false} OutstandingNext(events: seq<Event>, m: Marks)
    requires events != []
    ensures var moved := Outstanding(events[..|events| - 1], m) + Delta(events, |events| - 1);
      Outstanding(events, m) == if moved < 0 then 0 else moved
  {
    var n := |events| - 1;
    var early := events[..n];
    RunKeepsInv(early, m);
    ReadyOnceSaid(early, m);
    OutstandingMoves(Run(Initial, early, m), events[n], m);
    assert Run(Initial, events, m) == Next(Run(Initial, early, m), events[n], m);
    hide Next, Run, SaidReady, ByteLength, FlowInv;
  }

  lemma {:induction false} OutstandingMoves(c: Channel, e: Event, m: Marks)
    requires BufferInv(c)
    ensures var d := Next(c, e, m); var was := c.inFlightBytes + c.pendingBytes;
      d.inFlightBytes + d.pendingBytes ==
      match e
      case Data(chunk) => was + ByteLength(chunk)
      case Ready => was
      case Ack(bytes) =>
        if !c.isReady || !(0 < bytes <= MAX_SAFE_INTEGER) then was else if bytes > was then 0 else was - bytes
  {
    hide ByteLength, Bytes;
  }

  /** What is outstanding after the first `j` events. */
  function OutstandingAt(events: seq<Event>, m: Marks, j: nat): nat
    requires j <= |events|
  {
    Outstanding(events[..j], m)
  }

  /** The high mark was reached after `i` events, and more than the low mark was outstanding ever since. */
  predicate CongestedSince(events: seq<Event>, m: Marks, i: nat) {
    i <= |events| && OutstandingAt(events, m, i) >= m.high &&
    forall j :: i <= j <= |events| ==> OutstandingAt(events, m, j) > m.low
  }

  ghost predicate Congested(events: seq<Event>, m: Marks) { exists i: nat :: CongestedSince(events, m, i) }

  lemma {:induction false} PauseMoves(c: Channel, e: Event, m: Marks)
    requires Inv(c, m) && m.low < m.high
    ensures var d := Next(c, e, m); var outstanding := d.inFlightBytes + d.pendingBytes;
      d.isPaused <==> outstanding >= m.high || (c.isPaused && outstanding > m.low)
  {
    OutstandingMoves(c, e, m);
    hide ByteLength, Bytes, Alternate;
  }

  /** The stream is paused exactly if the high mark was reached and the low mark not yet again. */
  lemma {:induction false} PausedExact(events: seq<Event>, m: Marks)
    requires m.low < m.high
    ensures Run(Initial, events, m).isPaused <==> Congested(events, m)
  {
    var n := |events|;
    assert events[..n] == events;
    if n == 0 {
      assert Outstanding(events, m) == OutstandingAt(events, m, 0) == 0;
    } else {
      var early := events[..n - 1];
      PausedExact(early, m);
      RunKeepsInv(early, m);
      PauseMoves(Run(Initial, early, m), events[n - 1], m);
      assert Run(Initial, events, m) == Next(Run(Initial, early, m), events[n - 1], m);
      hide Next, Inv, Run;
      assert Run(Initial, events, m).isPaused <==>
        Outstanding(events, m) >= m.high || (Run(Initial, early, m).isPaused && Outstanding(events, m) > m.low);
      hide Outstanding;
      CongestedNext(events, m);
    }
  }

  lemma {:induction false} CongestedNext(events: seq<Event>, m: Marks)
    requires m.low < m.high && events != []
    ensures Congested(events, m) <==>
      Outstanding(events, m) >= m.high || (Congested(events[..|events| - 1], m) && Outstanding(events, m) > m.low)
  {
    var n := |events|;
    var early := events[..n - 1];
    assert events[..n] == events && OutstandingAt(events, m, n) == Outstanding(events, m);
    forall j | 0 <= j < n ensures OutstandingAt(events, m, j) == OutstandingAt(early, m, j) { assert early[..j] == events[..j]; }
    hide OutstandingAt, Outstanding;
    forall i: nat | i < n
      ensures CongestedSince(events, m, i) <==> CongestedSince(early, m, i) && Outstanding(events, m) > m.low {}
    assert CongestedSince(events, m, n) <==> Outstanding(events, m) >= m.high;
    hide CongestedSince;
    assert forall i: nat :: CongestedSince(early, m, i) ==> i < n by { SinceWithin(early, m); }
    SinceWithin(events, m);
  }

  lemma {:induction false} SinceWithin(events: seq<Event>, m: Marks)
    ensures forall i: nat :: CongestedSince(events, m, i) ==> i <= |events|
  {
    hide OutstandingAt;
  }

  function Acks(bytes: seq<nat>): seq<Event> { seq(|bytes|, i requires 0 <= i < |bytes| => Ack(bytes[i])) }

  function Sum(bytes: seq<nat>): nat {
    if bytes == [] then 0 else Sum(bytes[..|bytes| - 1]) + bytes[|bytes| - 1]
  }

  /** However the acknowledgements are split, a paused channel resumes exactly when they bring what
      is in flight down to the low mark; acknowledging all that was sent therefore always does. */
  lemma {:induction false} AcksResume(c: Channel, bytes: seq<nat>, m: Marks)
    requires c.isReady && c.isPaused
    requires bytes != [] && forall i :: 0 <= i < |bytes| ==> 0 < bytes[i] <= MAX_SAFE_INTEGER
    ensures var d := Run(c, Acks(bytes), m);
      d.isReady && d.inFlightBytes == (if Sum(bytes) > c.inFlightBytes then 0 else c.inFlightBytes - Sum(bytes)) &&
      (d.isPaused <==> c.inFlightBytes > Sum(bytes) + m.low) &&
      d.commands == c.commands + if d.isPaused then [] else [Resume]
  {
    var n := |bytes| - 1;
    assert Acks(bytes)[..n] == Acks(bytes[..n]);
    assert Acks(bytes)[n] == Ack(bytes[n]);
    if n == 0 {
      assert Run(c, Acks(bytes[..0]), m) == c;
      assert Sum(bytes[..0]) == 0;
      assert c.commands + [] == c.commands;
    } else {
      AcksResume(c, bytes[..n], m);
      assert (c.commands + []) + [Resume] == c.commands + [Resume] && c.commands + [] == c.commands;
    }
  }

  // ---------------------------------------------------------------- how much can pile up

  /** The stream obeys: no chunk arrives while it is paused, and none is longer than `longest`. */
  predicate Obeys(events: seq<Event>, m: Marks, longest: nat) {
    forall i :: 0 <= i < |events| && events[i].Data? ==>
      !Run(Initial, events[..i], m).isPaused && ByteLength(events[i].chunk) <= longest
  }

  /** Then less than the high mark and one chunk is ever outstanding. */
  lemma {:induction false} BoundedBuffer(events: seq<Event>, m: Marks, longest: nat)
    requires m.low < m.high && Obeys(events, m, longest)
    ensures var c := Run(Initial, events, m); c.inFlightBytes + c.pendingBytes < m.high + longest
  {
    if events != [] {
      var n := |events| - 1;
      var early, e := events[..n], events[n];
      RunKeepsInv(early, m);
      assert Obeys(early, m, longest) && (e.Data? ==> !Run(Initial, early, m).isPaused && ByteLength(e.chunk) <= longest) by {
        assert forall i :: 0 <= i < n ==> early[..i] == events[..i];
      }
      BoundedBuffer(early, m, longest);
      var c := Run(Initial, early, m);
      hide ByteLength, Alternate, Bytes, Obeys;
      assert early == [] ==> c == Initial;
    }
  }

  // ---------------------------------------------------------------- the channel object

  class ManagedPty {
    const marks: Marks
    var isReady: bool
    var isPaused: bool
    var inFlightBytes: nat
    var pendingData: seq<Text>
    var pendingBytes: nat
    var sent: seq<Text>
    var commands: seq<Command>

    function View(): Channel
      reads this
    {
      Channel(isReady, isPaused, inFlightBytes, pendingData, pendingBytes, sent, commands)
    }

    constructor (marks: Marks)
      ensures View() == Initial && this.marks == marks
    {
      this.marks := marks;
      isReady, isPaused, inFlightBytes, pendingData, pendingBytes, sent, commands := false, false, 0, [], 0, [], [];
    }

    method OnData(data: Text)
      modifies this
      ensures View() == Next(old(View()), Data(data), marks)
    {
      hide ByteLength;
      var byteLen := ByteLength(data);
      if isReady {
        sent := sent + [data];
        inFlightBytes := inFlightBytes + byteLen;
      } else {
        pendingData := pendingData + [data];
        pendingBytes := pendingBytes + byteLen;
      }
      if !isPaused && inFlightBytes + pendingBytes >= marks.high {
        isPaused := true;
        commands := commands + [Pause];
      }
    }

    method Ready()
      modifies this
      ensures View() == Next(old(View()), Event.Ready, marks)
    {
      isReady := true;
      for i := 0 to |pendingData|
        invariant isReady && isPaused == old(isPaused) && inFlightBytes == old(inFlightBytes) && commands == old(commands)
        invariant pendingData == old(pendingData) && pendingBytes == old(pendingBytes)
        invariant sent == old(sent) + pendingData[..i]
      {
        sent := sent + [pendingData[i]];
        assert pendingData[..i + 1] == pendingData[..i] + [pendingData[i]];
      }
      assert pendingData[..|pendingData|] == pendingData;
      inFlightBytes := inFlightBytes + pendingBytes;
      pendingData := [];
      pendingBytes := 0;
    }

    method Ack(bytes: int)
      modifies this
      ensures View() == Next(old(View()), Event.Ack(bytes), marks)
    {
      if !isReady { return; }
      var validBytes := if 0 < bytes <= MAX_SAFE_INTEGER then bytes else 0;
      inFlightBytes := if validBytes > inFlightBytes then 0 else inFlightBytes - validBytes;
      if isPaused && inFlightBytes <= marks.low {
        isPaused := false;
        commands := commands + [Resume];
      }
    }
  }
}
