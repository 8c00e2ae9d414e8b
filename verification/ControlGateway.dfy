/** Serving operations on an authenticated control socket: cutting the incoming text into requests,
    and ending the socket after a request that is too long. */
module ControlGateway {
  import opened Utf8

  const MAX_REQUEST_BYTES: nat := 2_097_152
  const NEWLINE: Char := 0x0A

  /** What `trim` removes. */
  predicate Space(c: Char) {
    9 <= c <= 13 || c == 0x20 || c == 0xA0 || c == 0x1680 || 0x2000 <= c <= 0x200A || c == 0x2028 || c == 0x2029 ||
    c == 0x202F || c == 0x205F || c == 0x3000 || c == 0xFEFF
  }

  function TrimStart(s: Text): Text {
    if s != [] && Space(s[0]) then TrimStart(s[1..]) else s
  }

  function TrimEnd(s: Text): Text {
    if s != [] && Space(s[|s| - 1]) then TrimEnd(s[..|s| - 1]) else s
  }

  function Trim(s: Text): Text { TrimEnd(TrimStart(s)) }

  /** `dispatched` are the requests handed to handlers, `settled` of which are done; `ended` counts
      the calls that end the socket. */
  datatype Serving = Serving(buffered: Text, dispatched: seq<Text>, settled: nat, inFlight: int,
                             rejected: bool, ended: nat, destroyed: bool)

  datatype Event = Chunk(text: Text) | Settle | Destroy

  const Initial := Serving([], [], 0, 0, false, 0, false)

  function FirstNewline(s: Text): (n: nat)
    ensures n <= |s| && NEWLINE !in s[..n] && (n < |s| ==> s[n] == NEWLINE)
  {
    if s == [] || s[0] == NEWLINE then 0
    else
      var n := FirstNewline(s[1..]);
      assert s[..n + 1] == [s[0]] + s[1..][..n];
      n + 1
  }

  function EndWhenIdle(g: Serving): Serving {
    if g.rejected && g.inFlight == 0 && !g.destroyed then g.(ended := g.ended + 1) else g
  }

  function Reject(g: Serving): Serving { EndWhenIdle(g.(buffered := [], rejected := true)) }

  function Dispatch(g: Serving, line: Text): Serving {
    if line == [] then g else g.(dispatched := g.dispatched + [line], inFlight := g.inFlight + 1)
  }

  function Drain(g: Serving): Serving
    decreases |g.buffered|
  {
    var n := FirstNewline(g.buffered);
    if n == |g.buffered| then
      if ByteLength(g.buffered) > MAX_REQUEST_BYTES then Reject(g) else g
    else
      var line := Trim(g.buffered[..n]);
      var rest := g.(buffered := g.buffered[n + 1..]);
      if ByteLength(line) > MAX_REQUEST_BYTES then Reject(rest) else Drain(Dispatch(rest, line))
  }

  predicate Enabled(g: Serving, e: Event) {
    match e
    case Chunk(_) => !g.destroyed
    case Settle => g.settled < |g.dispatched|
    case Destroy => true
  }

  function Next(g: Serving, e: Event): Serving {
    match e
    case Chunk(text) => if g.rejected then g else Drain(g.(buffered := g.buffered + text))
    case Settle => EndWhenIdle(g.(settled := g.settled + 1, inFlight := g.inFlight - 1))
    case Destroy => g.(destroyed := true)
  }

  /** The state after the events, if each could happen. */
  function Run(events: seq<Event>): Serving {
    if events == [] then Initial else Next(Run(events[..|events| - 1]), events[|events| - 1])
  }

  ghost predicate Possible(events: seq<Event>) {
    forall i :: 0 <= i < |events| ==> Enabled(Run(events[..i]), events[i])
  }

  /** All text that arrived. */
  function Stream(events: seq<Event>): Text {
    if events == [] then []
    else
      var e := events[|events| - 1];
      Stream(events[..|events| - 1]) + if e.Chunk? then e.text else []
  }

  // ---------------------------------------------------------------- the requests of a stream

  function Lines(s: Text): seq<Text>
    decreases |s|
  {
    var n := FirstNewline(s);
    if n == |s| then [] else [s[..n]] + Lines(s[n + 1..])
  }

  /** The unfinished last line. */
  function Rest(s: Text): Text
    decreases |s|
  {
    var n := FirstNewline(s);
    if n == |s| then s else Rest(s[n + 1..])
  }

  /** The lines, trimmed, without the blank ones. */
  function Requests(lines: seq<Text>): seq<Text> {
    if lines == [] then []
    else
      var line := Trim(lines[|lines| - 1]);
      Requests(lines[..|lines| - 1]) + if line == [] then [] else [line]
  }

  lemma {:induction false} FirstNewlineAppend(s: Text, t: Text)
    ensures FirstNewline(s) < |s| ==> FirstNewline(s + t) == FirstNewline(s)
  {
    var n := FirstNewline(s);
    if n < |s| {
      assert (s + t)[n] == NEWLINE && (s + t)[..n] == s[..n];
      NewlineUnique(s + t, n);
    }
  }

  lemma {:induction false} NewlineUnique(s: Text, n: nat)
    requires n < |s| && s[n] == NEWLINE && NEWLINE !in s[..n]
    ensures FirstNewline(s) == n
  {
    var m := FirstNewline(s);
    assert forall i :: 0 <= i < n ==> s[..n][i] == s[i];
    assert forall i :: 0 <= i < m ==> s[..m][i] == s[i];
  }

  /** The first line and what is behind it. */
  lemma {:induction false} FirstLine(s: Text, n: nat)
    requires n == FirstNewline(s) < |s|
    ensures Lines(s) == [s[..n]] + Lines(s[n + 1..]) && Rest(s) == Rest(s[n + 1..])
  {
  }

  /** More text continues the unfinished line. */
  lemma {:induction false} LinesAppend(s: Text, t: Text)
    ensures Lines(s + t) == Lines(s) + Lines(Rest(s) + t) && Rest(s + t) == Rest(Rest(s) + t)
    decreases |s|
  {
    var n := FirstNewline(s);
    if n < |s| {
      FirstNewlineAppend(s, t);
      assert (s + t)[n + 1..] == s[n + 1..] + t && (s + t)[..n] == s[..n];
      FirstLine(s, n);
      FirstLine(s + t, n);
      hide Lines, Rest, FirstNewline;
      LinesAppend(s[n + 1..], t);
      Regroup(s[..n], Lines(s[n + 1..]), Lines(Rest(s) + t));
    } else {
      assert Lines(s) == [] && Rest(s) == s;
    }
  }

  lemma {:induction false} Regroup(line: Text, a: seq<Text>, b: seq<Text>)
    ensures ([line] + a) + b == [line] + (a + b)
  {
  }

  lemma {:induction false} RestHasNoNewline(s: Text)
    ensures NEWLINE !in Rest(s) && Lines(Rest(s)) == [] && Rest(Rest(s)) == Rest(s)
    decreases |s|
  {
    var n := FirstNewline(s);
    if n < |s| { RestHasNoNewline(s[n + 1..]); } else { assert s[..n] == s; }
  }

  lemma {:induction false} RequestsConcat(a: seq<Text>, b: seq<Text>)
    ensures Requests(a + b) == Requests(a) + Requests(b)
    decreases |b|
  {
    if b == [] {
      assert a + [] == a;
    } else {
      var n := |b| - 1;
      assert (a + b)[..|a| + n] == a + b[..n];
      RequestsConcat(a, b[..n]);
    }
  }

  // ---------------------------------------------------------------- draining the buffer

  /** No line of the text, as it stands, is over the limit. */
  ghost predicate Within(s: Text) {
    (forall i :: 0 <= i < |Lines(s)| ==> ByteLength(Lines(s)[i]) <= MAX_REQUEST_BYTES) && ByteLength(Rest(s)) <= MAX_REQUEST_BYTES
  }

  lemma {:induction false} TrimShorter(s: Text)
    ensures ByteLength(Trim(s)) <= ByteLength(s)
  {
    TrimStartShorter(s);
    TrimEndShorter(TrimStart(s));
  }

  lemma {:induction false} TrimStartShorter(s: Text)
    ensures ByteLength(TrimStart(s)) <= ByteLength(s)
  {
    if s != [] { TrimStartShorter(s[1..]); }
  }

  lemma {:induction false} TrimEndShorter(s: Text)
    ensures ByteLength(TrimEnd(s)) <= ByteLength(s)
    decreases |s|
  {
    if s != [] {
      TrimEndShorter(s[..|s| - 1]);
      SplitBytes(s, |s| - 1);
    }
  }

  /** Within the limit after the first line, too. */
  lemma {:induction false} WithinNext(s: Text, n: nat)
    requires Within(s) && n == FirstNewline(s) < |s|
    ensures Within(s[n + 1..]) && ByteLength(s[..n]) <= MAX_REQUEST_BYTES
  {
    FirstLine(s, n);
    hide ByteLength, FirstNewline;
    assert Lines(s)[0] == s[..n];
    var more := Lines(s[n + 1..]);
    forall i | 0 <= i < |more| ensures ByteLength(more[i]) <= MAX_REQUEST_BYTES { assert Lines(s)[i + 1] == more[i]; }
  }

  lemma {:induction false} RequestsFirst(line: Text, lines: seq<Text>)
    ensures Requests([line] + lines) == (if Trim(line) == [] then [] else [Trim(line)]) + Requests(lines)
  {
    RequestsConcat([line], lines);
    assert [line][..0] == [];
    assert Requests([]) == [];
    assert forall r: seq<Text> :: [] + r == r;
  }

  ghost function Drained(g: Serving): Serving {
    g.(buffered := Rest(g.buffered), dispatched := g.dispatched + Requests(Lines(g.buffered)),
       inFlight := g.inFlight + |Requests(Lines(g.buffered))|)
  }

  /** The state after taking the first line off the buffer. */
  ghost function Advanced(g: Serving, n: nat): Serving
    requires n < |g.buffered|
  {
    Dispatch(g.(buffered := g.buffered[n + 1..]), Trim(g.buffered[..n]))
  }

  lemma {:induction false} AdvancedDrained(g: Serving, n: nat)
    requires n == FirstNewline(g.buffered) < |g.buffered|
    ensures Drained(Advanced(g, n)) == Drained(g)
  {
    var line, lines := Trim(g.buffered[..n]), Lines(g.buffered[n + 1..]);
    FirstLine(g.buffered, n);
    RequestsFirst(g.buffered[..n], lines);
    hide Requests, Lines, Rest, FirstNewline, Trim;
    DispatchedJoin(g.dispatched, line, Requests(lines));
  }

  lemma {:induction false} DispatchedJoin(before: seq<Text>, line: Text, more: seq<Text>)
    ensures before + ([line] + more) == (before + [line]) + more && [] + more == more
  {
  }

  lemma {:induction false} DrainFirst(g: Serving, n: nat)
    requires n == FirstNewline(g.buffered) < |g.buffered| && ByteLength(Trim(g.buffered[..n])) <= MAX_REQUEST_BYTES
    ensures Drain(g) == Drain(Advanced(g, n))
  {
    hide ByteLength, Trim, FirstNewline, Reject;
  }

  lemma {:induction false} DrainNothing(g: Serving)
    requires FirstNewline(g.buffered) == |g.buffered| && ByteLength(g.buffered) <= MAX_REQUEST_BYTES
    ensures Drain(g) == Drained(g) == g
  {
    hide ByteLength, Trim, FirstNewline, Reject;
    assert g.dispatched + [] == g.dispatched;
  }

  /** Draining dispatches the requests of the complete lines, in order, and keeps the rest. */
  lemma {:induction false} DrainWithin(g: Serving)
    requires Within(g.buffered)
    ensures Drain(g) == Drained(g)
    decreases |g.buffered|
  {
    var s := g.buffered;
    var n := FirstNewline(s);
    if n == |s| {
      assert Rest(s) == s;
      DrainNothing(g);
    } else {
      WithinNext(s, n);
      TrimShorter(s[..n]);
      hide Drain, Within, Drained, ByteLength, Trim, FirstNewline;
      DrainFirst(g, n);
      AdvancedDrained(g, n);
      DrainWithin(Advanced(g, n));
    }
  }

  // ---------------------------------------------------------------- however the stream is cut

  lemma {:induction false} StreamNext(events: seq<Event>)
    requires events != []
    ensures var e := events[|events| - 1];
      Stream(events) == Stream(events[..|events| - 1]) + if e.Chunk? then e.text else []
  {
  }

  /** Text within the limit is within it up to any point. */
  lemma {:induction false} WithinPrefix(s: Text, t: Text)
    requires Within(s + t)
    ensures Within(s) && Within(Rest(s) + t)
  {
    LinesAppend(s, t);
    var lines, more := Lines(s), Lines(Rest(s) + t);
    hide ByteLength, Lines, Rest;
    forall i | 0 <= i < |lines| ensures ByteLength(lines[i]) <= MAX_REQUEST_BYTES { assert Lines(s + t)[i] == lines[i]; }
    forall i | 0 <= i < |more| ensures ByteLength(more[i]) <= MAX_REQUEST_BYTES { assert Lines(s + t)[|lines| + i] == more[i]; }
    RestHasNoNewline(s);
    FirstPart(Rest(s), t);
  }

  lemma {:induction false} NewlineNotBefore(s: Text, k: nat)
    requires k <= |s| && NEWLINE !in s[..k]
    ensures FirstNewline(s) >= k
  {
    assert forall i :: 0 <= i < k ==> s[i] == s[..k][i];
  }

  /** An unfinished line is the beginning of the line it becomes. */
  lemma {:induction false} FirstPart(r: Text, t: Text)
    requires NEWLINE !in r && Within(r + t)
    ensures ByteLength(r) <= MAX_REQUEST_BYTES
  {
    var all := r + t;
    assert all[..|r|] == r;
    var n := FirstNewline(all);
    NewlineNotBefore(all, |r|);
    if n < |all| { FirstLine(all, n); assert Lines(all)[0] == all[..n]; } else { assert all[..n] == all; }
    SplitBytes(all[..n], |r|);
    assert all[..n][..|r|] == r;
  }

  lemma {:induction false} SettledOnly(g: Serving, e: Event)
    requires !e.Chunk?
    ensures var h := Next(g, e); h.buffered == g.buffered && h.dispatched == g.dispatched && h.rejected == g.rejected
  {
  }

  /** If no line of the whole stream is over the limit, nothing is rejected and the requests
      dispatched are the non-blank lines of the stream, in order, however it was cut into chunks and
      whatever else happened in between. */
  lemma {:induction false} CutDoesNotMatter(events: seq<Event>)
    requires Within(Stream(events))
    ensures var g, s := Run(events), Stream(events);
      !g.rejected && g.dispatched == Requests(Lines(s)) && g.buffered == Rest(s)
  {
    if events == [] {
      assert Lines([]) == [] && Rest([]) == [];
    } else {
      var early, e := events[..|events| - 1], events[|events| - 1];
      var s, t: Text := Stream(early), if e.Chunk? then e.text else [];
      StreamNext(events);
      WithinPrefix(s, t);
      CutDoesNotMatter(early);
      var g := Run(early);
      if e.Chunk? {
        LinesAppend(s, t);
        var h := g.(buffered := g.buffered + t);
        DrainWithin(h);
        RequestsConcat(Lines(s), Lines(Rest(s) + t));
      } else {
        SettledOnly(g, e);
        assert s + [] == s;
      }
    }
  }

  // ---------------------------------------------------------------- lines over the limit

  /** No request is over the limit once trimmed, and neither is the unfinished line. */
  ghost predicate Acceptable(s: Text) {
    (forall i :: 0 <= i < |Lines(s)| ==> ByteLength(Trim(Lines(s)[i])) <= MAX_REQUEST_BYTES) && ByteLength(Rest(s)) <= MAX_REQUEST_BYTES
  }

  /** The requests of the first `k` lines, after those dispatched before. */
  ghost predicate UpTo(g: Serving, h: Serving, k: nat) {
    k <= |Lines(g.buffered)| && h.dispatched == g.dispatched + Requests(Lines(g.buffered)[..k])
  }

  lemma {:induction false} AcceptableNext(s: Text, n: nat)
    requires n == FirstNewline(s) < |s|
    ensures Acceptable(s) <==> Acceptable(s[n + 1..]) && ByteLength(Trim(s[..n])) <= MAX_REQUEST_BYTES
  {
    FirstLine(s, n);
    hide ByteLength, FirstNewline, Trim;
    var all, more := Lines(s), Lines(s[n + 1..]);
    assert all[0] == s[..n] && forall i :: 0 <= i < |more| ==> all[i + 1] == more[i];
    assert forall i :: 0 < i < |all| ==> all[i] == more[i - 1];
  }

  lemma {:induction false} UpToNext(g: Serving, h: Serving, n: nat, k: nat)
    requires n == FirstNewline(g.buffered) < |g.buffered| && UpTo(Advanced(g, n), h, k)
    ensures UpTo(g, h, k + 1)
  {
    var line, lines := g.buffered[..n], Lines(g.buffered[n + 1..]);
    FirstLine(g.buffered, n);
    assert ([line] + lines)[..k + 1] == [line] + lines[..k];
    RequestsFirst(line, lines[..k]);
    hide Requests, Lines, Rest, FirstNewline, Trim;
    DispatchedJoin(g.dispatched, Trim(line), Requests(lines[..k]));
  }

  /** Draining rejects exactly if something in the buffer is over the limit, and then after the
      requests of the lines before; otherwise it takes the whole buffer. */
  lemma {:induction false} DrainExact(g: Serving) returns (k: nat)
    requires !g.rejected
    ensures Drain(g).rejected <==> !Acceptable(g.buffered)
    ensures !Drain(g).rejected ==> Drain(g) == Drained(g)
    ensures Drain(g).rejected ==> UpTo(g, Drain(g), k)
    decreases |g.buffered|
  {
    hide Drain, Drained, ByteLength, Trim, UpTo, FirstNewline, Acceptable;
    var n := FirstNewline(g.buffered);
    if n == |g.buffered| || ByteLength(Trim(g.buffered[..n])) > MAX_REQUEST_BYTES {
      k := 0;
      DrainAtOnce(g, n);
    } else {
      DrainFirst(g, n);
      AdvancedDrained(g, n);
      assert !Advanced(g, n).rejected;
      var j := DrainExact(Advanced(g, n));
      k := j + 1;
      AcceptableNext(g.buffered, n);
      if Drain(g).rejected { UpToNext(g, Drain(g), n, j); }
    }
  }

  /** Nothing is dispatched: there is no complete line, or the first one is over the limit. */
  lemma {:induction false} DrainAtOnce(g: Serving, n: nat)
    requires !g.rejected && n == FirstNewline(g.buffered)
    requires n == |g.buffered| || ByteLength(Trim(g.buffered[..n])) > MAX_REQUEST_BYTES
    ensures Drain(g).rejected <==> !Acceptable(g.buffered)
    ensures !Drain(g).rejected ==> Drain(g) == Drained(g)
    ensures UpTo(g, Drain(g), 0) || !Drain(g).rejected
  {
    var s := g.buffered;
    NothingDispatched(g);
    if n == |s| {
      assert Lines(s) == [] && Rest(s) == s;
      hide ByteLength, Trim, Lines, Rest, FirstNewline;
      if ByteLength(s) <= MAX_REQUEST_BYTES { DrainNothing(g); }
    } else {
      AcceptableNext(s, n);
      hide ByteLength, Trim, Lines, Rest, FirstNewline;
    }
  }

  lemma {:induction false} NothingDispatched(g: Serving)
    ensures g.dispatched + Requests(Lines(g.buffered)[..0]) == g.dispatched
  {
    hide Lines;
    assert Lines(g.buffered)[..0] == [];
    assert Requests([]) == [] && g.dispatched + [] == g.dispatched;
  }

  lemma {:induction false} AcceptableJoin(s: Text, t: Text)
    requires Acceptable(s) && Acceptable(Rest(s) + t)
    ensures Acceptable(s + t)
  {
    LinesAppend(s, t);
    hide ByteLength, Trim, Lines, Rest;
  }

  lemma {:induction false} RequestsPrefix(lines: seq<Text>, k: nat)
    requires k <= |lines|
    ensures Requests(lines[..k]) <= Requests(lines)
  {
    assert lines == lines[..k] + lines[k..];
    RequestsConcat(lines[..k], lines[k..]);
  }

  /** For every stream: what is dispatched is the first part of the stream's requests. Without a
      rejection it is all of them, and then no request was over the limit. */
  lemma {:induction false} DispatchedInOrder(events: seq<Event>)
    ensures var g, s := Run(events), Stream(events);
      g.dispatched <= Requests(Lines(s)) &&
      (!g.rejected ==> g.dispatched == Requests(Lines(s)) && g.buffered == Rest(s) && Acceptable(s))
  {
    if events == [] {
      assert Lines([]) == [] && Rest([]) == [];
    } else {
      var early, e := events[..|events| - 1], events[|events| - 1];
      var s, t: Text := Stream(early), if e.Chunk? then e.text else [];
      StreamNext(events);
      DispatchedInOrder(early);
      LinesAppend(s, t);
      RequestsConcat(Lines(s), Lines(Rest(s) + t));
      var g := Run(early);
      assert Run(events) == Next(g, e);
      hide Run, Stream, Requests, Lines, Rest, Acceptable;
      if e.Chunk? && !g.rejected {
        ChunkInOrder(g, s, t);
      } else {
        SettledOnly(g, if e.Chunk? then Destroy else e);
        assert s + [] == s;
      }
    }
  }

  lemma {:induction false} ChunkInOrder(g: Serving, s: Text, t: Text)
    requires !g.rejected && g.dispatched == Requests(Lines(s)) && g.buffered == Rest(s) && Acceptable(s)
    ensures var h := Next(g, Chunk(t));
      h.dispatched <= Requests(Lines(s + t)) &&
      (!h.rejected ==> h.dispatched == Requests(Lines(s + t)) && h.buffered == Rest(s + t) && Acceptable(s + t))
  {
    LinesAppend(s, t);
    RequestsConcat(Lines(s), Lines(Rest(s) + t));
    var m := g.(buffered := g.buffered + t);
    var k := DrainExact(m);
    hide Requests, Lines, Rest, Drain, Acceptable;
    if Drain(m).rejected {
      RequestsPrefix(Lines(Rest(s) + t), k);
    } else {
      AcceptableJoin(s, t);
    }
  }

  // ---------------------------------------------------------------- when the cut matters

  /** Nothing but chunks, which are together the text. */
  ghost predicate Cuts(events: seq<Event>, s: Text) {
    Stream(events) == s && forall i :: 0 <= i < |events| ==> events[i].Chunk?
  }

  ghost predicate SomeCut(s: Text, rejected: bool) {
    exists events :: Cuts(events, s) && Run(events).rejected == rejected
  }

  /** A text over the limit can be cut so that its first part ends in a line over the limit: just
      before the newline of its first such line, or at its end. */
  lemma {:induction false} LongLineCut(s: Text) returns (k: nat)
    requires !Within(s)
    ensures k <= |s| && ByteLength(Rest(s[..k])) > MAX_REQUEST_BYTES
    decreases |s|
  {
    hide ByteLength;
    var n := FirstNewline(s);
    if n == |s| {
      k := n;
      assert s[..n] == s;
    } else if ByteLength(s[..n]) > MAX_REQUEST_BYTES {
      k := n;
      NewlineNotBefore(s[..n], n) by { assert s[..n][..n] == s[..n]; }
      assert Rest(s[..n]) == s[..n];
    } else {
      OverNext(s, n);
      var j := LongLineCut(s[n + 1..]);
      k := n + 1 + j;
      assert s[..k][..n] == s[..n] && s[..k][n] == NEWLINE && s[..k][n + 1..] == s[n + 1..][..j];
      NewlineUnique(s[..k], n);
      FirstLine(s[..k], n);
    }
  }

  lemma {:induction false} OverNext(s: Text, n: nat)
    requires n == FirstNewline(s) < |s| && !Within(s) && ByteLength(s[..n]) <= MAX_REQUEST_BYTES
    ensures !Within(s[n + 1..])
  {
    FirstLine(s, n);
    hide ByteLength, FirstNewline, Lines, Rest;
    assert forall i :: 0 < i < |Lines(s)| ==> Lines(s)[i] == Lines(s[n + 1..])[i - 1];
  }

  /** Some way of cutting a text is rejected if and only if one of its lines, blanks included, or its
      unfinished end is over the limit. */
  lemma {:induction false} SomeCutRejected(s: Text)
    ensures SomeCut(s, true) <==> !Within(s)
  {
    if SomeCut(s, true) {
      var events :| Cuts(events, s) && Run(events).rejected;
      if Within(s) {
        CutDoesNotMatter(events);
        assert false;
      }
    }
    if !Within(s) {
      var k := LongLineCut(s);
      var a, b := s[..k], s[k..];
      TwoChunks(a, b);
      OneChunk(a);
      DispatchedInOrder([Chunk(a)]);
      assert a + b == s;
      assert Cuts([Chunk(a), Chunk(b)], s);
    }
  }

  /** Sent in one piece, a text is rejected if and only if one of its lines is over the limit after
      trimming, or its unfinished end is over the limit. */
  lemma {:induction false} OnePieceRejected(s: Text)
    ensures Run([Chunk(s)]).rejected <==> !Acceptable(s)
  {
    OneChunk(s);
    var g := Initial.(buffered := [] + s);
    assert [] + s == s;
    var k := DrainExact(g);
  }

  /** Whether a text is rejected depends on how it is cut if and only if its trimmed lines and its
      unfinished end are within the limit, but not all of its lines are before trimming. */
  lemma {:induction false} CutMattersExactly(s: Text)
    ensures SomeCut(s, true) && SomeCut(s, false) <==> Acceptable(s) && !Within(s)
  {
    SomeCutRejected(s);
    OnePieceRejected(s);
    OneChunk(s);
    assert Cuts([Chunk(s)], s);
    if SomeCut(s, false) {
      var events :| Cuts(events, s) && !Run(events).rejected;
      DispatchedInOrder(events);
    }
  }

  function Spaces(n: nat): Text { seq(n, _ => 0x20) }

  lemma {:induction false} SpacesTrimmed(n: nat, q: Text)
    requires q != [] && !Space(q[0])
    ensures TrimStart(Spaces(n) + q) == q && ByteLength(Spaces(n) + q) == n + ByteLength(q)
  {
    var s := Spaces(n) + q;
    if n > 0 {
      assert s[1..] == Spaces(n - 1) + q;
      SpacesTrimmed(n - 1, q);
    } else {
      assert s == q;
    }
  }

  /** So it does for every request that is within the limit and that enough blanks in front of it put
      over: in one piece it is dispatched, and cut before its newline it is rejected. */
  lemma {:induction false} PaddedRequestDependsOnCut(n: nat, q: Text)
    requires q != [] && Trim(q) == q && !Space(q[0]) && NEWLINE !in q
    requires ByteLength(q) <= MAX_REQUEST_BYTES < n + ByteLength(q)
    ensures var line := Spaces(n) + q;
      SomeCut(line + [NEWLINE], true) && SomeCut(line + [NEWLINE], false) &&
      Run([Chunk(line + [NEWLINE])]).dispatched == [q] && Run([Chunk(line), Chunk([NEWLINE])]).rejected
  {
    var line := Spaces(n) + q;
    var s := line + [NEWLINE];
    PaddedLine(n, q);
    CutMattersExactly(s);
    OnePieceRejected(s);
    DispatchedInOrder([Chunk(s)]);
    OneChunk(s);
    RequestsFirst(line, []);
    assert [line] + [] == [line] && Requests([]) == [] && [q] + [] == [q];
    TwoChunks(line, [NEWLINE]);
    OneChunk(line);
    DispatchedInOrder([Chunk(line)]);
  }

  /** The padded line and its newline are one line, over the limit only before trimming. */
  lemma {:induction false} PaddedLine(n: nat, q: Text)
    requires q != [] && Trim(q) == q && !Space(q[0]) && NEWLINE !in q
    requires ByteLength(q) <= MAX_REQUEST_BYTES < n + ByteLength(q)
    ensures var line := Spaces(n) + q; var s := line + [NEWLINE];
      Trim(line) == q && Rest(line) == line && Lines(s) == [line] && Acceptable(s) && !Within(s) && !Acceptable(line)
  {
    var line := Spaces(n) + q;
    var s := line + [NEWLINE];
    SpacesTrimmed(n, q);
    assert TrimStart(q) == q;
    assert NEWLINE !in line && line[..|line|] == line;
    NewlineNotBefore(line, |line|);
    assert s[..|line|] == line && s[|line|] == NEWLINE && s[|line| + 1..] == [];
    NewlineUnique(s, |line|);
    FirstLine(s, |line|);
    assert Lines([]) == [] && Rest([]) == [] && ByteLength([]) == 0;
    hide ByteLength, Trim, FirstNewline, TrimStart;
    assert Lines(s)[0] == line;
  }

  lemma {:induction false} OneChunk(text: Text)
    ensures Stream([Chunk(text)]) == text && Run([Chunk(text)]) == Next(Initial, Chunk(text))
  {
    assert [Chunk(text)][..0] == [];
    assert Stream([]) == [] && Run([]) == Initial;
    assert [] + text == text;
  }

  lemma {:induction false} TwoChunks(a: Text, b: Text)
    ensures Stream([Chunk(a), Chunk(b)]) == a + b
    ensures Run([Chunk(a), Chunk(b)]) == Next(Next(Initial, Chunk(a)), Chunk(b))
  {
    OneChunk(a);
    assert [Chunk(a), Chunk(b)][..1] == [Chunk(a)];
  }

  // ---------------------------------------------------------------- ending the socket

  ghost predicate EndInv(g: Serving) {
    g.settled <= |g.dispatched| && g.inFlight == |g.dispatched| - g.settled && g.ended <= 1 &&
    (g.ended == 1 ==> g.rejected && g.inFlight == 0) && (g.rejected ==> g.buffered == []) &&
    (g.rejected && g.inFlight == 0 && !g.destroyed ==> g.ended == 1)
  }

  /** However handlers settle and whatever arrives: the socket is ended at most once, only after a
      rejection and only when every handler has settled; and if it is still there when they have,
      it is ended. Nothing is kept of what arrived after a rejection. */
  lemma {:induction false} EndedOnce(events: seq<Event>)
    requires Possible(events)
    ensures var g := Run(events);
      g.inFlight == |g.dispatched| - g.settled >= 0 && g.ended <= 1 &&
      (g.ended == 1 ==> g.rejected && g.settled == |g.dispatched|) && (g.rejected ==> g.buffered == []) &&
      (g.rejected && g.settled == |g.dispatched| && !g.destroyed ==> g.ended == 1)
  {
    RunKeepsEnd(events);
  }

  lemma {:induction false} RunKeepsEnd(events: seq<Event>)
    requires Possible(events)
    ensures EndInv(Run(events))
  {
    if events != [] {
      var n := |events| - 1;
      var early, e := events[..n], events[n];
      PossibleEarly(events);
      RunKeepsEnd(early);
      var g := Run(early);
      hide Drain, Run, Possible;
      if e.Chunk? && !g.rejected { DrainEndsNow(g.(buffered := g.buffered + e.text)); }
    }
  }

  ghost predicate Idle(g: Serving) { g.rejected && g.settled == |g.dispatched| && !g.destroyed }

  ghost predicate IdleAt(events: seq<Event>, i: nat) { i <= |events| && Idle(Run(events[..i])) }

  /** It is ended exactly if at some moment it was still there, rejected, and every handler had settled; and it
      is gone exactly if it was destroyed. */
  lemma {:induction false} EndedExactly(events: seq<Event>)
    requires Possible(events)
    ensures Run(events).ended == 1 <==> exists i: nat :: IdleAt(events, i)
    ensures Run(events).destroyed <==> Destroy in events
  {
    if events == [] {
      assert forall i: nat :: !IdleAt(events, i) by { assert forall i: nat :: i <= |events| ==> events[..i] == []; }
    } else {
      var early, e := events[..|events| - 1], events[|events| - 1];
      assert events == early + [e];
      PossibleEarly(events);
      EndedExactly(early);
      EndsNow(early, e);
      IdleNext(early, e);
      hide Run, Possible, Idle, IdleAt, Enabled;
    }
  }

  lemma {:induction false} PossibleEarly(events: seq<Event>)
    requires events != [] && Possible(events)
    ensures Possible(events[..|events| - 1]) && Enabled(Run(events[..|events| - 1]), events[|events| - 1])
  {
    var n := |events| - 1;
    hide Run, Enabled;
    forall i | 0 <= i < n ensures Enabled(Run(events[..n][..i]), events[..n][i]) { assert events[..n][..i] == events[..i]; }
  }

  lemma {:induction false} IdleNext(events: seq<Event>, e: Event)
    ensures (exists i: nat :: IdleAt(events + [e], i)) <==> (exists i: nat :: IdleAt(events, i)) || Idle(Run(events + [e]))
  {
    hide Run, Idle;
    var all := events + [e];
    assert all[..|all|] == all;
    forall i: nat | i <= |events| ensures IdleAt(all, i) <==> IdleAt(events, i) { assert all[..i] == events[..i]; }
    assert IdleAt(all, |all|) <==> Idle(Run(all));
    if exists i: nat :: IdleAt(all, i) {
      var i: nat :| IdleAt(all, i);
      assert i <= |events| ==> IdleAt(events, i);
    }
    if exists i: nat :: IdleAt(events, i) {
      var i: nat :| IdleAt(events, i);
      assert IdleAt(all, i);
    }
  }

  lemma {:induction false} EndsNow(events: seq<Event>, e: Event)
    requires Possible(events) && Enabled(Run(events), e)
    ensures Run(events + [e]).ended == 1 <==> Run(events).ended == 1 || Idle(Run(events + [e]))
    ensures Run(events + [e]).destroyed <==> Run(events).destroyed || e == Destroy
  {
    RunKeepsEnd(events);
    RunNext(events, e);
    var g := Run(events);
    hide Drain, Run, Possible;
    if e.Chunk? && !g.rejected { DrainEndsNow(g.(buffered := g.buffered + e.text)); }
  }

  lemma {:induction false} DrainEndsNow(g: Serving)
    requires EndInv(g) && !g.rejected && !g.destroyed
    ensures EndInv(Drain(g)) && !Drain(g).destroyed && (Drain(g).ended == 1 <==> Idle(Drain(g)))
    decreases |g.buffered|
  {
    var n := FirstNewline(g.buffered);
    hide FirstNewline, Trim, ByteLength;
    if n < |g.buffered| && ByteLength(Trim(g.buffered[..n])) <= MAX_REQUEST_BYTES {
      DrainEndsNow(Advanced(g, n));
    }
  }

  /** After a rejection nothing more is dispatched. */
  lemma {:induction false} NothingAfterRejection(events: seq<Event>, more: seq<Event>)
    requires Run(events).rejected
    ensures Run(events + more).rejected && Run(events + more).dispatched == Run(events).dispatched
    decreases |more|
  {
    hide Drain, Run;
    if more == [] {
      assert events + [] == events;
    } else {
      var n := |more| - 1;
      NothingAfterRejection(events, more[..n]);
      RunNext(events + more[..n], more[n]);
      assert events + more == (events + more[..n]) + [more[n]];
    }
  }

  lemma {:induction false} RunNext(events: seq<Event>, e: Event)
    ensures Run(events + [e]) == Next(Run(events), e)
  {
    hide Next;
    assert (events + [e])[..|events|] == events;
  }

  // ---------------------------------------------------------------- the loop

  class Connection {
    var buffered: Text
    var dispatched: seq<Text>
    var settled: nat
    var inFlight: int
    var rejected: bool
    var ended: nat
    var destroyed: bool

    ghost function View(): Serving
      reads this
    {
      Serving(buffered, dispatched, settled, inFlight, rejected, ended, destroyed)
    }

    constructor ()
      ensures View() == Initial
    {
      buffered, dispatched, settled, inFlight, rejected, ended, destroyed := [], [], 0, 0, false, 0, false;
    }

    method End()
      modifies this`ended
      ensures View() == EndWhenIdle(old(View()))
    {
      if rejected && inFlight == 0 && !destroyed { ended := ended + 1; }
    }

    method RejectRequest()
      modifies this
      ensures View() == Reject(old(View()))
    {
      buffered := [];
      rejected := true;
      End();
    }

    method DrainBuffer()
      modifies this
      ensures View() == Drain(old(View()))
    {
      hide FirstNewline, ByteLength, Trim;
      var newline := FirstNewline(buffered);
      while newline < |buffered|
        invariant newline == FirstNewline(buffered)
        invariant Drain(View()) == Drain(old(View()))
        decreases |buffered|
      {
        var line := Trim(buffered[..newline]);
        buffered := buffered[newline + 1..];
        if ByteLength(line) > MAX_REQUEST_BYTES {
          RejectRequest();
          return;
        }
        if line != [] {
          dispatched := dispatched + [line];
          inFlight := inFlight + 1;
        }
        newline := FirstNewline(buffered);
      }
      if ByteLength(buffered) > MAX_REQUEST_BYTES { RejectRequest(); }
    }

    method OnData(chunk: Text)
      modifies this
      ensures View() == Next(old(View()), Chunk(chunk))
    {
      hide Drain;
      if rejected { return; }
      buffered := buffered + chunk;
      DrainBuffer();
    }

    method HandlerSettled()
      modifies this
      ensures View() == Next(old(View()), Settle)
    {
      settled := settled + 1;
      inFlight := inFlight - 1;
      End();
    }
  }
}
