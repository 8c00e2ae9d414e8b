/** `createRootSession`: concurrent calls that share a client request id run the creation once and
    share its result. One step is the code between two awaits. */
module RootCreation {
  datatype Option<T> = None | Some(value: T)

  /** How far the operation a request started has come. The session id is kept once the session
      exists, whatever happens after. */
  datatype Phase = Validating | Creating | Viewing | Succeeded | Broken

  datatype Operation = Operation(request: string, fingerprint: string, phase: Phase, session: Option<nat>)

  datatype Reply = Replied(session: nat, replayed: bool) | Refused | Failed

  /** A call awaits an operation, as the one that started it or as a later one, until it replies. */
  datatype Call = Call(request: string, fingerprint: string, op: Option<nat>, owner: bool, reply: Option<Reply>)

  datatype Cached = Cached(fingerprint: string, session: nat)

  datatype InFlight = InFlight(fingerprint: string, op: nat)

  datatype Service = Service(results: map<string, Cached>, inFlight: map<string, InFlight>,
                             ops: seq<Operation>, calls: seq<Call>, sessions: nat)

  /** `ok` says whether the awaited step succeeded. */
  datatype Step =
    | Request(request: string, fingerprint: string)
    | Validated(op: nat, ok: bool)
    | Created(op: nat, ok: bool)
    | Viewed(op: nat, ok: bool)
    | Resume(call: nat)

  const Initial := Service(map[], map[], [], [], 0)

  predicate Running(p: Phase) { p == Validating || p == Creating || p == Viewing }

  predicate Enabled(s: Service, step: Step) {
    match step
    case Request(_, _) => true
    case Validated(op, _) => op < |s.ops| && s.ops[op].phase == Validating
    case Created(op, _) => op < |s.ops| && s.ops[op].phase == Creating
    case Viewed(op, _) => op < |s.ops| && s.ops[op].phase == Viewing && s.ops[op].session.Some?
    case Resume(c) =>
      c < |s.calls| && s.calls[c].reply == None && s.calls[c].op.Some? && s.calls[c].op.value < |s.ops| &&
      !Running(s.ops[s.calls[c].op.value].phase)
  }

  function Start(s: Service, request: string, fingerprint: string): Service {
    if request in s.results then
      var cached := s.results[request];
      var reply := if cached.fingerprint == fingerprint then Replied(cached.session, true) else Refused;
      s.(calls := s.calls + [Call(request, fingerprint, None, false, Some(reply))])
    else if request in s.inFlight then
      if s.inFlight[request].fingerprint == fingerprint
      then s.(calls := s.calls + [Call(request, fingerprint, Some(s.inFlight[request].op), false, None)])
      else s.(calls := s.calls + [Call(request, fingerprint, None, false, Some(Refused))])
    else
      s.(ops := s.ops + [Operation(request, fingerprint, Validating, None)],
         inFlight := s.inFlight[request := InFlight(fingerprint, |s.ops|)],
         calls := s.calls + [Call(request, fingerprint, Some(|s.ops|), true, None)])
  }

  function MoveTo(s: Service, op: nat, phase: Phase): Service
    requires op < |s.ops|
  {
    s.(ops := s.ops[op := s.ops[op].(phase := phase)])
  }

  function Outcome(o: Operation, replayed: bool): Reply {
    if o.phase == Succeeded && o.session.Some? then Replied(o.session.value, replayed) else Failed
  }

  function Next(s: Service, step: Step): Service
    requires Enabled(s, step)
  {
    match step
    case Request(request, fingerprint) => Start(s, request, fingerprint)
    case Validated(op, ok) => MoveTo(s, op, if ok then Creating else Broken)
    case Created(op, ok) =>
      if ok then s.(ops := s.ops[op := s.ops[op].(phase := Viewing, session := Some(s.sessions))], sessions := s.sessions + 1)
      else MoveTo(s, op, Broken)
    case Viewed(op, ok) =>
      if ok then MoveTo(s, op, Succeeded).(results := s.results[s.ops[op].request := Cached(s.ops[op].fingerprint, s.ops[op].session.value)])
      else MoveTo(s, op, Broken)
    case Resume(c) =>
      var call := s.calls[c];
      s.(calls := s.calls[c := call.(reply := Some(Outcome(s.ops[call.op.value], !call.owner)))],
         inFlight := if call.owner then s.inFlight - {call.request} else s.inFlight)
  }

  ghost predicate IsRun(s: Service, steps: seq<Step>, t: Service)
    decreases |steps|
  {
    if steps == [] then s == t else Enabled(s, steps[0]) && IsRun(Next(s, steps[0]), steps[1..], t)
  }

  // ---------------------------------------------------------------- the invariant

  /** An operation that runs is the one in flight for its request, and nothing is cached yet; one
      that succeeded is the one cached. */
  ghost predicate OpInv(s: Service, o: nat)
    requires o < |s.ops|
  {
    var op := s.ops[o];
    (Running(op.phase) ==> op.request in s.inFlight && s.inFlight[op.request].op == o && op.request !in s.results) &&
    (op.phase == Viewing || op.phase == Succeeded ==> op.session.Some? && op.session.value < s.sessions) &&
    (op.phase == Validating || op.phase == Creating ==> op.session == None) &&
    (op.phase == Succeeded ==> op.request in s.results && s.results[op.request] == Cached(op.fingerprint, op.session.value))
  }

  ghost predicate Serves(s: Service, call: Call, op: nat) {
    op < |s.ops| && s.ops[op].request == call.request && s.ops[op].fingerprint == call.fingerprint
  }

  /** A reply with a session carries the cached one; the one not marked replayed is the starter's. */
  ghost predicate Answered(s: Service, call: Call, reply: Reply)
    requires reply.Replied?
  {
    call.request in s.results && s.results[call.request] == Cached(call.fingerprint, reply.session) &&
    (!reply.replayed ==>
       call.owner && call.op.Some? && call.op.value < |s.ops| && s.ops[call.op.value].phase == Succeeded)
  }

  ghost predicate CallInv(s: Service, c: nat)
    requires c < |s.calls|
  {
    var call := s.calls[c];
    (call.op.Some? ==> Serves(s, call, call.op.value)) &&
    (call.owner || call.reply == None ==> call.op.Some?) &&
    (call.owner && call.reply == None ==> call.request in s.inFlight && s.inFlight[call.request].op == call.op.value) &&
    (call.reply.Some? && call.reply.value.Replied? ==> Answered(s, call, call.reply.value))
  }

  /** The operation in flight is the last one its request started, and its starter waits for it. */
  ghost predicate FlightInv(s: Service, r: string)
    requires r in s.inFlight
  {
    var o := s.inFlight[r].op;
    o < |s.ops| && s.ops[o].request == r && s.ops[o].fingerprint == s.inFlight[r].fingerprint &&
    (forall q :: o < q < |s.ops| ==> s.ops[q].request != r) && HasOwner(s, r, o)
  }

  predicate Awaits(call: Call, r: string, o: nat) {
    call.owner && call.reply == None && call.request == r && call.op == Some(o)
  }

  /** The call that started the operation still waits for it. */
  ghost predicate HasOwner(s: Service, r: string, o: nat) { exists c :: 0 <= c < |s.calls| && Awaits(s.calls[c], r, o) }

  ghost predicate Inv(s: Service) {
    (forall o :: 0 <= o < |s.ops| ==> OpInv(s, o)) &&
    OneLive(s) &&
    (forall c :: 0 <= c < |s.calls| ==> CallInv(s, c)) &&
    (forall a, b :: 0 <= a < b < |s.calls| && s.calls[a].owner && s.calls[b].owner ==> s.calls[a].op != s.calls[b].op) &&
    (forall r :: r in s.inFlight ==> FlightInv(s, r)) &&
    (forall r :: r in s.results ==> HasSuccess(s, r))
  }

  /** All operations of a request but the last one broke. */
  ghost predicate OneLive(s: Service) {
    forall a, b :: 0 <= a < b < |s.ops| && s.ops[a].request == s.ops[b].request ==> s.ops[a].phase == Broken
  }

  ghost predicate HasSuccess(s: Service, r: string) {
    exists o :: 0 <= o < |s.ops| && s.ops[o].request == r && s.ops[o].phase == Succeeded
  }

  /** A call that starts nothing. */
  lemma {:induction false} AnsweredKeepsInv(s: Service, call: Call)
    requires Inv(s) && !call.owner
    requires CallInv(s.(calls := [call]), 0)
    ensures Inv(s.(calls := s.calls + [call]))
  {
    var s' := s.(calls := s.calls + [call]);
    forall o | 0 <= o < |s'.ops| ensures OpInv(s', o) { assert OpInv(s, o); }
    forall c | 0 <= c < |s'.calls| ensures CallInv(s', c) {
      if c < |s.calls| { assert CallInv(s, c); }
    }
    forall r | r in s'.inFlight ensures FlightInv(s', r) {
      assert FlightInv(s, r);
      OwnerStays(s, s', r, s.inFlight[r].op);
    }
    forall r | r in s'.results ensures HasSuccess(s', r) { assert HasSuccess(s, r); }
  }

  lemma {:induction false} StartKeepsInv(s: Service, request: string, fingerprint: string)
    requires Inv(s)
    ensures Inv(Start(s, request, fingerprint))
  {
    if request in s.results {
      AnsweredKeepsInv(s, Start(s, request, fingerprint).calls[|s.calls|]);
    } else if request in s.inFlight {
      assert FlightInv(s, request);
      AnsweredKeepsInv(s, Start(s, request, fingerprint).calls[|s.calls|]);
    } else {
      OpenKeepsInv(s, request, fingerprint);
    }
  }

  lemma {:induction false} OpenKeepsInv(s: Service, request: string, fingerprint: string)
    requires Inv(s) && request !in s.results && request !in s.inFlight
    ensures Inv(Start(s, request, fingerprint))
  {
    var s', n := Start(s, request, fingerprint), |s.ops|;
    forall o | 0 <= o < |s'.ops| ensures OpInv(s', o) { OpenKeepsOp(s, request, fingerprint, o); }
    forall c | 0 <= c < |s'.calls| ensures CallInv(s', c) { OpenKeepsCall(s, request, fingerprint, c); }
    forall a | 0 <= a < n && s.ops[a].request == request ensures s.ops[a].phase == Broken { assert OpInv(s, a); }
    forall a | 0 <= a < |s.calls| && s.calls[a].owner ensures s.calls[a].op != Some(n) { assert CallInv(s, a); }
    hide OpInv, CallInv, HasSuccess;
    forall r | r in s'.inFlight ensures FlightInv(s', r) { OpenKeepsFlight(s, request, fingerprint, r); }
    forall r | r in s'.results ensures HasSuccess(s', r) { SuccessStays(s, s', r); }
  }

  lemma {:induction false} OpenKeepsOp(s: Service, request: string, fingerprint: string, o: nat)
    requires Inv(s) && request !in s.results && request !in s.inFlight && o <= |s.ops|
    ensures OpInv(Start(s, request, fingerprint), o)
  {
    if o < |s.ops| { assert OpInv(s, o); }
  }

  lemma {:induction false} OpenKeepsFlight(s: Service, request: string, fingerprint: string, r: string)
    requires Inv(s) && request !in s.results && request !in s.inFlight && (r == request || r in s.inFlight)
    ensures FlightInv(Start(s, request, fingerprint), r)
  {
    var s' := Start(s, request, fingerprint);
    if r == request {
      assert Awaits(s'.calls[|s.calls|], r, |s.ops|);
    } else {
      assert FlightInv(s, r);
      OwnerStays(s, s', r, s.inFlight[r].op);
    }
  }

  lemma {:induction false} OpenKeepsCall(s: Service, request: string, fingerprint: string, c: nat)
    requires Inv(s) && request !in s.results && request !in s.inFlight && c <= |s.calls|
    ensures CallInv(Start(s, request, fingerprint), c)
  {
    if c < |s.calls| { assert CallInv(s, c); }
  }

  lemma {:induction false} OwnerStays(s: Service, t: Service, r: string, o: nat)
    requires HasOwner(s, r, o) && |s.calls| <= |t.calls|
    requires forall c :: 0 <= c < |s.calls| && Awaits(s.calls[c], r, o) ==> t.calls[c] == s.calls[c]
    ensures HasOwner(t, r, o)
  {
    var c :| 0 <= c < |s.calls| && Awaits(s.calls[c], r, o);
    assert Awaits(t.calls[c], r, o);
  }

  lemma {:induction false} SuccessStays(s: Service, t: Service, r: string)
    requires HasSuccess(s, r) && |s.ops| <= |t.ops|
    requires forall o :: 0 <= o < |s.ops| && s.ops[o].phase == Succeeded ==> t.ops[o] == s.ops[o]
    ensures HasSuccess(t, r)
  {
    var o :| 0 <= o < |s.ops| && s.ops[o].request == r && s.ops[o].phase == Succeeded;
    assert t.ops[o].phase == Succeeded;
  }

  /** Only the phase and the session of operation `o` change, and it was running. */
  ghost predicate Moved(s: Service, t: Service, o: nat) {
    o < |s.ops| && t.calls == s.calls && t.inFlight == s.inFlight && |t.ops| == |s.ops| && s.sessions <= t.sessions &&
    t.ops[o].request == s.ops[o].request && t.ops[o].fingerprint == s.ops[o].fingerprint && Running(s.ops[o].phase) &&
    forall q :: 0 <= q < |s.ops| && q != o ==> t.ops[q] == s.ops[q]
  }

  /** An operation moves on, and what is cached does not change. */
  lemma {:induction false} MoveKeepsInv(s: Service, t: Service, o: nat)
    requires Inv(s) && Moved(s, t, o) && t.results == s.results && OpInv(t, o)
    ensures Inv(t)
  {
    forall q | 0 <= q < |t.ops| ensures OpInv(t, q) { assert OpInv(s, q); }
    forall c | 0 <= c < |t.calls| ensures CallInv(t, c) { assert CallInv(s, c); }
    forall k | k in t.inFlight ensures FlightInv(t, k) { assert FlightInv(s, k); }
    forall k | k in t.results ensures HasSuccess(t, k) { SuccessStays(s, t, k); }
  }

  lemma {:induction false} CacheKeepsOp(s: Service, o: nat, q: nat)
    requires Inv(s) && Enabled(s, Viewed(o, true)) && q < |s.ops|
    ensures OpInv(Next(s, Viewed(o, true)), q)
  {
    assert OpInv(s, o) && OpInv(s, q);
  }

  lemma {:induction false} CacheKeepsCall(s: Service, o: nat, c: nat)
    requires Inv(s) && Enabled(s, Viewed(o, true)) && c < |s.calls|
    ensures CallInv(Next(s, Viewed(o, true)), c)
  {
    assert OpInv(s, o) && CallInv(s, c);
  }

  /** An operation succeeds and its result is cached. */
  lemma {:induction false} CacheKeepsInv(s: Service, o: nat)
    requires Inv(s) && Enabled(s, Viewed(o, true))
    ensures Inv(Next(s, Viewed(o, true)))
  {
    var t, r := Next(s, Viewed(o, true)), s.ops[o].request;
    assert Moved(s, t, o) && OpInv(s, o);
    forall q | 0 <= q < |t.ops| ensures OpInv(t, q) { CacheKeepsOp(s, o, q); }
    forall c | 0 <= c < |t.calls| ensures CallInv(t, c) { CacheKeepsCall(s, o, c); }
    assert OneLive(t);
    hide OpInv, CallInv, OneLive;
    forall k | k in t.inFlight ensures FlightInv(t, k) { assert FlightInv(s, k); }
    forall k | k in t.results ensures HasSuccess(t, k) {
      if k in s.results { SuccessStays(s, t, k); } else { assert t.ops[o].phase == Succeeded; }
    }
  }

  lemma {:induction false} OpKeepsInv(s: Service, step: Step, o: nat)
    requires Inv(s) && Enabled(s, step) && (step.Validated? || step.Created? || step.Viewed?) && step.op == o
    ensures Inv(Next(s, step))
  {
    if step == Viewed(o, true) {
      CacheKeepsInv(s, o);
    } else {
      assert OpInv(s, o);
      MovesOnly(s, step, o);
      hide Inv;
      MoveKeepsInv(s, Next(s, step), o);
    }
  }

  lemma {:induction false} MovesOnly(s: Service, step: Step, o: nat)
    requires Enabled(s, step) && (step.Validated? || step.Created? || step.Viewed?) && step.op == o && step != Viewed(o, true)
    requires OpInv(s, o)
    ensures var t := Next(s, step); Moved(s, t, o) && t.results == s.results && OpInv(t, o)
  {
  }

  lemma {:induction false} ResumeKeepsInv(s: Service, c: nat)
    requires Inv(s) && Enabled(s, Resume(c))
    ensures Inv(Next(s, Resume(c)))
  {
    var s', call := Next(s, Resume(c)), s.calls[c];
    assert CallInv(s, c) && OpInv(s, call.op.value);
    forall o | 0 <= o < |s.ops| ensures OpInv(s', o) { assert OpInv(s, o); }
    forall d | 0 <= d < |s.calls| ensures CallInv(s', d) {
      assert CallInv(s, d);
      if d != c && call.owner && s.calls[d].owner && s.calls[d].reply == None { assert s.calls[c].op != s.calls[d].op; }
    }
    forall r | r in s'.inFlight ensures FlightInv(s', r) {
      assert FlightInv(s, r);
      OwnerStays(s, s', r, s.inFlight[r].op);
    }
    forall r | r in s'.results ensures HasSuccess(s', r) { SuccessStays(s, s', r); }
  }

  lemma {:induction false} RunKeepsInv(s: Service, steps: seq<Step>, t: Service)
    requires Inv(s) && IsRun(s, steps, t)
    ensures Inv(t)
    decreases |steps|
  {
    if steps != [] {
      match steps[0] {
        case Request(r, f) => StartKeepsInv(s, r, f);
        case Validated(o, _) => OpKeepsInv(s, steps[0], o);
        case Created(o, _) => OpKeepsInv(s, steps[0], o);
        case Viewed(o, _) => OpKeepsInv(s, steps[0], o);
        case Resume(c) => ResumeKeepsInv(s, c);
      }
      RunKeepsInv(Next(s, steps[0]), steps[1..], t);
    }
  }

  // ---------------------------------------------------------------- what callers may rely on

  /** The creation of a request never overlaps itself, and none runs once one has succeeded. */
  lemma {:induction false} NoOverlap(steps: seq<Step>, t: Service, a: nat, b: nat)
    requires IsRun(Initial, steps, t) && a < |t.ops| && b < |t.ops| && t.ops[a].request == t.ops[b].request
    requires Running(t.ops[a].phase)
    ensures Running(t.ops[b].phase) ==> a == b
    ensures t.ops[b].phase != Succeeded && t.ops[a].request !in t.results
  {
    RunKeepsInv(Initial, steps, t);
    assert OpInv(t, a) && OpInv(t, b);
  }

  /** Of all calls of a request at most one reply is not marked replayed, and every reply that
      carries a session carries the same one, under the same fingerprint. */
  lemma {:induction false} OneCreation(steps: seq<Step>, t: Service, a: nat, b: nat)
    requires IsRun(Initial, steps, t) && a < |t.calls| && b < |t.calls| && t.calls[a].request == t.calls[b].request
    requires t.calls[a].reply.Some? && t.calls[a].reply.value.Replied? && t.calls[b].reply.Some? && t.calls[b].reply.value.Replied?
    ensures t.calls[a].reply.value.session == t.calls[b].reply.value.session
    ensures t.calls[a].fingerprint == t.calls[b].fingerprint
    ensures !t.calls[a].reply.value.replayed && !t.calls[b].reply.value.replayed ==> a == b
  {
    RunKeepsInv(Initial, steps, t);
    assert CallInv(t, a) && CallInv(t, b);
    if !t.calls[a].reply.value.replayed && !t.calls[b].reply.value.replayed {
      assert t.calls[a].op.value == t.calls[b].op.value;
    }
  }

  /** What a call is replied, in any run. One that awaited an operation gets the session of the operation
      if that succeeded, marked as replayed unless the call started it, and otherwise a failure, if the
      operation broke. One that awaited none gets the cached session of its fingerprint, marked as
      replayed, or a refusal. */
  lemma {:induction false} ReplyExact(steps: seq<Step>, t: Service, c: nat)
    requires IsRun(Initial, steps, t) && c < |t.calls| && t.calls[c].reply.Some?
    ensures var call := t.calls[c]; var reply := call.reply.value;
      (call.op.Some? ==> call.op.value < |t.ops| && var o := t.ops[call.op.value];
         o.request == call.request && o.fingerprint == call.fingerprint &&
         (forall s: nat, b :: reply == Replied(s, b) <==> o.phase == Succeeded && o.session == Some(s) && b == !call.owner) &&
         (reply == Failed <==> o.phase == Broken)) &&
      (call.op == None && reply != Refused ==>
         call.request in t.results && t.results[call.request].fingerprint == call.fingerprint &&
         reply == Replied(t.results[call.request].session, true))
  {
    RunReplies(Initial, steps, t);
    RunKeepsInv(Initial, steps, t);
    assert CallInv(t, c) && ReplyInv(t, c);
    if t.calls[c].op.Some? { assert OpInv(t, t.calls[c].op.value); }
  }

  /** The reply is the outcome of the operation the call awaited. */
  ghost predicate ReplyInv(s: Service, c: nat)
    requires c < |s.calls|
  {
    var call := s.calls[c];
    call.reply.Some? ==>
      if call.op == None then call.reply.value == Refused || (call.reply.value.Replied? && call.reply.value.replayed)
      else call.op.value < |s.ops| && var o := s.ops[call.op.value];
        !Running(o.phase) &&
        call.reply.value == if o.phase == Succeeded && o.session.Some? then Replied(o.session.value, !call.owner) else Failed
  }

  lemma {:induction false} NextReplies(s: Service, step: Step)
    requires Enabled(s, step) && forall c :: 0 <= c < |s.calls| ==> ReplyInv(s, c)
    ensures forall c :: 0 <= c < |Next(s, step).calls| ==> ReplyInv(Next(s, step), c)
  {
    var t := Next(s, step);
    forall c | 0 <= c < |t.calls| ensures ReplyInv(t, c) {
      if c < |s.calls| { assert ReplyInv(s, c); }
    }
  }

  lemma {:induction false} RunReplies(s: Service, steps: seq<Step>, t: Service)
    requires IsRun(s, steps, t) && forall c :: 0 <= c < |s.calls| ==> ReplyInv(s, c)
    ensures forall c :: 0 <= c < |t.calls| ==> ReplyInv(t, c)
    decreases |steps|
  {
    hide Next, Enabled, ReplyInv;
    if steps != [] {
      NextReplies(s, steps[0]);
      RunReplies(Next(s, steps[0]), steps[1..], t);
    }
  }

  /** A call that finds a result under its fingerprint is answered with it at once. */
  lemma {:induction false} ResultAnswers(t: Service, r: string, fingerprint: string)
    requires r in t.results
    ensures Start(t, r, fingerprint).calls ==
      t.calls + [Call(r, fingerprint, None, false,
                      Some(if t.results[r].fingerprint == fingerprint then Replied(t.results[r].session, true) else Refused))]
  {
  }

  /** A call goes on without ever changing what it asked, whom it awaits or what it was replied, and
      one that was let through is never refused later. */
  ghost predicate CallGoesOn(a: Call, b: Call) {
    b.request == a.request && b.fingerprint == a.fingerprint && b.op == a.op && b.owner == a.owner &&
    (a.reply.Some? ==> b.reply == a.reply) && (a.reply == None ==> b.reply != Some(Refused))
  }

  lemma {:induction false} NextGoesOn(s: Service, step: Step, c: nat)
    requires Enabled(s, step) && c < |s.calls|
    ensures c < |Next(s, step).calls| && CallGoesOn(s.calls[c], Next(s, step).calls[c])
  {
  }

  lemma {:induction false} RunGoesOn(s: Service, steps: seq<Step>, t: Service, c: nat)
    requires IsRun(s, steps, t) && c < |s.calls|
    ensures c < |t.calls| && CallGoesOn(s.calls[c], t.calls[c])
    decreases |steps|
  {
    hide Next, Enabled;
    if steps != [] {
      NextGoesOn(s, steps[0], c);
      RunGoesOn(Next(s, steps[0]), steps[1..], t, c);
    }
  }

  /** A call that belongs to what its request has on record: it got the cached session or will get
      it, or it waits for the operation in flight. */
  predicate Belongs(t: Service, a: Call) {
    if a.request in t.results
    then (a.reply.Some? && a.reply.value.Replied?) ||
         (a.op.Some? && a.op.value < |t.ops| && t.ops[a.op.value].phase == Succeeded)
    else a.request in t.inFlight && a.op == Some(t.inFlight[a.request].op)
  }

  predicate Starter(call: Call, r: string, o: nat) { call.owner && call.request == r && call.op == Some(o) }

  ghost predicate Started(s: Service, o: nat)
    requires o < |s.ops|
  {
    exists c :: 0 <= c < |s.calls| && Starter(s.calls[c], s.ops[o].request, o)
  }

  lemma {:induction false} NextStarted(s: Service, step: Step)
    requires Enabled(s, step) && forall o :: 0 <= o < |s.ops| ==> Started(s, o)
    ensures forall o :: 0 <= o < |Next(s, step).ops| ==> Started(Next(s, step), o)
  {
    var t := Next(s, step);
    forall o | 0 <= o < |t.ops| ensures Started(t, o) {
      if o < |s.ops| {
        assert Started(s, o);
        var c :| 0 <= c < |s.calls| && Starter(s.calls[c], s.ops[o].request, o);
        assert Starter(t.calls[c], t.ops[o].request, o);
      } else {
        assert Starter(t.calls[|s.calls|], t.ops[o].request, o);
      }
    }
  }

  lemma {:induction false} RunStarted(s: Service, steps: seq<Step>, t: Service)
    requires IsRun(s, steps, t) && forall o :: 0 <= o < |s.ops| ==> Started(s, o)
    ensures forall o :: 0 <= o < |t.ops| ==> Started(t, o)
    decreases |steps|
  {
    hide Next, Enabled, Started;
    if steps != [] {
      NextStarted(s, steps[0]);
      RunStarted(Next(s, steps[0]), steps[1..], t);
    }
  }

  /** In any run, whatever a request has on record, some call belongs to it. */
  lemma {:induction false} RecordHasCall(steps: seq<Step>, t: Service, r: string)
    requires IsRun(Initial, steps, t)
    ensures r in t.results || r in t.inFlight <==> exists a :: 0 <= a < |t.calls| && t.calls[a].request == r && Belongs(t, t.calls[a])
  {
    RunKeepsInv(Initial, steps, t);
    RunStarted(Initial, steps, t);
    if r in t.results {
      assert HasSuccess(t, r);
      var o :| 0 <= o < |t.ops| && t.ops[o].request == r && t.ops[o].phase == Succeeded;
      assert Started(t, o);
      var a :| 0 <= a < |t.calls| && Starter(t.calls[a], r, o);
      assert Belongs(t, t.calls[a]);
    } else if r in t.inFlight {
      assert FlightInv(t, r);
      var a :| 0 <= a < |t.calls| && Awaits(t.calls[a], r, t.inFlight[r].op);
      assert Belongs(t, t.calls[a]);
    }
  }

  /** What is on record carries the fingerprint of every call that belongs to it. */
  lemma {:induction false} RecordedFingerprint(t: Service, a: nat)
    requires Inv(t) && a < |t.calls| && Belongs(t, t.calls[a])
    ensures var r := t.calls[a].request;
      t.calls[a].fingerprint == if r in t.results then t.results[r].fingerprint else t.inFlight[r].fingerprint
  {
    assert CallInv(t, a);
    if t.calls[a].request in t.results {
      if t.calls[a].op.Some? { assert OpInv(t, t.calls[a].op.value); }
    } else {
      assert FlightInv(t, t.calls[a].request);
    }
  }

  /** In any run: a call that arrives while its request has something on record is refused, at once or
      ever, if and only if its fingerprint differs from that of a call that belongs to the record; and
      it starts no operation of its own. */
  lemma {:induction false} RefusedExactly(before: seq<Step>, t: Service, a: nat, fingerprint: string, more: seq<Step>, u: Service)
    requires IsRun(Initial, before, t) && a < |t.calls| && Belongs(t, t.calls[a])
    requires IsRun(Start(t, t.calls[a].request, fingerprint), more, u)
    ensures |t.calls| < |u.calls| && (u.calls[|t.calls|].reply == Some(Refused) <==> fingerprint != t.calls[a].fingerprint)
    ensures Start(t, t.calls[a].request, fingerprint).ops == t.ops
  {
    RunKeepsInv(Initial, before, t);
    RecordedFingerprint(t, a);
    RunGoesOn(Start(t, t.calls[a].request, fingerprint), more, u, |t.calls|);
  }

  /** Calls that wait for the same operation made the same request with the same fingerprint, and when
      it succeeded they all got, or will get, its session. */
  lemma {:induction false} SharedOperation(steps: seq<Step>, t: Service, a: nat, b: nat)
    requires IsRun(Initial, steps, t) && a < |t.calls| && b < |t.calls| && t.calls[a].op.Some? && t.calls[a].op == t.calls[b].op
    ensures t.calls[a].request == t.calls[b].request && t.calls[a].fingerprint == t.calls[b].fingerprint
    ensures t.calls[a].owner && t.calls[b].owner ==> a == b
    ensures t.calls[a].op.value < |t.ops| && t.ops[t.calls[a].op.value].phase == Succeeded ==>
      t.calls[a].request in t.results && t.results[t.calls[a].request].fingerprint == t.calls[a].fingerprint &&
      t.ops[t.calls[a].op.value].session == Some(t.results[t.calls[a].request].session)
  {
    RunKeepsInv(Initial, steps, t);
    assert CallInv(t, a) && CallInv(t, b);
    assert OpInv(t, t.calls[a].op.value);
  }

  /** All operations of request `r` that created a session broke afterwards. */
  ghost predicate AllBroken(t: Service, r: string) {
    forall o :: 0 <= o < |t.ops| && t.ops[o].request == r && t.ops[o].session.Some? ==> t.ops[o].phase == Broken
  }

  /** With a session created and nothing in flight, asking again opens another operation exactly if
      there is no result, which is exactly if every operation that created a session broke after it. */
  lemma {:induction false} ReopensExactly(steps: seq<Step>, t: Service, r: string, fingerprint: string)
    requires IsRun(Initial, steps, t) && r !in t.inFlight
    ensures |Start(t, r, fingerprint).ops| > |t.ops| <==> r !in t.results
    ensures r !in t.results <==> AllBroken(t, r)
  {
    RunKeepsInv(Initial, steps, t);
    if r in t.results {
      assert HasSuccess(t, r);
      var o :| 0 <= o < |t.ops| && t.ops[o].request == r && t.ops[o].phase == Succeeded;
      assert OpInv(t, o);
    } else {
      forall o | 0 <= o < |t.ops| && t.ops[o].request == r && t.ops[o].session.Some? ensures t.ops[o].phase == Broken {
        assert OpInv(t, o);
      }
    }
  }

  /** After operation `a` a later one of its request created a session, too. */
  ghost predicate SecondAfter(u: Service, r: string, a: nat) {
    exists b :: a < b < |u.ops| && u.ops[b].request == r && u.ops[b].session.Some?
  }

  ghost predicate SecondFollows(t: Service, more: seq<Step>, u: Service, a: nat)
    requires a < |t.ops|
  {
    IsRun(t, more, u) && SecondAfter(u, t.ops[a].request, a)
  }

  /** An operation keeps its request, and one that succeeded stays as it is. */
  ghost predicate OpGoesOn(a: Operation, b: Operation) {
    b.request == a.request && (a.phase == Succeeded ==> b == a)
  }

  lemma {:induction false} OpsGoOn(s: Service, steps: seq<Step>, t: Service, o: nat)
    requires IsRun(s, steps, t) && o < |s.ops|
    ensures o < |t.ops| && OpGoesOn(s.ops[o], t.ops[o])
    decreases |steps|
  {
    if steps != [] {
      assert o < |Next(s, steps[0]).ops| && OpGoesOn(s.ops[o], Next(s, steps[0]).ops[o]);
      hide Next, Enabled;
      OpsGoOn(Next(s, steps[0]), steps[1..], t, o);
    }
  }

  lemma {:induction false} OneStep(s: Service, step: Step) returns (steps: seq<Step>)
    requires Enabled(s, step)
    ensures IsRun(s, steps, Next(s, step))
  {
    hide Enabled, Next;
    steps := [step];
    assert steps[1..] == [];
    assert IsRun(Next(s, step), [], Next(s, step));
  }

  /** An operation that has not created its session yet may go on and create it. */
  lemma {:induction false} GoesOnToCreate(t: Service, o: nat) returns (steps: seq<Step>, u: Service)
    requires o < |t.ops| && (t.ops[o].phase == Validating || t.ops[o].phase == Creating)
    ensures IsRun(t, steps, u) && o < |u.ops| && u.ops[o].request == t.ops[o].request && u.ops[o].session.Some?
  {
    if t.ops[o].phase == Creating {
      steps := OneStep(t, Created(o, true));
      u := Next(t, Created(o, true));
    } else {
      var m := Next(t, Validated(o, true));
      var first := OneStep(t, Validated(o, true));
      var last := OneStep(m, Created(o, true));
      u := Next(m, Created(o, true));
      RunsJoin(t, first, m, last, u);
      steps := first + last;
    }
  }

  /** With nothing on record a request opens an operation that may create a session. */
  lemma {:induction false} AskedAgain(t: Service, r: string) returns (steps: seq<Step>, u: Service)
    requires r !in t.results && r !in t.inFlight
    ensures IsRun(t, steps, u) && |t.ops| < |u.ops| && u.ops[|t.ops|].request == r && u.ops[|t.ops|].session.Some?
  {
    var m := Next(t, Request(r, ""));
    var first := OneStep(t, Request(r, ""));
    var more;
    more, u := GoesOnToCreate(m, |t.ops|);
    RunsJoin(t, first, m, more, u);
    steps := first + more;
  }

  /** A broken operation leaves the table when its starter resumes. */
  lemma {:induction false} LeavesTable(t: Service, r: string) returns (steps: seq<Step>, u: Service)
    requires Inv(t) && r in t.inFlight && t.inFlight[r].op < |t.ops| && !Running(t.ops[t.inFlight[r].op].phase)
    ensures IsRun(t, steps, u) && u.ops == t.ops && u.results == t.results && r !in u.inFlight
  {
    assert FlightInv(t, r);
    var c :| 0 <= c < |t.calls| && Awaits(t.calls[c], r, t.inFlight[r].op);
    hide Inv, FlightInv;
    steps := OneStep(t, Resume(c));
    u := Next(t, Resume(c));
  }

  /** After an operation broke with its session created, a second one can follow from any state. */
  lemma {:induction false} BrokenFollowed(t: Service, a: nat) returns (more: seq<Step>, u: Service)
    requires Inv(t) && a < |t.ops| && t.ops[a].phase == Broken
    ensures SecondFollows(t, more, u, a)
  {
    var r := t.ops[a].request;
    if r in t.results {
      assert HasSuccess(t, r);
      var o :| 0 <= o < |t.ops| && t.ops[o].request == r && t.ops[o].phase == Succeeded;
      assert OpInv(t, o);
      more, u := [], t;
      assert a < o && u.ops[o].session.Some?;
    } else if r !in t.inFlight {
      more, u := AskedAgain(t, r);
    } else {
      var o := t.inFlight[r].op;
      assert FlightInv(t, r) && OpInv(t, o);
      assert a <= o;
      if Running(t.ops[o].phase) {
        if t.ops[o].phase == Viewing { more, u := [], t; } else { more, u := GoesOnToCreate(t, o); }
        assert a < o && u.ops[o].session.Some?;
      } else {
        var first, m := LeavesTable(t, r);
        var last;
        last, u := AskedAgain(m, r);
        hide Inv, FlightInv, OpInv;
        RunsJoin(t, first, m, last, u);
        more := first + last;
      }
    }
  }

  /** In any state of any run, a request whose operation `a` created a session can get a second one
      if and only if `a` broke, or is still being described, which may fail. */
  lemma {:induction false} SecondSession(steps: seq<Step>, t: Service, a: nat)
    requires IsRun(Initial, steps, t) && a < |t.ops| && t.ops[a].session.Some?
    ensures (exists more, u :: SecondFollows(t, more, u, a)) <==> t.ops[a].phase == Broken || t.ops[a].phase == Viewing
  {
    RunKeepsInv(Initial, steps, t);
    assert OpInv(t, a);
    hide Inv;
    if t.ops[a].phase == Broken {
      var more, u := BrokenFollowed(t, a);
    } else if t.ops[a].phase == Viewing {
      var more, u := ViewingFollowed(t, a);
    } else if more, u :| SecondFollows(t, more, u, a) {
      SucceededIsLast(t, more, u, a);
    }
  }

  /** Describing the session fails, and then a second one can follow. */
  lemma {:induction false} ViewingFollowed(t: Service, a: nat) returns (more: seq<Step>, u: Service)
    requires Inv(t) && a < |t.ops| && t.ops[a].phase == Viewing && t.ops[a].session.Some?
    ensures SecondFollows(t, more, u, a)
  {
    var m := Next(t, Viewed(a, false));
    OpKeepsInv(t, Viewed(a, false), a);
    hide Inv;
    var first := OneStep(t, Viewed(a, false));
    var last;
    last, u := BrokenFollowed(m, a);
    RunsJoin(t, first, m, last, u);
    more := first + last;
  }

  lemma {:induction false} SucceededIsLast(t: Service, more: seq<Step>, u: Service, a: nat)
    requires Inv(t) && a < |t.ops| && t.ops[a].phase == Succeeded && IsRun(t, more, u)
    ensures !SecondAfter(u, t.ops[a].request, a)
  {
    RunKeepsInv(t, more, u);
    OpsGoOn(t, more, u, a);
  }

  /** That does happen: describing the new session fails, the caller asks again, and a second
      session is created for the same request. */
  lemma {:induction false} BrokenViewCreatesTwice(request: string, fingerprint: string)
    ensures exists steps, t :: IsRun(Initial, steps, t) && t.sessions == 2 &&
              t.calls == [Call(request, fingerprint, Some(0), true, Some(Failed)),
                          Call(request, fingerprint, Some(1), true, Some(Replied(1, false)))]
  {
    var half := [Request(request, fingerprint), Validated(0, true), Created(0, true), Viewed(0, false), Resume(0)];
    var rest := [Request(request, fingerprint), Validated(1, true), Created(1, true), Viewed(1, true), Resume(1)];
    FirstCreation(request, fingerprint);
    SecondCreation(request, fingerprint);
    RunsJoin(Initial, half, AfterBroken(request, fingerprint), rest, AfterSecond(request, fingerprint));
  }

  function AfterBroken(request: string, fingerprint: string): Service {
    Service(map[], map[], [Operation(request, fingerprint, Broken, Some(0))],
            [Call(request, fingerprint, Some(0), true, Some(Failed))], 1)
  }

  function AfterSecond(request: string, fingerprint: string): Service {
    Service(map[request := Cached(fingerprint, 1)], map[],
            [Operation(request, fingerprint, Broken, Some(0)), Operation(request, fingerprint, Succeeded, Some(1))],
            [Call(request, fingerprint, Some(0), true, Some(Failed)),
             Call(request, fingerprint, Some(1), true, Some(Replied(1, false)))], 2)
  }

  ghost predicate Leads(s: Service, step: Step, t: Service) { Enabled(s, step) && Next(s, step) == t }

  /** The five steps of a creation. */
  lemma {:induction false} FiveSteps(s: seq<Service>, step: seq<Step>)
    requires |s| == 6 && |step| == 5
    requires forall i :: 0 <= i < 5 ==> Leads(s[i], step[i], s[i + 1])
    ensures IsRun(s[0], step, s[5])
  {
    hide Leads;
    assert IsRun(s[5], step[5..], s[5]);
    StepBack(s, step, 4);
    StepBack(s, step, 3);
    StepBack(s, step, 2);
    StepBack(s, step, 1);
    StepBack(s, step, 0);
    assert step[0..] == step;
  }

  lemma {:induction false} StepBack(s: seq<Service>, step: seq<Step>, i: nat)
    requires |s| == 6 && |step| == 5 && i < 5
    requires Leads(s[i], step[i], s[i + 1]) && IsRun(s[i + 1], step[i + 1..], s[5])
    ensures IsRun(s[i], step[i..], s[5])
  {
    hide Enabled, Next;
    assert step[i..][1..] == step[i + 1..];
  }

  lemma {:induction false} RunsJoin(s: Service, steps: seq<Step>, t: Service, more: seq<Step>, u: Service)
    requires IsRun(s, steps, t) && IsRun(t, more, u)
    ensures IsRun(s, steps + more, u)
    decreases |steps|
  {
    hide Enabled, Next;
    if steps == [] {
      assert steps + more == more;
    } else {
      RunsJoin(Next(s, steps[0]), steps[1..], t, more, u);
      assert (steps + more)[1..] == steps[1..] + more;
    }
  }

  lemma {:induction false} FirstCreation(request: string, fingerprint: string)
    ensures IsRun(Initial, [Request(request, fingerprint), Validated(0, true), Created(0, true), Viewed(0, false), Resume(0)],
                  AfterBroken(request, fingerprint))
  {
    var s := FirstStates(request, fingerprint);
    var step := [Request(request, fingerprint), Validated(0, true), Created(0, true), Viewed(0, false), Resume(0)];
    forall i | 0 <= i < 5 ensures Leads(s[i], step[i], s[i + 1]) {
      FirstSteps(request, fingerprint);
      hide FirstStates, Leads;
    }
    hide FirstStates, Leads, IsRun;
    FiveSteps(s, step);
    FirstEnds(request, fingerprint);
  }

  ghost function FirstStates(request: string, fingerprint: string): (s: seq<Service>)
    ensures |s| == 6
  {
    var flight := map[request := InFlight(fingerprint, 0)];
    var calls := [Call(request, fingerprint, Some(0), true, None)];
    [Initial,
     Service(map[], flight, [Operation(request, fingerprint, Validating, None)], calls, 0),
     Service(map[], flight, [Operation(request, fingerprint, Creating, None)], calls, 0),
     Service(map[], flight, [Operation(request, fingerprint, Viewing, Some(0))], calls, 1),
     Service(map[], flight, [Operation(request, fingerprint, Broken, Some(0))], calls, 1),
     AfterBroken(request, fingerprint)]
  }

  lemma {:induction false} FirstEnds(request: string, fingerprint: string)
    ensures FirstStates(request, fingerprint)[0] == Initial && FirstStates(request, fingerprint)[5] == AfterBroken(request, fingerprint)
  {
  }

  lemma {:induction false} FirstSteps(request: string, fingerprint: string)
    ensures var s := FirstStates(request, fingerprint);
      Leads(s[0], Request(request, fingerprint), s[1]) && Leads(s[1], Validated(0, true), s[2]) &&
      Leads(s[2], Created(0, true), s[3]) && Leads(s[3], Viewed(0, false), s[4]) && Leads(s[4], Resume(0), s[5])
  {
    assert map[request := InFlight(fingerprint, 0)] - {request} == map[];
  }

  lemma {:induction false} SecondCreation(request: string, fingerprint: string)
    ensures IsRun(AfterBroken(request, fingerprint),
                  [Request(request, fingerprint), Validated(1, true), Created(1, true), Viewed(1, true), Resume(1)],
                  AfterSecond(request, fingerprint))
  {
    var s := SecondStates(request, fingerprint);
    var step := [Request(request, fingerprint), Validated(1, true), Created(1, true), Viewed(1, true), Resume(1)];
    forall i | 0 <= i < 5 ensures Leads(s[i], step[i], s[i + 1]) {
      SecondSteps(request, fingerprint);
      hide SecondStates, Leads;
    }
    hide SecondStates, Leads, IsRun;
    FiveSteps(s, step);
    SecondEnds(request, fingerprint);
  }

  ghost function SecondStates(request: string, fingerprint: string): (s: seq<Service>)
    ensures |s| == 6
  {
    var broken := Operation(request, fingerprint, Broken, Some(0));
    var flight := map[request := InFlight(fingerprint, 1)];
    var calls := [Call(request, fingerprint, Some(0), true, Some(Failed)), Call(request, fingerprint, Some(1), true, None)];
    [AfterBroken(request, fingerprint),
     Service(map[], flight, [broken, Operation(request, fingerprint, Validating, None)], calls, 1),
     Service(map[], flight, [broken, Operation(request, fingerprint, Creating, None)], calls, 1),
     Service(map[], flight, [broken, Operation(request, fingerprint, Viewing, Some(1))], calls, 2),
     Service(map[request := Cached(fingerprint, 1)], flight, [broken, Operation(request, fingerprint, Succeeded, Some(1))], calls, 2),
     AfterSecond(request, fingerprint)]
  }

  lemma {:induction false} SecondEnds(request: string, fingerprint: string)
    ensures SecondStates(request, fingerprint)[0] == AfterBroken(request, fingerprint)
    ensures SecondStates(request, fingerprint)[5] == AfterSecond(request, fingerprint)
  {
  }

  lemma {:induction false} SecondSteps(request: string, fingerprint: string)
    ensures var s := SecondStates(request, fingerprint);
      Leads(s[0], Request(request, fingerprint), s[1]) && Leads(s[1], Validated(1, true), s[2]) &&
      Leads(s[2], Created(1, true), s[3]) && Leads(s[3], Viewed(1, true), s[4]) && Leads(s[4], Resume(1), s[5])
  {
    assert map[request := InFlight(fingerprint, 1)] - {request} == map[];
  }

  // ---------------------------------------------------------------- the tables

  /** The result table and the in-flight table, beside the operations and calls under way. */
  class RootRequests {
    var rootResults: map<string, Cached>
    var rootRequestsInFlight: map<string, InFlight>
    var ops: seq<Operation>
    var calls: seq<Call>
    var sessions: nat

    function View(): Service
      reads this
    {
      Service(rootResults, rootRequestsInFlight, ops, calls, sessions)
    }

    constructor ()
      ensures View() == Initial
    {
      rootResults, rootRequestsInFlight, ops, calls, sessions := map[], map[], [], [], 0;
    }

    method CreateRootSession(request: string, fingerprint: string)
      modifies this
      ensures View() == Next(old(View()), Request(request, fingerprint))
    {
      if request in rootResults {
        var cached := rootResults[request];
        var reply := if cached.fingerprint != fingerprint then Refused else Replied(cached.session, true);
        calls := calls + [Call(request, fingerprint, None, false, Some(reply))];
        return;
      }
      if request in rootRequestsInFlight {
        var inflight := rootRequestsInFlight[request];
        calls := calls + [if inflight.fingerprint != fingerprint then Call(request, fingerprint, None, false, Some(Refused))
                          else Call(request, fingerprint, Some(inflight.op), false, None)];
        return;
      }
      rootRequestsInFlight := rootRequestsInFlight[request := InFlight(fingerprint, |ops|)];
      calls := calls + [Call(request, fingerprint, Some(|ops|), true, None)];
      ops := ops + [Operation(request, fingerprint, Validating, None)];
    }

    /** The operation goes on after the step it awaited. */
    method Continue(step: Step)
      requires Enabled(View(), step) && (step.Validated? || step.Created? || step.Viewed?)
      modifies this
      ensures View() == Next(old(View()), step)
    {
      var op := ops[step.op];
      if !step.ok {
        ops := ops[step.op := op.(phase := Broken)];
      } else if step.Validated? {
        ops := ops[step.op := op.(phase := Creating)];
      } else if step.Created? {
        ops := ops[step.op := op.(phase := Viewing, session := Some(sessions))];
        sessions := sessions + 1;
      } else {
        ops := ops[step.op := op.(phase := Succeeded)];
        rootResults := rootResults[op.request := Cached(op.fingerprint, op.session.value)];
      }
    }

    /** The operation a call awaited is over: it replies, and its starter clears the table. */
    method Reply(call: nat)
      requires Enabled(View(), Resume(call))
      modifies this
      ensures View() == Next(old(View()), Resume(call))
    {
      var c := calls[call];
      calls := calls[call := c.(reply := Some(Outcome(ops[c.op.value], !c.owner)))];
      if c.owner { rootRequestsInFlight := rootRequestsInFlight - {c.request}; }
    }
  }
}
