/** The registry of tracked turns: which turn of a session is open, which client requests have been
    accepted, and which turns are kept. Each service call is one step. */
module TurnRegistry {
  import opened OrderedMap
  import opened Utf8
  import opened TurnOutput

  const MAX_TURNS := 200
  const MAX_RECORDS := 500

  datatype Prompt = Prompt(session: string, request: string, text: string)

  datatype Key = Key(session: string, request: string)

  /** The result stored for an accepted prompt, with the prompt it was given for. */
  datatype Receipt = Receipt(session: string, text: string, turn: string, version: nat, status: Status, delivered: bool)

  datatype Tracked = Tracked(turn: Turn, requests: map<string, Receipt>)

  /** `issued` holds every identifier handed out so far; identifiers do not repeat. */
  datatype State = State(turns: Ordered<string, Tracked>, open: map<string, string>,
                         records: Ordered<Key, string>, issued: set<string>)

  /** What handing the prompt to the session came to. */
  datatype Submission = Submitted(delivered: bool) | EnterUnconfirmed | SendFailed

  /** What the outside does during one call: whether the session gets ready, the capture for the
      refresh of an open turn, the identifier and first capture of a new one, the submission. */
  datatype World = World(ready: bool, seen: Option<Observation>, id: string, initial: Option<Text>, submission: Submission)

  datatype Error = DifferentPrompt | NotReady | NotSeen | AlreadyOpen | NotCaptured | NotSent | NotDelivered

  datatype Answer = Accepted(receipt: Receipt, replayed: bool) | Refused(error: Error)

  datatype Outcome = Outcome(state: State, answer: Answer, sent: bool)

  const Initial := State(Empty(), map[], Empty(), {})

  // ---------------------------------------------------------------- the calls

  function Replayed(t: Tracked, p: Prompt): Option<Answer> {
    if p.request !in t.requests then None
    else
      var r := t.requests[p.request];
      Some(if r.session == p.session && r.text == p.text then Accepted(r, true) else Refused(DifferentPrompt))
  }

  /** The answer found through the table of accepted requests. */
  function FromRecord(s: State, p: Prompt): Option<Answer> {
    var key := Key(p.session, p.request);
    if key in s.records.entries && s.records.entries[key] in s.turns.entries
    then Replayed(s.turns.entries[s.records.entries[key]], p)
    else None
  }

  predicate HasOpen(s: State, session: string) {
    session in s.open && s.open[session] in s.turns.entries
  }

  function RefreshedAt(s: State, id: string, o: Observation): State
    requires id in s.turns.entries
  {
    var t := s.turns.entries[id];
    var t' := Refreshed(t.turn, o);
    s.(turns := Put(s.turns, id, t.(turn := t')),
       open := if !Finished(t.turn.status) && Finished(t'.status) then s.open - {t.turn.session} else s.open)
  }

  function Sent(s: State, p: Prompt, w: World): Outcome {
    var found := FromRecord(s, p);
    if found.Some? then Outcome(s, found.value, false)
    else if !w.ready then Outcome(s, Refused(NotReady), false)
    else if !HasOpen(s, p.session) then Begun(s, p, w)
    else if w.seen == None then Outcome(s, Refused(NotSeen), false)
    else Continued(RefreshedAt(s, s.open[p.session], w.seen.value), s.open[p.session], p, w)
  }

  /** The session's open turn has just been refreshed. */
  function Continued(s: State, id: string, p: Prompt, w: World): Outcome
    requires id in s.turns.entries
  {
    var t := s.turns.entries[id];
    var found := Replayed(t, p);
    if found.Some? then Outcome(s, found.value, false)
    else if Finished(t.turn.status) then Begun(s.(open := s.open - {p.session}), p, w)
    else if t.turn.status != NeedsInput then Outcome(s, Refused(AlreadyOpen), false)
    else Handed(s, id, false, p, w.submission)
  }

  function Opening(s: State, p: Prompt, id: string, initial: Text): State {
    s.(turns := Put(s.turns, id, Tracked(Opened(id, p.session, initial), map[])),
       open := s.open[p.session := id], issued := s.issued + {id})
  }

  function Begun(s: State, p: Prompt, w: World): Outcome {
    if w.initial == None then Outcome(s, Refused(NotCaptured), false)
    else Handed(Opening(s, p, w.id, w.initial.value), w.id, true, p, w.submission)
  }

  function GivenBack(s: State, id: string, session: string): State {
    s.(turns := Drop(s.turns, id), open := s.open - {session})
  }

  function Handed(s: State, id: string, created: bool, p: Prompt, sub: Submission): Outcome
    requires id in s.turns.entries
  {
    var uncertain := s.turns.entries[id].turn.uncertain || sub.EnterUnconfirmed?;
    var delivered := sub.Submitted? && sub.delivered;
    if sub.SendFailed? then
      Outcome(if created then GivenBack(s, id, p.session) else s, Refused(NotSent), true)
    else if !delivered && created && !uncertain then
      Outcome(GivenBack(s, id, p.session), Refused(NotDelivered), true)
    else
      var t := Prompted(s.turns.entries[id].turn, uncertain);
      var r := Receipt(p.session, p.text, id, t.version, t.status, delivered);
      Outcome(Evicted(Recorded(s, id, t, p, r)), Accepted(r, false), true)
  }

  function Prompted(t: Turn, uncertain: bool): Turn {
    t.(uncertain := uncertain, status := if uncertain then Unknown else Working, version := t.version + 1)
  }

  function Recorded(s: State, id: string, t: Turn, p: Prompt, r: Receipt): State
    requires id in s.turns.entries
  {
    var requests := s.turns.entries[id].requests[p.request := r];
    s.(turns := Put(s.turns, id, Tracked(t, requests)),
       records := Trimmed(Put(s.records, Key(p.session, p.request), id)))
  }

  function Trimmed(m: Ordered<Key, string>): Ordered<Key, string> {
    if |m.order| > MAX_RECORDS then Drop(m, m.order[0]) else m
  }

  /** The first turn whose session has no open turn. */
  function FirstIdle(s: State, order: seq<string>): (r: Option<string>)
    ensures r.Some? ==> r.value in order && r.value in s.turns.entries && s.turns.entries[r.value].turn.session !in s.open
  {
    if order == [] then None
    else if order[0] in s.turns.entries && s.turns.entries[order[0]].turn.session !in s.open then Some(order[0])
    else FirstIdle(s, order[1..])
  }

  function Evicted(s: State): State {
    var idle := FirstIdle(s, s.turns.order);
    if |s.turns.order| > MAX_TURNS && idle.Some? then s.(turns := Drop(s.turns, idle.value)) else s
  }

  // ---------------------------------------------------------------- the invariant

  /** An unfinished turn is exactly the one its session has open. */
  ghost predicate TurnInv(s: State, id: string)
    requires id in s.turns.entries
  {
    var t := s.turns.entries[id];
    t.turn.id == id && id in s.issued &&
    (!Finished(t.turn.status) <==> t.turn.session in s.open && s.open[t.turn.session] == id) &&
    (t.turn.uncertain ==> t.turn.status != Working) && ReceiptsInv(t)
  }

  ghost predicate ReceiptsInv(t: Tracked) {
    forall q :: q in t.requests ==> ReceiptInv(t, t.requests[q])
  }

  ghost predicate ReceiptInv(t: Tracked, r: Receipt) {
    r.session == t.turn.session && r.turn == t.turn.id && r.version <= t.turn.version
  }

  ghost predicate OpenInv(s: State, session: string)
    requires session in s.open
  {
    s.open[session] in s.turns.entries && s.turns.entries[s.open[session]].turn.session == session
  }

  ghost predicate RecordInv(s: State, k: Key)
    requires k in s.records.entries
  {
    var id := s.records.entries[k];
    id in s.issued &&
    (id in s.turns.entries ==> s.turns.entries[id].turn.session == k.session && k.request in s.turns.entries[id].requests)
  }

  ghost predicate Inv(s: State) {
    Valid(s.turns) && Valid(s.records) && |s.records.order| <= MAX_RECORDS &&
    (forall id :: id in s.turns.entries ==> TurnInv(s, id)) &&
    (forall session :: session in s.open ==> OpenInv(s, session)) &&
    (forall k :: k in s.records.entries ==> RecordInv(s, k))
  }

  /** A session never has two unfinished turns. */
  lemma {:induction false} OneUnfinished(s: State, a: string, b: string)
    requires Inv(s) && a in s.turns.entries && b in s.turns.entries && BothUnfinished(s, a, b)
    ensures a == b
  {
    assert TurnInv(s, a) && TurnInv(s, b);
  }

  // ---------------------------------------------------------------- what a step may do to a turn

  /** `b` is `a` at a later time: a finished turn stays as it is, receipts stay, a turn that shows
      anything else to a reader has a higher version, and doubts end only by completing. */
  ghost predicate Later(a: Tracked, b: Tracked) {
    a.turn.id == b.turn.id && a.turn.session == b.turn.session && a.turn.version <= b.turn.version &&
    (Finished(a.turn.status) ==> a == b) &&
    (a.turn.version == b.turn.version ==> SameToReaders(a.turn, b.turn)) &&
    (a.turn.uncertain ==> b.turn.uncertain || b.turn.status == Completed) &&
    (forall q :: q in a.requests ==> q in b.requests && b.requests[q] == a.requests[q])
  }

  predicate SameToReaders(a: Turn, b: Turn) {
    a.status == b.status && a.output == b.output && a.generation == b.generation && a.base == b.base
  }

  /** Turns only move on, and an identifier that is gone does not come back. */
  ghost predicate Keeps(s: State, t: State) {
    s.issued <= t.issued &&
    (forall id :: id in s.turns.entries && id in t.turns.entries ==> Later(s.turns.entries[id], t.turns.entries[id])) &&
    (forall id :: id in t.turns.entries && id in s.issued ==> id in s.turns.entries)
  }

  lemma {:induction false} LaterTrans(a: Tracked, b: Tracked, c: Tracked)
    requires Later(a, b) && Later(b, c)
    ensures Later(a, c)
  {
  }

  lemma {:induction false} LaterRefl(a: Tracked)
    ensures Later(a, a)
  {
  }

  lemma {:induction false} RefreshLater(t: Turn, o: Observation)
    ensures var t' := Refreshed(t, o);
      t'.id == t.id && t'.session == t.session && t.version <= t'.version &&
      (Finished(t.status) ==> t' == t) && (t.version == t'.version ==> SameToReaders(t, t')) &&
      (t.version < t'.version <==> !Finished(t.status) && Changes(t, o)) &&
      (t.uncertain ==> t'.uncertain || t'.status == Completed) &&
      ((t.uncertain ==> t.status != Working) ==> (t'.uncertain ==> t'.status != Working))
  {
    EndsOnEvidence(t, o);
    hide OutputSince, DecodeFrom, ByteLength, NextStatus, StillUncertain, NewGeneration;
  }

  lemma {:induction false} KeepsTrans(s: State, t: State, u: State)
    requires Keeps(s, t) && Keeps(t, u)
    requires forall id :: id in s.turns.entries ==> id in s.issued
    ensures Keeps(s, u)
  {
    hide Later;
    forall id | id in s.turns.entries && id in u.turns.entries ensures Later(s.turns.entries[id], u.turns.entries[id]) {
      assert id in t.turns.entries;
      LaterTrans(s.turns.entries[id], t.turns.entries[id], u.turns.entries[id]);
    }
  }

  lemma {:induction false} KeepsRefl(s: State)
    ensures Keeps(s, s)
  {
  }

  // ---------------------------------------------------------------- each part keeps the invariant

  /** The turn takes a later form; when it finishes it is closed. */
  ghost function Replaced(s: State, id: string, b: Tracked): State
    requires id in s.turns.entries
  {
    var a := s.turns.entries[id].turn;
    s.(turns := Put(s.turns, id, b),
       open := if !Finished(a.status) && Finished(b.turn.status) then s.open - {a.session} else s.open)
  }

  lemma {:induction false} ReplacedKeeps(s: State, id: string, b: Tracked)
    requires Inv(s) && id in s.turns.entries && Later(s.turns.entries[id], b)
    requires ReceiptsInv(b) && (b.turn.uncertain ==> b.turn.status != Working)
    ensures Inv(Replaced(s, id, b)) && Keeps(s, Replaced(s, id, b))
  {
    hide Valid, ReceiptsInv;
    forall x | x in s.turns.entries ensures Later(s.turns.entries[x], s.turns.entries[x]) { LaterRefl(s.turns.entries[x]); }
    var s' := Replaced(s, id, b);
    PutValid(s.turns, id, b);
    assert TurnInv(s, id);
    forall x | x in s'.turns.entries ensures TurnInv(s', x) { assert TurnInv(s, x); }
    forall k | k in s'.open ensures OpenInv(s', k) { assert OpenInv(s, k); }
    forall k | k in s'.records.entries ensures RecordInv(s', k) { assert RecordInv(s, k); }
  }

  lemma {:induction false} RefreshKeeps(s: State, id: string, o: Observation)
    requires Inv(s) && id in s.turns.entries
    ensures Inv(RefreshedAt(s, id, o)) && Keeps(s, RefreshedAt(s, id, o))
  {
    hide Refreshed, Valid;
    var t := s.turns.entries[id];
    RefreshLater(t.turn, o);
    assert TurnInv(s, id);
    hide Inv;
    ReplacedKeeps(s, id, t.(turn := Refreshed(t.turn, o)));
  }

  lemma {:induction false} OpeningKeeps(s: State, p: Prompt, id: string, initial: Text)
    requires Inv(s) && p.session !in s.open && id !in s.issued
    ensures Inv(Opening(s, p, id, initial)) && Keeps(s, Opening(s, p, id, initial))
  {
    var t := Tracked(Opened(id, p.session, initial), map[]);
    assert ReceiptsInv(t);
    AddedKeeps(s, p.session, id, t);
  }

  lemma {:induction false} AddedKeeps(s: State, session: string, id: string, t: Tracked)
    requires Inv(s) && session !in s.open && id !in s.issued
    requires t.turn.id == id && t.turn.session == session && !Finished(t.turn.status) && !t.turn.uncertain && ReceiptsInv(t)
    ensures var s' := s.(turns := Put(s.turns, id, t), open := s.open[session := id], issued := s.issued + {id}); Inv(s') && Keeps(s, s')
  {
    hide Valid, ReceiptsInv, Finished, Later;
    var s' := s.(turns := Put(s.turns, id, t), open := s.open[session := id], issued := s.issued + {id});
    PutValid(s.turns, id, t);
    forall x | x in s.turns.entries ensures x != id && Later(s.turns.entries[x], s'.turns.entries[x]) {
      assert TurnInv(s, x);
      LaterRefl(s.turns.entries[x]);
    }
    forall x | x in s'.turns.entries ensures TurnInv(s', x) { if x != id { assert TurnInv(s, x); } }
    forall k | k in s'.open ensures OpenInv(s', k) { if k != session { assert OpenInv(s, k); } }
    forall k | k in s'.records.entries ensures RecordInv(s', k) { assert RecordInv(s, k); }
  }

  /** A turn created for a prompt that was not delivered leaves no trace but its identifier. */
  lemma {:induction false} DroppedAgain(s: State, p: Prompt, id: string, initial: Text)
    requires Inv(s) && p.session !in s.open && id !in s.issued
    ensures GivenBack(Opening(s, p, id, initial), id, p.session) == s.(issued := s.issued + {id})
  {
    forall x | x in s.turns.entries ensures x != id { assert TurnInv(s, x); }
    PutDrop(s.turns, id, Tracked(Opened(id, p.session, initial), map[]));
    assert s.open[p.session := id] - {p.session} == s.open;
  }

  lemma {:induction false} IssuedKeeps(s: State, id: string)
    requires Inv(s) && id !in s.issued
    ensures Inv(s.(issued := s.issued + {id})) && Keeps(s, s.(issued := s.issued + {id}))
  {
    hide Valid, ReceiptsInv;
    var s' := s.(issued := s.issued + {id});
    forall x | x in s'.turns.entries ensures TurnInv(s', x) { assert TurnInv(s, x); }
    forall k | k in s'.open ensures OpenInv(s', k) { assert OpenInv(s, k); }
    forall k | k in s'.records.entries ensures RecordInv(s', k) { assert RecordInv(s, k); }
  }

  lemma {:induction false} TrimmedValid(m: Ordered<Key, string>)
    requires Valid(m) && |m.order| <= MAX_RECORDS + 1
    ensures Valid(Trimmed(m)) && |Trimmed(m).order| <= MAX_RECORDS
    ensures forall k :: k in Trimmed(m).entries ==> k in m.entries && Trimmed(m).entries[k] == m.entries[k]
  {
    if |m.order| > MAX_RECORDS {
      DropValid(m, m.order[0]);
      assert m.order[0] in m.order;
    }
  }

  lemma {:induction false} RecordKeeps(s: State, key: Key, id: string)
    requires Inv(s) && id in s.turns.entries
    requires s.turns.entries[id].turn.session == key.session && key.request in s.turns.entries[id].requests
    ensures var s' := s.(records := Trimmed(Put(s.records, key, id))); Inv(s') && Keeps(s, s')
  {
    hide Valid, Trimmed;
    var s' := s.(records := Trimmed(Put(s.records, key, id)));
    PutValid(s.records, key, id);
    TrimmedValid(Put(s.records, key, id));
    forall x | x in s'.turns.entries ensures TurnInv(s', x) { assert TurnInv(s, x); }
    forall k | k in s'.open ensures OpenInv(s', k) { assert OpenInv(s, k); }
    assert TurnInv(s, id);
    forall k | k in s'.records.entries ensures RecordInv(s', k) { if k != key { assert RecordInv(s, k); } }
  }

  /** A turn that takes a new prompt is a later form of itself. */
  lemma {:induction false} PromptedLater(a: Tracked, p: Prompt, uncertain: bool, r: Receipt)
    requires ReceiptsInv(a) && !Finished(a.turn.status) && p.request !in a.requests && (a.turn.uncertain ==> uncertain)
    requires r.session == a.turn.session && r.turn == a.turn.id && r.version == a.turn.version + 1
    ensures var b := Tracked(Prompted(a.turn, uncertain), a.requests[p.request := r]); Later(a, b) && ReceiptsInv(b)
  {
    var b := Tracked(Prompted(a.turn, uncertain), a.requests[p.request := r]);
    forall q | q in b.requests ensures ReceiptInv(b, b.requests[q]) {
      if q != p.request { assert ReceiptInv(a, a.requests[q]); }
    }
  }

  lemma {:induction false} RecordedKeeps(s: State, id: string, p: Prompt, uncertain: bool, r: Receipt)
    requires Inv(s) && id in s.turns.entries && p.session in s.open && s.open[p.session] == id
    requires p.request !in s.turns.entries[id].requests && (s.turns.entries[id].turn.uncertain ==> uncertain)
    requires r.session == p.session && r.turn == id && r.version == s.turns.entries[id].turn.version + 1
    ensures var s' := Recorded(s, id, Prompted(s.turns.entries[id].turn, uncertain), p, r); Inv(s') && Keeps(s, s')
  {
    var a := s.turns.entries[id];
    var b := Tracked(Prompted(a.turn, uncertain), a.requests[p.request := r]);
    assert TurnInv(s, id) && OpenInv(s, p.session);
    forall x | x in s.turns.entries ensures x in s.issued { assert TurnInv(s, x); }
    hide Inv, Keeps, ReceiptsInv, Later, TurnInv, OpenInv;
    PromptedLater(a, p, uncertain, r);
    var m := Replaced(s, id, b);
    assert m == s.(turns := Put(s.turns, id, b));
    ReplacedKeeps(s, id, b);
    hide Replaced;
    RecordKeeps(m, Key(p.session, p.request), id);
    KeepsTrans(s, m, m.(records := Trimmed(Put(m.records, Key(p.session, p.request), id))));
  }

  lemma {:induction false} RemovedKeeps(s: State, id: string)
    requires Inv(s) && id in s.turns.entries && s.turns.entries[id].turn.session !in s.open
    ensures var s' := s.(turns := Drop(s.turns, id)); Inv(s') && Keeps(s, s')
  {
    hide Valid, ReceiptsInv, Finished, Later;
    forall x | x in s.turns.entries ensures Later(s.turns.entries[x], s.turns.entries[x]) { LaterRefl(s.turns.entries[x]); }
    var s' := s.(turns := Drop(s.turns, id));
    DropValid(s.turns, id);
    forall x | x in s'.turns.entries ensures TurnInv(s', x) { assert TurnInv(s, x); }
    forall k | k in s'.open ensures OpenInv(s', k) { assert OpenInv(s, k); }
    forall k | k in s'.records.entries ensures RecordInv(s', k) { assert RecordInv(s, k); }
  }

  lemma {:induction false} EvictedKeeps(s: State)
    requires Inv(s)
    ensures Inv(Evicted(s)) && Keeps(s, Evicted(s))
    ensures forall session :: session in s.open ==> GoneIdle(s, Evicted(s), session)
  {
    KeepsRefl(s);
    hide Inv, FirstIdle, Keeps;
    var idle := FirstIdle(s, s.turns.order);
    if |s.turns.order| > MAX_TURNS && idle.Some? { RemovedKeeps(s, idle.value); }
  }

  // ---------------------------------------------------------------- a whole call

  /** Every turn that goes is of another session, one without an open turn. */
  ghost predicate GoneIdle(s: State, t: State, session: string) {
    forall x :: x in s.turns.entries && x !in t.turns.entries ==>
      s.turns.entries[x].turn.session !in s.open && s.turns.entries[x].turn.session != session
  }

  ghost predicate Fine(s: State, t: State, session: string) {
    Inv(t) && Keeps(s, t) && GoneIdle(s, t, session)
  }

  ghost predicate NoneGone(s: State, t: State, session: string) {
    (forall k :: k in s.open && k != session ==> k in t.open) &&
    (forall x :: x in s.turns.entries ==> x in t.turns.entries)
  }

  lemma {:induction false} FineTrans(s: State, t: State, u: State, session: string)
    requires Inv(s) && Fine(s, t, session) && Fine(t, u, session) && NoneGone(s, t, session)
    ensures Fine(s, u, session)
  {
    forall x | x in s.turns.entries ensures x in s.issued { assert TurnInv(s, x); }
    hide Inv;
    KeepsTrans(s, t, u);
    hide Later;
    forall x | x in s.turns.entries && x !in u.turns.entries
      ensures s.turns.entries[x].turn.session !in s.open && s.turns.entries[x].turn.session != session
    {
      assert Later(s.turns.entries[x], t.turns.entries[x]);
      LaterSession(s.turns.entries[x], t.turns.entries[x]);
    }
  }

  lemma {:induction false} LaterSession(a: Tracked, b: Tracked)
    requires Later(a, b)
    ensures a.turn.session == b.turn.session
  {
  }

  lemma {:induction false} FineRefl(s: State, session: string)
    requires Inv(s)
    ensures Fine(s, s, session)
  {
    KeepsRefl(s);
  }

  lemma {:induction false} RecordedFine(s: State, id: string, p: Prompt, uncertain: bool, r: Receipt)
    requires Inv(s) && id in s.turns.entries && p.session in s.open && s.open[p.session] == id
    requires p.request !in s.turns.entries[id].requests && (s.turns.entries[id].turn.uncertain ==> uncertain)
    requires r.session == p.session && r.turn == id && r.version == s.turns.entries[id].turn.version + 1
    ensures var m := Recorded(s, id, Prompted(s.turns.entries[id].turn, uncertain), p, r);
      Fine(s, m, p.session) && NoneGone(s, m, p.session) && p.session in m.open
  {
    hide Inv, Keeps, Trimmed, Prompted;
    RecordedKeeps(s, id, p, uncertain, r);
  }

  lemma {:induction false} AcceptedFine(s: State, id: string, p: Prompt, uncertain: bool, r: Receipt)
    requires Inv(s) && id in s.turns.entries && p.session in s.open && s.open[p.session] == id
    requires p.request !in s.turns.entries[id].requests && (s.turns.entries[id].turn.uncertain ==> uncertain)
    requires r.session == p.session && r.turn == id && r.version == s.turns.entries[id].turn.version + 1
    ensures var m := Recorded(s, id, Prompted(s.turns.entries[id].turn, uncertain), p, r); Fine(s, Evicted(m), p.session)
  {
    hide Inv, Keeps, Recorded, Evicted, Prompted, GoneIdle, NoneGone;
    RecordedFine(s, id, p, uncertain, r);
    var m := Recorded(s, id, Prompted(s.turns.entries[id].turn, uncertain), p, r);
    EvictedKeeps(m);
    FineTrans(s, m, Evicted(m), p.session);
  }

  lemma {:induction false} HandedFine(s: State, id: string, p: Prompt, sub: Submission)
    requires Inv(s) && id in s.turns.entries && p.session in s.open && s.open[p.session] == id
    requires p.request !in s.turns.entries[id].requests
    ensures Fine(s, Handed(s, id, false, p, sub).state, p.session)
  {
    FineRefl(s, p.session);
    var uncertain := s.turns.entries[id].turn.uncertain || sub.EnterUnconfirmed?;
    var t := Prompted(s.turns.entries[id].turn, uncertain);
    hide Inv, Evicted, Recorded, Fine;
    if !sub.SendFailed? {
      AcceptedFine(s, id, p, uncertain, Receipt(p.session, p.text, id, t.version, t.status, sub.Submitted? && sub.delivered));
    }
  }

  lemma {:induction false} OpeningFine(s: State, p: Prompt, id: string, initial: Text)
    requires Inv(s) && p.session !in s.open && id !in s.issued
    ensures var m := Opening(s, p, id, initial); Fine(s, m, p.session) && NoneGone(s, m, p.session)
  {
    OpeningKeeps(s, p, id, initial);
    hide Inv, Keeps;
  }

  /** The call gives the turn it created up again: only the identifier is spent. */
  lemma {:induction false} GivenUp(s: State, p: Prompt, w: World)
    requires Inv(s) && p.session !in s.open && w.id !in s.issued && w.initial.Some?
    requires w.submission.SendFailed? || w.submission == Submitted(false)
    ensures Begun(s, p, w).state == s.(issued := s.issued + {w.id})
  {
    DroppedAgain(s, p, w.id, w.initial.value);
    hide GivenBack, Inv;
  }

  lemma {:induction false} BegunFine(s: State, p: Prompt, w: World)
    requires Inv(s) && p.session !in s.open && w.id !in s.issued
    ensures Fine(s, Begun(s, p, w).state, p.session)
  {
    FineRefl(s, p.session);
    if w.initial.Some? {
      if w.submission.SendFailed? || w.submission == Submitted(false) {
        GivenUp(s, p, w);
        IssuedKeeps(s, w.id);
        hide Inv, Keeps, Begun;
      } else {
        var m := Opening(s, p, w.id, w.initial.value);
        OpeningFine(s, p, w.id, w.initial.value);
        assert Handed(m, w.id, true, p, w.submission) == Handed(m, w.id, false, p, w.submission);
        HandedFine(m, w.id, p, w.submission);
        hide Fine, Inv, Handed, Opening, NoneGone;
        FineTrans(s, m, Handed(m, w.id, false, p, w.submission).state, p.session);
      }
    }
  }

  /** After any call the invariant holds, turns have only moved on, and every turn that went was
      finished: eviction never takes an open turn. */
  lemma {:induction false} SentFine(s: State, p: Prompt, w: World)
    requires Inv(s) && w.id !in s.issued
    ensures Fine(s, Sent(s, p, w).state, p.session)
  {
    FineRefl(s, p.session);
    assert !HasOpen(s, p.session) && p.session in s.open ==> OpenInv(s, p.session);
    hide Inv, Fine, Begun, Continued, RefreshedAt, FromRecord, OpenInv;
    if FromRecord(s, p) == None && w.ready {
      if !HasOpen(s, p.session) {
        BegunFine(s, p, w);
      } else if w.seen.Some? {
        ContinuedFine(s, p, w);
      }
    }
  }

  /** Refreshing the open turn of a session closes the session's entry exactly if it finishes. */
  lemma {:induction false} RefreshedFine(s: State, session: string, o: Observation)
    requires Inv(s) && HasOpen(s, session)
    ensures var id := s.open[session]; var m := RefreshedAt(s, id, o); var t := m.turns.entries[id].turn;
      Fine(s, m, session) && NoneGone(s, m, session) && (session in m.open <==> !Finished(t.status)) &&
      (session in m.open ==> m.open[session] == id)
  {
    var id := s.open[session];
    RefreshKeeps(s, id, o);
    assert OpenInv(s, session) && TurnInv(s, id);
    hide Inv, Keeps, Refreshed;
  }

  lemma {:induction false} ContinuedFrom(m: State, id: string, p: Prompt, w: World)
    requires Inv(m) && w.id !in m.issued && id in m.turns.entries
    requires p.session in m.open <==> !Finished(m.turns.entries[id].turn.status)
    requires p.session in m.open ==> m.open[p.session] == id
    ensures Fine(m, Continued(m, id, p, w).state, p.session)
  {
    FineRefl(m, p.session);
    hide Inv, Begun, Handed, Fine;
    var t := m.turns.entries[id];
    if Replayed(t, p) == None {
      if Finished(t.turn.status) {
        assert m.(open := m.open - {p.session}) == m;
        BegunFine(m, p, w);
      } else if t.turn.status == NeedsInput {
        HandedFine(m, id, p, w.submission);
      }
    }
  }

  lemma {:induction false} ContinuedFine(s: State, p: Prompt, w: World)
    requires Inv(s) && w.id !in s.issued && HasOpen(s, p.session) && w.seen.Some?
    ensures Fine(s, Continued(RefreshedAt(s, s.open[p.session], w.seen.value), s.open[p.session], p, w).state, p.session)
  {
    hide Refreshed, Keeps, GoneIdle, Inv, NoneGone, Continued;
    var id := s.open[p.session];
    var m := RefreshedAt(s, id, w.seen.value);
    RefreshedFine(s, p.session, w.seen.value);
    ContinuedFrom(m, id, p, w);
    FineTrans(s, m, Continued(m, id, p, w).state, p.session);
  }

  /** Eviction never removes a turn that is unfinished when the call arrives. */
  lemma {:induction false} OpenTurnSpared(s: State, p: Prompt, w: World, id: string)
    requires Inv(s) && w.id !in s.issued && id in s.turns.entries && !Finished(s.turns.entries[id].turn.status)
    ensures id in Sent(s, p, w).state.turns.entries
  {
    SentFine(s, p, w);
    assert TurnInv(s, id);
  }

  // ---------------------------------------------------------------- runs

  datatype Step = Ask(p: Prompt, w: World) | Look(id: string, o: Observation)

  predicate Enabled(s: State, step: Step) {
    match step
    case Ask(_, w) => w.id !in s.issued
    case Look(id, _) => id in s.turns.entries
  }

  function Next(s: State, step: Step): State
    requires Enabled(s, step)
  {
    match step
    case Ask(p, w) => Sent(s, p, w).state
    case Look(id, o) => RefreshedAt(s, id, o)
  }

  ghost predicate IsRun(s: State, steps: seq<Step>, t: State)
    decreases |steps|
  {
    if steps == [] then s == t else Enabled(s, steps[0]) && IsRun(Next(s, steps[0]), steps[1..], t)
  }

  lemma {:induction false} NextKeeps(s: State, step: Step)
    requires Inv(s) && Enabled(s, step)
    ensures Inv(Next(s, step)) && Keeps(s, Next(s, step))
  {
    hide Inv, Keeps, Sent, RefreshedAt;
    match step {
      case Ask(p, w) => SentFine(s, p, w);
      case Look(id, o) => RefreshKeeps(s, id, o);
    }
  }

  lemma {:induction false} IdsIssued(s: State)
    requires Inv(s)
    ensures forall id :: id in s.turns.entries ==> id in s.issued
  {
    forall id | id in s.turns.entries ensures id in s.issued { assert TurnInv(s, id); }
  }

  lemma {:induction false} RunKeeps(s: State, steps: seq<Step>, t: State)
    requires Inv(s) && IsRun(s, steps, t)
    ensures Inv(t) && Keeps(s, t)
    decreases |steps|
  {
    KeepsRefl(s);
    IdsIssued(s);
    hide Inv, Keeps, Next, Enabled;
    if steps != [] {
      NextKeeps(s, steps[0]);
      RunKeeps(Next(s, steps[0]), steps[1..], t);
      KeepsTrans(s, Next(s, steps[0]), t);
    }
  }

  predicate BothUnfinished(s: State, a: string, b: string)
    requires a in s.turns.entries && b in s.turns.entries
  {
    s.turns.entries[a].turn.session == s.turns.entries[b].turn.session &&
    !Finished(s.turns.entries[a].turn.status) && !Finished(s.turns.entries[b].turn.status)
  }

  /** In every run a turn is unfinished exactly when its session's open entry points to it, so no
      session has two unfinished turns; and every open entry points to such a turn. */
  lemma {:induction false} UnfinishedIsOpen(steps: seq<Step>, t: State, id: string)
    requires IsRun(Initial, steps, t) && id in t.turns.entries
    ensures var turn := t.turns.entries[id].turn;
      !Finished(turn.status) <==> turn.session in t.open && t.open[turn.session] == id
    ensures forall session :: session in t.open ==> t.open[session] in t.turns.entries
    ensures forall other :: other in t.turns.entries && BothUnfinished(t, id, other) ==> other == id
  {
    RunKeeps(Initial, steps, t);
    assert TurnInv(t, id);
    forall other | other in t.turns.entries && BothUnfinished(t, id, other) ensures other == id { OneUnfinished(t, id, other); }
    forall session | session in t.open ensures t.open[session] in t.turns.entries { assert OpenInv(t, session); }
  }

  /** Between any two moments of a run: a finished turn has not changed at all, versions have only
      grown, and a turn that looks different to a reader has a different version. */
  lemma {:induction false} TurnsMoveOn(before: seq<Step>, s: State, steps: seq<Step>, t: State, id: string)
    requires IsRun(Initial, before, s) && IsRun(s, steps, t) && id in s.turns.entries && id in t.turns.entries
    ensures Finished(s.turns.entries[id].turn.status) ==> t.turns.entries[id] == s.turns.entries[id]
    ensures s.turns.entries[id].turn.version <= t.turns.entries[id].turn.version
    ensures !SameToReaders(s.turns.entries[id].turn, t.turns.entries[id].turn) ==>
      s.turns.entries[id].turn.version < t.turns.entries[id].turn.version
  {
    RunKeeps(Initial, before, s);
    RunKeeps(s, steps, t);
  }

  /** Once it is uncertain whether a turn's prompt was submitted, it stays so, and the turn is never
      working, until it completes. */
  lemma {:induction false} UncertainUntilCompleted(before: seq<Step>, s: State, steps: seq<Step>, t: State, id: string)
    requires IsRun(Initial, before, s) && IsRun(s, steps, t) && id in s.turns.entries && id in t.turns.entries
    requires s.turns.entries[id].turn.uncertain
    ensures var turn := t.turns.entries[id].turn; (turn.uncertain && turn.status != Working) || turn.status == Completed
  {
    RunKeeps(Initial, before, s);
    RunKeeps(s, steps, t);
    assert TurnInv(t, id);
  }

  // ---------------------------------------------------------------- requests are not sent twice

  /** The request is on record with turn `id`, and that turn is still kept. */
  predicate OnRecord(s: State, p: Prompt, id: string) {
    Key(p.session, p.request) in s.records.entries && s.records.entries[Key(p.session, p.request)] == id && id in s.turns.entries
  }

  /** A request that is on record with a turn still kept is answered from the turn: nothing is sent,
      nothing changes, and the answer is the stored one, or a refusal if the prompt differs. */
  lemma {:induction false} ReplayedNotSent(s: State, p: Prompt, id: string, w: World)
    requires Inv(s) && OnRecord(s, p, id)
    ensures var t := s.turns.entries[id];
      p.request in t.requests && t.turn.session == p.session &&
      Sent(s, p, w) == Outcome(s, if t.requests[p.request].text == p.text then Accepted(t.requests[p.request], true)
                                  else Refused(DifferentPrompt), false)
  {
    assert RecordInv(s, Key(p.session, p.request)) && TurnInv(s, id);
    assert ReceiptInv(s.turns.entries[id], s.turns.entries[id].requests[p.request]);
  }

  /** A first answer is on record afterwards, and as long as the record and the turn are kept the
      request is answered with that same receipt however the run goes on. */
  lemma {:induction false} AcceptedOnce(s: State, p: Prompt, w: World, steps: seq<Step>, t: State, w': World)
    requires Inv(s) && w.id !in s.issued && Sent(s, p, w).answer.Accepted? && !Sent(s, p, w).answer.replayed
    requires IsRun(Sent(s, p, w).state, steps, t) && OnRecord(t, p, Sent(s, p, w).answer.receipt.turn)
    ensures Sent(t, p, w') == Outcome(t, Accepted(Sent(s, p, w).answer.receipt, true), false)
  {
    var s', r := Sent(s, p, w).state, Sent(s, p, w).answer.receipt;
    SentFine(s, p, w);
    FirstAnswer(s, p, w);
    hide Sent, Inv;
    RunKeeps(s', steps, t);
    KeptReceipt(s', t, r.turn, p.request);
    ReplayedNotSent(t, p, r.turn, w');
  }

  lemma {:induction false} KeptReceipt(s: State, t: State, id: string, request: string)
    requires Inv(s) && Keeps(s, t) && id in s.issued && id in t.turns.entries
    requires id in s.turns.entries ==> request in s.turns.entries[id].requests
    ensures id in s.turns.entries && request in t.turns.entries[id].requests
    ensures t.turns.entries[id].requests[request] == s.turns.entries[id].requests[request]
  {
    hide Inv;
    assert id in s.turns.entries;
    assert Later(s.turns.entries[id], t.turns.entries[id]);
  }

  /** The answer is a first one, and its receipt is stored with its turn while that is kept. */
  ghost predicate Stored(o: Outcome, p: Prompt) {
    o.answer.Accepted? && !o.answer.replayed ==>
      var t, r := o.state, o.answer.receipt;
      o.sent && r.text == p.text && r.turn in t.issued &&
      (r.turn in t.turns.entries ==> p.request in t.turns.entries[r.turn].requests && t.turns.entries[r.turn].requests[p.request] == r)
  }

  lemma {:induction false} HandedStored(s: State, id: string, created: bool, p: Prompt, sub: Submission)
    requires id in s.turns.entries && id in s.issued
    ensures Stored(Handed(s, id, created, p, sub), p)
  {
    hide FirstIdle, Trimmed;
  }

  lemma {:induction false} BegunStored(s: State, p: Prompt, w: World)
    ensures Stored(Begun(s, p, w), p)
  {
    if w.initial.Some? { HandedStored(Opening(s, p, w.id, w.initial.value), w.id, true, p, w.submission); }
    hide Handed;
  }

  /** The receipt of a first answer is stored with its turn, for its session and prompt. */
  lemma {:induction false} FirstAnswer(s: State, p: Prompt, w: World)
    requires Inv(s)
    ensures Stored(Sent(s, p, w), p)
  {
    BegunStored(s, p, w);
    if HasOpen(s, p.session) && w.seen.Some? {
      var id := s.open[p.session];
      assert TurnInv(s, id);
      ContinuedStored(RefreshedAt(s, id, w.seen.value), id, p, w);
    }
    hide Inv, Continued, Begun, RefreshedAt;
  }

  lemma {:induction false} ContinuedStored(m: State, id: string, p: Prompt, w: World)
    requires id in m.turns.entries && id in m.issued
    ensures Stored(Continued(m, id, p, w), p)
  {
    BegunStored(m.(open := m.open - {p.session}), p, w);
    HandedStored(m, id, false, p, w.submission);
    hide Handed, Begun;
  }

  /** In an idle session a prompt is sent if and only if its request is not on record with a turn that is
      kept: having sent it before does not matter once the turn was evicted or the record trimmed. In a
      session with an open turn a request that this turn answers is never sent again. */
  lemma {:induction false} SentUnlessKept(s: State, p: Prompt, w: World)
    requires Inv(s) && w.ready
    ensures p.session !in s.open && w.initial.Some? ==> (Sent(s, p, w).sent <==> forall id :: !OnRecord(s, p, id))
    ensures HasOpen(s, p.session) && p.request in s.turns.entries[s.open[p.session]].requests ==> !Sent(s, p, w).sent
  {
    hide Refreshed, Evicted, Trimmed;
    var key := Key(p.session, p.request);
    if key in s.records.entries {
      assert RecordInv(s, key);
      assert s.records.entries[key] in s.turns.entries ==> OnRecord(s, p, s.records.entries[key]);
    }
  }

  /** What the session's open turn does with a new request, by what the refresh finds: it is handed to a
      turn that needs input; a finished turn gives way to a new one; and any other turn refuses it. */
  lemma {:induction false} OpenTurnDecides(s: State, p: Prompt, w: World)
    requires Inv(s) && w.ready && HasOpen(s, p.session) && w.seen.Some? && forall id :: !OnRecord(s, p, id)
    requires p.request !in s.turns.entries[s.open[p.session]].requests
    ensures var open, o := s.open[p.session], Sent(s, p, w);
      var status := Refreshed(s.turns.entries[open].turn, w.seen.value).status;
      (o.sent <==> status == NeedsInput || (Finished(status) && w.initial.Some?)) &&
      (o.answer == Refused(AlreadyOpen) <==> status != NeedsInput && !Finished(status)) &&
      (o.answer == Refused(AlreadyOpen) ==> o.state == RefreshedAt(s, open, w.seen.value)) &&
      (status == NeedsInput ==> (o.answer.Accepted? <==> !w.submission.SendFailed?)) &&
      (status == NeedsInput && o.answer.Accepted? ==> o.answer.receipt.turn == open && !o.answer.replayed) &&
      (Finished(status) && o.answer.Accepted? ==> o.answer.receipt.turn == w.id && !o.answer.replayed)
  {
    NoneFound(s, p);
    hide Inv, Refreshed, Evicted, Recorded, GivenBack, FromRecord;
  }

  /** A request that the open turn has answered is answered the same again, or refused if the prompt
      differs; nothing is sent. */
  lemma {:induction false} OpenTurnReplays(s: State, p: Prompt, w: World)
    requires Inv(s) && w.ready && HasOpen(s, p.session) && w.seen.Some? && forall id :: !OnRecord(s, p, id)
    requires p.request in s.turns.entries[s.open[p.session]].requests
    ensures var r := s.turns.entries[s.open[p.session]].requests[p.request];
      Sent(s, p, w) == Outcome(RefreshedAt(s, s.open[p.session], w.seen.value),
                               if r.text == p.text then Accepted(r, true) else Refused(DifferentPrompt), false)
  {
    NoneFound(s, p);
    assert OpenInv(s, p.session) && TurnInv(s, s.open[p.session]);
    assert ReceiptInv(s.turns.entries[s.open[p.session]], s.turns.entries[s.open[p.session]].requests[p.request]);
    hide Inv, Refreshed, FromRecord;
  }

  /** In an idle session a new request is accepted with a turn of its own if and only if the screen can be
      captured and the prompt goes through; otherwise the answer says why not, and no turn is left. */
  lemma {:induction false} IdleAnswer(s: State, p: Prompt, w: World)
    requires Inv(s) && w.ready && p.session !in s.open && w.id !in s.issued && forall id :: !OnRecord(s, p, id)
    ensures var o := Sent(s, p, w);
      (w.initial == None ==> o == Outcome(s, Refused(NotCaptured), false)) &&
      (w.initial.Some? && w.submission.SendFailed? ==> o == Outcome(s.(issued := s.issued + {w.id}), Refused(NotSent), true)) &&
      (w.initial.Some? && w.submission == Submitted(false) ==> o == Outcome(s.(issued := s.issued + {w.id}), Refused(NotDelivered), true)) &&
      (w.initial.Some? && Delivered(w.submission) ==> o.sent && o.answer.Accepted? && !o.answer.replayed && o.answer.receipt.turn == w.id)
  {
    NoneFound(s, p);
    if w.initial.Some? && !Delivered(w.submission) { GivenUp(s, p, w); }
    hide Inv, Evicted, Recorded, GivenBack, FromRecord;
  }

  /** A new request to a session that does not get ready, or whose open turn cannot be looked at, is
      refused, and nothing changes. */
  lemma {:induction false} NotTried(s: State, p: Prompt, w: World)
    requires Inv(s) && forall id :: !OnRecord(s, p, id)
    ensures !w.ready ==> Sent(s, p, w) == Outcome(s, Refused(NotReady), false)
    ensures w.ready && HasOpen(s, p.session) && w.seen == None ==> Sent(s, p, w) == Outcome(s, Refused(NotSeen), false)
  {
    NoneFound(s, p);
    hide Inv, FromRecord;
  }

  lemma {:induction false} NoneFound(s: State, p: Prompt)
    requires Inv(s) && forall id :: !OnRecord(s, p, id)
    ensures FromRecord(s, p) == None
  {
    var key := Key(p.session, p.request);
    if key in s.records.entries { assert !OnRecord(s, p, s.records.entries[key]); }
  }

  /** The receipt of a first answer says what has become of the turn: its version and status, unknown if
      it is uncertain that the prompt was submitted and working if not, and whether it was delivered. */
  ghost predicate ReceiptOfTurn(o: Outcome, p: Prompt, sub: Submission) {
    o.answer.Accepted? && !o.answer.replayed ==>
      var r := o.answer.receipt;
      r.session == p.session && r.text == p.text && (r.delivered <==> sub == Submitted(true)) &&
      r.turn in o.state.turns.entries &&
      var t := o.state.turns.entries[r.turn].turn;
      t.version == r.version && t.status == r.status == (if t.uncertain then Unknown else Working) &&
      (sub.EnterUnconfirmed? ==> t.uncertain)
  }

  lemma {:induction false} HandedReceipt(s: State, id: string, created: bool, p: Prompt, sub: Submission)
    requires Valid(s.turns) && id in s.turns.entries && s.turns.entries[id].turn.session in s.open
    ensures ReceiptOfTurn(Handed(s, id, created, p, sub), p, sub)
  {
    hide Valid, FirstIdle, Trimmed;
    var t := Prompted(s.turns.entries[id].turn, s.turns.entries[id].turn.uncertain || sub.EnterUnconfirmed?);
    var r := Receipt(p.session, p.text, id, t.version, t.status, sub.Submitted? && sub.delivered);
    PutValid(s.turns, id, Tracked(t, s.turns.entries[id].requests[p.request := r]));
    var u := Recorded(s, id, t, p, r);
    EvictedOnly(u);
    hide Evicted;
    assert u.turns.entries[id].turn == t && u.open == s.open;
  }

  lemma {:induction false} BegunReceipt(s: State, p: Prompt, w: World)
    requires Valid(s.turns)
    ensures ReceiptOfTurn(Begun(s, p, w), p, w.submission)
  {
    hide Valid;
    if w.initial.Some? {
      var n := Opening(s, p, w.id, w.initial.value);
      PutValid(s.turns, w.id, n.turns.entries[w.id]);
      HandedReceipt(n, w.id, true, p, w.submission);
    }
    hide Handed, ReceiptOfTurn;
  }

  /** After a first answer the turn is in the registry as the receipt says. */
  lemma {:induction false} ReceiptIsTurn(s: State, p: Prompt, w: World)
    requires Inv(s)
    ensures ReceiptOfTurn(Sent(s, p, w), p, w.submission)
  {
    hide ReceiptOfTurn, Begun, Continued, RefreshedAt;
    BegunReceipt(s, p, w);
    if HasOpen(s, p.session) && w.seen.Some? { ContinuedReceipt(s, p, w); }
    NotFirst(s, p, w);
  }

  lemma {:induction false} NotFirst(s: State, p: Prompt, w: World)
    ensures forall state, sent :: ReceiptOfTurn(Outcome(state, Refused(NotReady), sent), p, w.submission)
    ensures forall state, sent :: ReceiptOfTurn(Outcome(state, Refused(NotSeen), sent), p, w.submission)
    ensures FromRecord(s, p).Some? ==> ReceiptOfTurn(Outcome(s, FromRecord(s, p).value, false), p, w.submission)
  {
  }

  lemma {:induction false} ContinuedReceipt(s: State, p: Prompt, w: World)
    requires Inv(s) && HasOpen(s, p.session) && w.seen.Some?
    ensures ReceiptOfTurn(Continued(RefreshedAt(s, s.open[p.session], w.seen.value), s.open[p.session], p, w), p, w.submission)
  {
    var id := s.open[p.session];
    var m := RefreshedAt(s, id, w.seen.value);
    RefreshKeeps(s, id, w.seen.value);
    RefreshedFine(s, p.session, w.seen.value);
    assert OpenInv(s, p.session) && TurnInv(s, id);
    assert Valid(m.turns) && m.turns.entries[id].turn.session == p.session by { RefreshedSame(s, id, w.seen.value); }
    hide Inv, RefreshedAt, Keeps, GoneIdle, Valid, TurnInv, OpenInv;
    BegunReceipt(m.(open := m.open - {p.session}), p, w);
    if !Finished(m.turns.entries[id].turn.status) { HandedReceipt(m, id, false, p, w.submission); }
    hide Handed, Begun;
  }

  // ---------------------------------------------------------------- eviction

  predicate Delivered(sub: Submission) { sub.EnterUnconfirmed? || sub == Submitted(true) }

  lemma {:induction false} NoneIdle(s: State, order: seq<string>)
    requires FirstIdle(s, order) == None
    ensures forall i :: 0 <= i < |order| && order[i] in s.turns.entries ==> s.turns.entries[order[i]].turn.session in s.open
  {
    if order != [] {
      NoneIdle(s, order[1..]);
      forall i | 0 <= i < |order| && order[i] in s.turns.entries ensures s.turns.entries[order[i]].turn.session in s.open {
        if i > 0 { assert order[i] == order[1..][i - 1]; }
      }
    }
  }

  /** Every turn of `s` is of a session that has an open turn in `open`. */
  ghost predicate AllOpen(s: State, open: map<string, string>) {
    forall x :: x in s.turns.entries ==> s.turns.entries[x].turn.session in open
  }

  lemma {:induction false} EvictedSize(s: State)
    requires Valid(s.turns)
    ensures |Evicted(s).turns.order| == |s.turns.order| - (if |s.turns.order| > MAX_TURNS && !AllOpen(s, s.open) then 1 else 0)
    ensures forall x :: x in s.turns.entries && s.turns.entries[x].turn.session in s.open ==> x in Evicted(s).turns.entries
  {
    var idle := FirstIdle(s, s.turns.order);
    if |s.turns.order| > MAX_TURNS {
      if idle == None {
        NoneIdle(s, s.turns.order);
        forall x | x in s.turns.entries ensures s.turns.entries[x].turn.session in s.open { assert x in s.turns.order; }
      } else {
        hide FirstIdle;
        DropValid(s.turns, idle.value);
      }
    }
  }

  /** Eviction takes only turns away, none of a session with an open turn and none below the limit. */
  lemma {:induction false} EvictedOnly(u: State)
    requires Valid(u.turns)
    ensures Evicted(u) == u.(turns := Evicted(u).turns)
    ensures forall x :: x in Evicted(u).turns.entries ==> x in u.turns.entries && Evicted(u).turns.entries[x] == u.turns.entries[x]
    ensures forall x :: x in u.turns.entries && (u.turns.entries[x].turn.session in u.open || |u.turns.order| <= MAX_TURNS) ==>
      x in Evicted(u).turns.entries
  {
    EvictedSize(u);
    hide FirstIdle;
  }

  /** A call that begins a turn in `m` and keeps it adds one to the registry, except that beyond the
      limit a turn goes if there is one of a session without an open turn. */
  ghost predicate SizeAfter(m: State, u: State, id: string) {
    (id in u.turns.entries ==> |u.turns.order| == |m.turns.order| + if |m.turns.order| >= MAX_TURNS && !AllOpen(m, u.open) then 0 else 1) &&
    (id !in u.turns.entries ==> |u.turns.order| <= |m.turns.order|)
  }

  lemma {:induction false} BegunSize(m: State, p: Prompt, w: World)
    requires Inv(m) && p.session !in m.open && w.id !in m.issued
    ensures SizeAfter(m, Begun(m, p, w).state, w.id)
  {
    IdsIssued(m);
    if w.initial.Some? {
      if !Delivered(w.submission) {
        GivenUp(m, p, w);
      } else {
        OpeningKeeps(m, p, w.id, w.initial.value);
        var u := BegunThrough(m, p, w);
        hide Valid, Begun, Evicted, SizeAfter, Inv, Opening;
        CountedAfter(m, w.id, u);
      }
    }
  }

  /** The state in which a prompt has begun its turn, before eviction. */
  lemma {:induction false} BegunThrough(m: State, p: Prompt, w: World) returns (u: State)
    requires Valid(m.turns) && w.id !in m.turns.entries && w.initial.Some? && Delivered(w.submission)
    requires Valid(Opening(m, p, w.id, w.initial.value).turns)
    ensures Begun(m, p, w).state == Evicted(u) && Valid(u.turns)
    ensures w.id in u.turns.entries && u.turns.entries[w.id].turn.session == p.session && u.open == m.open[p.session := w.id]
    ensures u.turns == Ordered(m.turns.order + [w.id], m.turns.entries[w.id := u.turns.entries[w.id]])
  {
    hide Valid, FirstIdle, Trimmed;
    var n := Opening(m, p, w.id, w.initial.value);
    var t := Prompted(n.turns.entries[w.id].turn, w.submission.EnterUnconfirmed?);
    var r := Receipt(p.session, p.text, w.id, t.version, t.status, w.submission.Submitted?);
    u := Recorded(n, w.id, t, p, r);
    hide Evicted;
    assert Begun(m, p, w).state == Evicted(u);
    PutValid(n.turns, w.id, Tracked(t, n.turns.entries[w.id].requests[p.request := r]));
  }

  lemma {:induction false} CountedAfter(m: State, id: string, u: State)
    requires Valid(u.turns) && id !in m.turns.entries && id in u.turns.entries && u.turns.entries[id].turn.session in u.open
    requires u.turns == Ordered(m.turns.order + [id], m.turns.entries[id := u.turns.entries[id]])
    ensures SizeAfter(m, Evicted(u), id)
  {
    assert Evicted(u).open == u.open;
    hide Valid, Evicted, AllOpen;
    EvictedSize(u);
    AllOpenSame(m, id, u);
  }

  lemma {:induction false} AllOpenSame(m: State, id: string, u: State)
    requires id !in m.turns.entries && id in u.turns.entries && u.turns.entries[id].turn.session in u.open
    requires u.turns.entries == m.turns.entries[id := u.turns.entries[id]]
    ensures AllOpen(u, u.open) <==> AllOpen(m, u.open)
  {
    assert forall x :: x in m.turns.entries ==> x != id && u.turns.entries[x] == m.turns.entries[x];
  }

  lemma {:induction false} HandedSize(m: State, id: string, p: Prompt, sub: Submission)
    requires Valid(m.turns) && id in m.turns.entries
    ensures var u := Handed(m, id, false, p, sub).state;
      |u.turns.order| <= |m.turns.order| && forall x :: x in u.turns.entries ==> x in m.turns.entries
  {
    hide Valid, FirstIdle, Trimmed;
    var uncertain := m.turns.entries[id].turn.uncertain || sub.EnterUnconfirmed?;
    var t := Prompted(m.turns.entries[id].turn, uncertain);
    var r := Receipt(p.session, p.text, id, t.version, t.status, sub.Submitted? && sub.delivered);
    PutValid(m.turns, id, Tracked(t, m.turns.entries[id].requests[p.request := r]));
    EvictedSize(Recorded(m, id, t, p, r));
  }

  /** The same for a whole call. */
  lemma {:induction false} SentSize(s: State, p: Prompt, w: World)
    requires Inv(s) && w.id !in s.issued
    ensures SizeAfter(s, Sent(s, p, w).state, w.id)
  {
    IdsIssued(s);
    if FromRecord(s, p) == None && w.ready {
      if !HasOpen(s, p.session) {
        assert p.session in s.open ==> OpenInv(s, p.session);
        hide Inv, Begun, OpenInv, SizeAfter;
        BegunSize(s, p, w);
      } else if w.seen.Some? {
        hide Inv, Continued, RefreshedAt, SizeAfter;
        ContinuedSizeFrom(s, p, w);
      }
    }
  }

  lemma {:induction false} ContinuedSizeFrom(s: State, p: Prompt, w: World)
    requires Inv(s) && w.id !in s.issued && HasOpen(s, p.session) && w.seen.Some?
    ensures SizeAfter(s, Continued(RefreshedAt(s, s.open[p.session], w.seen.value), s.open[p.session], p, w).state, w.id)
  {
    hide Inv, Continued, Refreshed, SizeAfter, SameTurns, Keeps, GoneIdle;
    var id := s.open[p.session];
    var m := RefreshedAt(s, id, w.seen.value);
    RefreshKeeps(s, id, w.seen.value);
    RefreshedFine(s, p.session, w.seen.value);
    RefreshedSame(s, id, w.seen.value);
    hide RefreshedAt;
    ContinuedSize(m, id, p, w);
    SameSize(s, m, Continued(m, id, p, w).state, w.id);
  }

  lemma {:induction false} RefreshedSame(s: State, id: string, o: Observation)
    requires id in s.turns.entries
    ensures var m := RefreshedAt(s, id, o); m.issued == s.issued && SameTurns(s, m)
  {
    RefreshLater(s.turns.entries[id].turn, o);
    hide Refreshed;
  }

  /** The same turns, of the same sessions, in the same order. */
  ghost predicate SameTurns(s: State, m: State) {
    m.turns.order == s.turns.order && m.turns.entries.Keys == s.turns.entries.Keys &&
    forall x :: x in s.turns.entries ==> m.turns.entries[x].turn.session == s.turns.entries[x].turn.session
  }

  lemma {:induction false} SameSize(s: State, m: State, u: State, id: string)
    requires SameTurns(s, m) && SizeAfter(m, u, id)
    ensures SizeAfter(s, u, id)
  {
    assert AllOpen(s, u.open) <==> AllOpen(m, u.open) by {
      assert forall x :: x in s.turns.entries <==> x in m.turns.entries;
    }
  }

  lemma {:induction false} ContinuedSize(m: State, id: string, p: Prompt, w: World)
    requires Inv(m) && w.id !in m.issued && id in m.turns.entries
    requires p.session in m.open <==> !Finished(m.turns.entries[id].turn.status)
    ensures SizeAfter(m, Continued(m, id, p, w).state, w.id)
  {
    IdsIssued(m);
    var t := m.turns.entries[id];
    if Replayed(t, p) == None {
      if Finished(t.turn.status) {
        assert m.(open := m.open - {p.session}) == m;
        BegunSize(m, p, w);
      } else if t.turn.status == NeedsInput {
        HandedSize(m, id, p, w.submission);
      }
    }
    hide Inv, Begun, Handed;
  }

  /** The prompt begins a turn: it is new and goes through, and its session has no open turn, or one
      that turns out to be finished and has not answered the request. */
  predicate BeginsTurn(s: State, p: Prompt, w: World) {
    FromRecord(s, p) == None && w.ready && w.initial.Some? && Delivered(w.submission) &&
    (HasOpen(s, p.session) ==>
       var t := s.turns.entries[s.open[p.session]];
       w.seen.Some? && Finished(Refreshed(t.turn, w.seen.value).status) && p.request !in t.requests)
  }

  /** Every turn is of the prompt's session or of one with an open turn. */
  ghost predicate NoneToEvict(s: State, session: string) {
    forall x :: x in s.turns.entries ==> s.turns.entries[x].turn.session == session || s.turns.entries[x].turn.session in s.open
  }

  /** A turn is added, and its session is open, exactly if the prompt goes through. */
  ghost predicate Adds(s: State, p: Prompt, w: World, u: State, begins: bool) {
    (w.id in u.turns.entries <==> begins) && (begins ==> forall k :: k in u.open <==> k in s.open || k == p.session)
  }

  lemma {:induction false} BegunAdds(m: State, p: Prompt, w: World)
    requires Inv(m) && p.session !in m.open && w.id !in m.issued
    ensures Adds(m, p, w, Begun(m, p, w).state, w.initial.Some? && Delivered(w.submission))
  {
    IdsIssued(m);
    if w.initial.Some? && Delivered(w.submission) {
      OpeningKeeps(m, p, w.id, w.initial.value);
      hide Adds, Delivered, Keeps;
      var u := BegunThrough(m, p, w);
      hide Inv, Begun, Opening;
      ThroughAdds(m, p, w, u);
    } else if w.initial.Some? {
      GivenUp(m, p, w);
      hide Inv, Begun, Delivered;
    }
  }

  lemma {:induction false} ThroughAdds(m: State, p: Prompt, w: World, u: State)
    requires Valid(u.turns) && w.id in u.turns.entries && u.turns.entries[w.id].turn.session == p.session
    requires u.open == m.open[p.session := w.id]
    ensures Adds(m, p, w, Evicted(u), true)
  {
    hide Valid, Evicted;
    EvictedOnly(u);
  }

  lemma {:induction false} ContinuedAdds(m: State, id: string, p: Prompt, w: World)
    requires Inv(m) && w.id !in m.issued && id in m.turns.entries
    requires p.session in m.open <==> !Finished(m.turns.entries[id].turn.status)
    ensures var t := m.turns.entries[id];
      Adds(m, p, w, Continued(m, id, p, w).state,
           w.initial.Some? && Delivered(w.submission) && Finished(t.turn.status) && p.request !in t.requests)
  {
    IdsIssued(m);
    var t := m.turns.entries[id];
    hide Delivered, Begun, Handed, Prompted;
    if Replayed(t, p) == None {
      if Finished(t.turn.status) {
        assert m.(open := m.open - {p.session}) == m;
        BegunAdds(m, p, w);
      } else if t.turn.status == NeedsInput {
        HandedSize(m, id, p, w.submission);
      }
    }
    hide Inv;
  }

  lemma {:induction false} SentAdds(s: State, p: Prompt, w: World)
    requires Inv(s) && w.id !in s.issued
    ensures Adds(s, p, w, Sent(s, p, w).state, BeginsTurn(s, p, w))
  {
    IdsIssued(s);
    if FromRecord(s, p) == None && w.ready {
      if !HasOpen(s, p.session) {
        assert p.session in s.open ==> OpenInv(s, p.session);
        hide Inv, Begun, OpenInv, Adds;
        BegunAdds(s, p, w);
      } else if w.seen.Some? {
        hide Inv, Continued, Refreshed;
        RefreshedAdds(s, p, w);
      }
    }
  }

  lemma {:induction false} RefreshedAdds(s: State, p: Prompt, w: World)
    requires Inv(s) && w.id !in s.issued && HasOpen(s, p.session) && w.seen.Some?
    ensures var id := s.open[p.session]; var t := s.turns.entries[id];
      Adds(s, p, w, Continued(RefreshedAt(s, id, w.seen.value), id, p, w).state,
           w.initial.Some? && Delivered(w.submission) && Finished(Refreshed(t.turn, w.seen.value).status) && p.request !in t.requests)
  {
    hide Inv, Continued, Refreshed, Keeps, GoneIdle, Delivered;
    var id := s.open[p.session];
    var m := RefreshedAt(s, id, w.seen.value);
    RefreshKeeps(s, id, w.seen.value);
    RefreshedFine(s, p.session, w.seen.value);
    RefreshedSame(s, id, w.seen.value);
    ContinuedAdds(m, id, p, w);
    OpenBut(s, id, w.seen.value);
  }

  /** A refresh closes at most the turn's own session. */
  lemma {:induction false} OpenBut(s: State, id: string, o: Observation)
    requires id in s.turns.entries
    ensures forall k :: k in s.open && k != s.turns.entries[id].turn.session ==> k in RefreshedAt(s, id, o).open
    ensures forall k :: k in RefreshedAt(s, id, o).open ==> k in s.open
  {
    hide Refreshed;
  }

  /** In any run a prompt makes the registry larger than before and larger than its limit if and only
      if it is full, the prompt begins a turn, and every turn there is is of the prompt's session or of
      one with an open turn; and it never adds more than one. */
  lemma {:induction false} GrowsExactly(steps: seq<Step>, s: State, p: Prompt, w: World)
    requires IsRun(Initial, steps, s) && Enabled(s, Ask(p, w))
    ensures var u := Sent(s, p, w).state;
      |u.turns.order| <= |s.turns.order| + 1 &&
      (|u.turns.order| > MAX_TURNS && |u.turns.order| > |s.turns.order| <==>
         |s.turns.order| >= MAX_TURNS && BeginsTurn(s, p, w) && NoneToEvict(s, p.session))
  {
    RunKeeps(Initial, steps, s);
    SentSize(s, p, w);
    SentAdds(s, p, w);
    hide Inv, Sent, BeginsTurn;
    var u := Sent(s, p, w).state;
    assert BeginsTurn(s, p, w) ==> (AllOpen(s, u.open) <==> NoneToEvict(s, p.session));
  }

  // ---------------------------------------------------------------- one session alone

  function Name(n: nat): string { seq(n, _ => 'x') }

  /** A capture that ends a turn: the process is gone. */
  function Ending(snapshot: Text): Observation { Observation(snapshot, Done, false, false, false, false) }

  /** The outside world of a prompt that goes through. */
  function Through(id: string): World { World.World(true, None, id, Some([]), Submitted(true)) }

  /** `u` is `s` with one more turn, the open and working turn `id` of the prompt's session. */
  ghost predicate OpensOne(s: State, p: Prompt, id: string, u: State) {
    u.issued == s.issued + {id} && u.open == s.open[p.session := id] &&
    (forall k :: k in u.records.entries ==> k in s.records.entries || k == Key(p.session, p.request)) &&
    id in u.turns.entries && u.turns.entries[id].turn == Prompted(Opened(id, p.session, []), false) &&
    p.request in u.turns.entries[id].requests &&
    (forall x :: x in u.turns.entries && x != id ==> x in s.turns.entries && u.turns.entries[x] == s.turns.entries[x]) &&
    (forall x :: x in s.turns.entries && (s.turns.entries[x].turn.session in u.open || |s.turns.order| < MAX_TURNS) ==> x in u.turns.entries)
  }

  /** The state after a prompt has gone through, before eviction. */
  function Gone(s: State, p: Prompt, id: string): State {
    var n := Opening(s, p, id, []);
    var t := Prompted(n.turns.entries[id].turn, false);
    Recorded(n, id, t, p, Receipt(p.session, p.text, id, t.version, t.status, true))
  }

  lemma {:induction false} GoesThrough(s: State, p: Prompt, id: string)
    requires p.session !in s.open && Key(p.session, p.request) !in s.records.entries
    ensures Sent(s, p, Through(id)).state == Evicted(Gone(s, p, id))
  {
    hide Evicted, Recorded;
  }

  lemma {:induction false} GoneOpens(s: State, p: Prompt, id: string)
    requires Valid(s.turns) && id !in s.turns.entries
    ensures var u := Gone(s, p, id); OpensOne(s, p, id, u) && Valid(u.turns) && |u.turns.order| == |s.turns.order| + 1
  {
    hide Valid, Trimmed;
    var n := Opening(s, p, id, []);
    PutValid(s.turns, id, n.turns.entries[id]);
    PutValid(n.turns, id, Gone(s, p, id).turns.entries[id]);
    RecordsOf(s.records, Key(p.session, p.request), id);
  }

  /** A prompt to a session without an open turn, never asked before, opens a turn. */
  lemma {:induction false} AskedIdle(s: State, p: Prompt, id: string)
    requires Inv(s) && p.session !in s.open && id !in s.issued && Key(p.session, p.request) !in s.records.entries
    ensures OpensOne(s, p, id, Sent(s, p, Through(id)).state)
  {
    IdsIssued(s);
    assert Valid(s.turns);
    hide Inv, Valid, Evicted, Sent, Gone, OpensOne;
    GoesThrough(s, p, id);
    GoneOpens(s, p, id);
    EvictedOpens(s, p, id, Gone(s, p, id));
  }

  lemma {:induction false} EvictedOpens(s: State, p: Prompt, id: string, u: State)
    requires OpensOne(s, p, id, u) && Valid(u.turns) && |u.turns.order| == |s.turns.order| + 1
    ensures OpensOne(s, p, id, Evicted(u))
  {
    hide Valid, Evicted;
    assert u.turns.entries[id].turn.session in u.open;
    hide Prompted;
    EvictedOnly(u);
  }

  lemma {:induction false} RecordsOf(m: Ordered<Key, string>, key: Key, id: string)
    ensures forall k :: k in Trimmed(Put(m, key, id)).entries ==> k in m.entries || k == key
  {
  }

  /** A turn whose process is gone is completed and closed by the next refresh. */
  lemma {:induction false} EndedByCapture(s: State, id: string, snapshot: Text)
    requires id in s.turns.entries && s.turns.entries[id].turn.status == Working && !s.turns.entries[id].turn.uncertain
    ensures var m := RefreshedAt(s, id, Ending(snapshot)); var t := m.turns.entries[id].turn;
      m.turns == Put(s.turns, id, s.turns.entries[id].(turn := t)) && m.issued == s.issued && m.records == s.records &&
      m.open == s.open - {s.turns.entries[id].turn.session} &&
      t.status == Completed && !t.uncertain && t.last == snapshot && t.session == s.turns.entries[id].turn.session
  {
    hide OutputSince, DecodeFrom, ByteLength, NewGeneration;
  }

  ghost predicate Leading(s: State, step: Step, t: State) { Enabled(s, step) && Next(s, step) == t }

  lemma {:induction false} TwoSteps(s: State, first: Step, m: State, second: Step, u: State)
    requires Leading(s, first, m) && Leading(m, second, u)
    ensures IsRun(s, [first, second], u)
  {
    hide Enabled, Next;
    assert [first, second][1..] == [second] && [second][1..] == [];
    assert IsRun(u, [], u);
    assert IsRun(m, [second], u);
  }

  lemma {:induction false} AskLeads(s: State, p: Prompt, id: string)
    requires id !in s.issued
    ensures Leading(s, Ask(p, Through(id)), Sent(s, p, Through(id)).state)
  {
    hide Sent;
  }

  lemma {:induction false} LookLeads(s: State, id: string, o: Observation)
    requires id in s.turns.entries
    ensures Leading(s, Look(id, o), RefreshedAt(s, id, o))
  {
    hide RefreshedAt;
  }

  /** All `n` turns of the registry are finished and of one session. */
  ghost predicate Alone(t: State, session: string, n: nat) {
    Inv(t) && |t.turns.order| == n && t.open == map[] &&
    (forall x :: x in t.turns.entries ==> t.turns.entries[x].turn.session == session) &&
    (forall x :: x in t.issued ==> |x| < n) && (forall k :: k in t.records.entries ==> |k.request| < n)
  }

  /** The same, with one more turn that is still working. */
  ghost predicate AloneBusy(t: State, session: string, n: nat) {
    Inv(t) && |t.turns.order| == n + 1 && t.open == map[session := Name(n)] &&
    Name(n) in t.turns.entries && t.turns.entries[Name(n)].turn.status == Working && !t.turns.entries[Name(n)].turn.uncertain &&
    (forall x :: x in t.turns.entries ==> t.turns.entries[x].turn.session == session) &&
    (forall x :: x in t.issued ==> |x| <= n) && (forall k :: k in t.records.entries ==> |k.request| <= n)
  }

  /** The first request of the session is on record until 500 more have followed; its turn stays. */
  ghost predicate FirstTrimmed(t: State, session: string, n: nat) {
    (n <= MAX_RECORDS ==> |t.records.order| == n && (n > 0 ==> t.records.order[0] == Key(session, Name(0)))) &&
    (n > MAX_RECORDS ==> Key(session, Name(0)) !in t.records.entries) &&
    (n > 0 ==> Name(0) in t.turns.entries && Name(0) in t.turns.entries[Name(0)].requests)
  }

  lemma {:induction false} RecordsAfter(s: State, p: Prompt, id: string)
    requires p.session !in s.open && Key(p.session, p.request) !in s.records.entries
    ensures Sent(s, p, Through(id)).state.records == Trimmed(Put(s.records, Key(p.session, p.request), id))
  {
    GoesThrough(s, p, id);
    hide Sent, Trimmed, FirstIdle;
  }

  lemma {:induction false} TrimmedNext(s: State, session: string, n: nat, m: State)
    requires Alone(s, session, n) && FirstTrimmed(s, session, n) && OpensOne(s, Prompt(session, Name(n), ""), Name(n), m)
    requires m.records == Trimmed(Put(s.records, Key(session, Name(n)), Name(n)))
    ensures FirstTrimmed(m, session, n + 1)
  {
    assert |Name(n)| == n && |Name(0)| == 0;
    hide Inv, Name;
    assert Key(session, Name(n)) !in s.records.entries;
    if n > 0 { assert s.turns.entries[Name(0)].turn.session in m.open; }
  }

  lemma {:induction false} AloneAsked(s: State, session: string, n: nat) returns (m: State)
    requires Alone(s, session, n) && FirstTrimmed(s, session, n)
    ensures Leading(s, Ask(Prompt(session, Name(n), ""), Through(Name(n))), m) && AloneBusy(m, session, n)
    ensures FirstTrimmed(m, session, n + 1)
  {
    var p, id := Prompt(session, Name(n), ""), Name(n);
    assert |id| == n;
    hide Name;
    hide Inv, Sent, Keeps, GoneIdle, OpensOne, SizeAfter, Leading, FirstTrimmed, Trimmed;
    m := Sent(s, p, Through(id)).state;
    AskLeads(s, p, id);
    SentFine(s, p, Through(id));
    AskedIdle(s, p, id);
    SentSize(s, p, Through(id));
    AloneOpened(s, session, n, m);
    RecordsAfter(s, p, id);
    TrimmedNext(s, session, n, m);
  }

  lemma {:induction false} AloneOpened(s: State, session: string, n: nat, m: State)
    requires Alone(s, session, n) && Inv(m) && SizeAfter(s, m, Name(n))
    requires OpensOne(s, Prompt(session, Name(n), ""), Name(n), m)
    ensures AloneBusy(m, session, n)
  {
    hide Inv;
    forall x | x in m.turns.entries ensures m.turns.entries[x].turn.session == session { if x != Name(n) { assert x in s.turns.entries; } }
  }

  lemma {:induction false} AloneEnded(m: State, session: string, n: nat) returns (u: State)
    requires AloneBusy(m, session, n) && FirstTrimmed(m, session, n + 1)
    ensures Leading(m, Look(Name(n), Ending([])), u) && Alone(u, session, n + 1) && FirstTrimmed(u, session, n + 1)
  {
    hide Inv, RefreshedAt, Refreshed, Leading;
    var id := Name(n);
    hide Name;
    LookLeads(m, id, Ending([]));
    EndedByCapture(m, id, []);
    RefreshKeeps(m, id, Ending([]));
    u := RefreshedAt(m, id, Ending([]));
    hide Keeps;
    assert m.open - {session} == map[];
  }

  lemma {:induction false} OneMore(s: State, session: string, n: nat) returns (steps: seq<Step>, u: State)
    requires Alone(s, session, n) && FirstTrimmed(s, session, n)
    ensures IsRun(s, steps, u) && Alone(u, session, n + 1) && FirstTrimmed(u, session, n + 1)
    ensures steps != [] && steps[0] == Ask(Prompt(session, Name(n), ""), Through(Name(n)))
  {
    hide Alone, AloneBusy, Leading, Name, FirstTrimmed;
    var m := AloneAsked(s, session, n);
    u := AloneEnded(m, session, n);
    steps := [Ask(Prompt(session, Name(n), ""), Through(Name(n))), Look(Name(n), Ending([]))];
    TwoSteps(s, steps[0], m, steps[1], u);
  }

  lemma {:induction false} RunsJoin(s: State, steps: seq<Step>, t: State, more: seq<Step>, u: State)
    requires IsRun(s, steps, t) && IsRun(t, more, u)
    ensures IsRun(s, steps + more, u)
    decreases |steps|
  {
    hide Enabled, Next;
    if steps == [] {
      assert steps + more == more;
    } else {
      RunsJoin(Next(s, steps[0]), steps[1..], t, more, u);
      assert (steps + more)[1..] == steps[1..] + more;
    }
  }

  /** One session used alone fills the registry without bound: for every `n` some run leaves `n` turns
      in it, all finished. Eviction looks only at sessions without an open turn, and when it looks the
      session has just opened one. */
  lemma {:induction false} OneSessionGrows(session: string, n: nat) returns (steps: seq<Step>, t: State)
    ensures IsRun(Initial, steps, t) && |t.turns.order| == n
    ensures forall x :: x in t.turns.entries ==> t.turns.entries[x].turn.session == session && Finished(t.turns.entries[x].turn.status)
  {
    steps, t := AloneRun(session, n);
    forall x | x in t.turns.entries ensures Finished(t.turns.entries[x].turn.status) { assert TurnInv(t, x); }
  }

  lemma {:induction false} AloneRun(session: string, n: nat) returns (steps: seq<Step>, t: State)
    ensures IsRun(Initial, steps, t) && Alone(t, session, n) && FirstTrimmed(t, session, n)
    ensures if n > 0 then steps != [] && steps[0] == Ask(Prompt(session, Name(0), ""), Through(Name(0))) else steps == []
  {
    hide Name, Enabled, Next;
    if n == 0 {
      steps, t := [], Initial;
    } else {
      hide Alone, FirstTrimmed;
      var early, s := AloneRun(session, n - 1);
      var more;
      more, t := OneMore(s, session, n - 1);
      RunsJoin(Initial, early, s, more, t);
      steps := early + more;
    }
  }

  // ---------------------------------------------------------------- an evicted request

  /** The first turn of the registry answers request `Name(0)` of session `a`, and that is on record. */
  ghost predicate FirstOf(t: State, a: string) {
    t.turns.order != [] && t.turns.order[0] == Name(0) && Name(0) in t.turns.entries &&
    t.turns.entries[Name(0)].turn.session == a &&
    Key(a, Name(0)) in t.records.entries && t.records.entries[Key(a, Name(0))] == Name(0)
  }

  ghost predicate Bounded(t: State, a: string, n: nat) {
    Inv(t) && |t.turns.order| == n && |t.records.order| <= n && (n > 0 ==> FirstOf(t, a)) &&
    (forall x :: x in t.issued ==> |x| < n) && (forall k :: k in t.records.entries ==> |k.request| < n)
  }

  ghost predicate BusyWith(t: State, session: string, id: string) {
    t.open == map[session := id] && id in t.turns.entries && t.turns.entries[id].turn.session == session &&
    t.turns.entries[id].turn.status == Working && !t.turns.entries[id].turn.uncertain
  }

  /** The turn is completed, certain, and last seen with an empty screen. */
  predicate EndedAs(t: Turn, session: string) {
    t.session == session && t.status == Completed && !t.uncertain && t.last == []
  }

  lemma {:induction false} AskedBelow(s: State, a: string, session: string, n: nat) returns (m: State)
    requires Bounded(s, a, n) && s.open == map[] && n < MAX_TURNS && (n == 0 ==> session == a)
    ensures Leading(s, Ask(Prompt(session, Name(n), ""), Through(Name(n))), m)
    ensures Bounded(m, a, n + 1) && BusyWith(m, session, Name(n))
  {
    hide Name, Bounded, Sent, Gone, BusyWith, Leading, Evicted;
    var p, id := Prompt(session, Name(n), ""), Name(n);
    NamesLeft(s, a, n);
    AskLeads(s, p, id);
    SentBelow(s, a, n, p, id);
    GoneFirst(s, a, n, p, id);
    m := Gone(s, p, id);
    BoundedMore(s, a, n, m, p);
  }

  /** The next name is still free. */
  lemma {:induction false} NamesLeft(s: State, a: string, n: nat)
    requires Bounded(s, a, n)
    ensures Name(n) !in s.issued && Name(n) !in s.turns.entries && |Name(n)| == n
    ensures forall session :: Key(session, Name(n)) !in s.records.entries
  {
    IdsIssued(s);
    hide Inv;
  }

  lemma {:induction false} SentBelow(s: State, a: string, n: nat, p: Prompt, id: string)
    requires Bounded(s, a, n) && s.open == map[] && n <= MAX_TURNS
    requires id !in s.issued && Key(p.session, p.request) !in s.records.entries
    ensures var m := Gone(s, p, id);
      Sent(s, p, Through(id)).state == Evicted(m) && Inv(Evicted(m)) && |m.turns.order| == n + 1 && (n < MAX_TURNS ==> Evicted(m) == m) &&
      BusyWith(m, p.session, id) && m.issued == s.issued + {id} &&
      forall k :: k in m.records.entries ==> k in s.records.entries || k == Key(p.session, p.request)
  {
    IdsIssued(s);
    assert Valid(s.turns);
    hide Inv, Valid, Sent, Keeps, GoneIdle, Gone, OpensOne, BusyWith;
    SentFine(s, p, Through(id));
    GoesThrough(s, p, id);
    GoneOpens(s, p, id);
    GoneBusy(s, p, id, Gone(s, p, id));
  }

  /** The first turn and its record stay where they are, unless this is the first turn. */
  lemma {:induction false} GoneFirst(s: State, a: string, n: nat, p: Prompt, id: string)
    requires Bounded(s, a, n) && n <= MAX_TURNS && id == p.request == Name(n) && (n == 0 ==> p.session == a)
    requires id !in s.turns.entries && Key(p.session, p.request) !in s.records.entries
    ensures FirstOf(Gone(s, p, id), a) && |Gone(s, p, id).records.order| <= n + 1
  {
    hide Name, Inv;
  }

  lemma {:induction false} BoundedMore(s: State, a: string, n: nat, m: State, p: Prompt)
    requires Bounded(s, a, n) && |p.request| == n && m.issued == s.issued + {p.request}
    requires Inv(m) && |m.turns.order| == n + 1 && |m.records.order| <= n + 1 && FirstOf(m, a)
    requires forall k :: k in m.records.entries ==> k in s.records.entries || k == Key(p.session, p.request)
    ensures Bounded(m, a, n + 1)
  {
    hide Inv, FirstOf;
  }

  lemma {:induction false} GoneBusy(s: State, p: Prompt, id: string, m: State)
    requires OpensOne(s, p, id, m) && s.open == map[]
    ensures BusyWith(m, p.session, id) && m.issued == s.issued + {id}
    ensures forall k :: k in m.records.entries ==> k in s.records.entries || k == Key(p.session, p.request)
  {
  }

  lemma {:induction false} EndedBelow(m: State, a: string, session: string, id: string, n: nat) returns (u: State)
    requires Bounded(m, a, n) && BusyWith(m, session, id)
    ensures Leading(m, Look(id, Ending([])), u) && Bounded(u, a, n) && u.open == map[]
    ensures id in u.turns.entries && EndedAs(u.turns.entries[id].turn, session)
  {
    hide Inv, RefreshedAt, Name, Keeps, Leading;
    LookLeads(m, id, Ending([]));
    EndedByCapture(m, id, []);
    RefreshKeeps(m, id, Ending([]));
    u := RefreshedAt(m, id, Ending([]));
    assert m.open - {session} == map[];
  }

  lemma {:induction false} OneMoreBelow(s: State, a: string, session: string, n: nat) returns (steps: seq<Step>, u: State)
    requires Bounded(s, a, n) && s.open == map[] && n < MAX_TURNS && (n == 0 ==> session == a)
    ensures IsRun(s, steps, u) && Bounded(u, a, n + 1) && u.open == map[]
    ensures steps != [] && steps[0] == Ask(Prompt(session, Name(n), ""), Through(Name(n)))
  {
    hide Bounded, BusyWith, Leading, Name;
    var m := AskedBelow(s, a, session, n);
    u := EndedBelow(m, a, session, Name(n), n + 1);
    steps := [Ask(Prompt(session, Name(n), ""), Through(Name(n))), Look(Name(n), Ending([]))];
    TwoSteps(s, steps[0], m, steps[1], u);
  }

  /** Session `b` goes on asking up to `n` turns, each of which ends. */
  lemma {:induction false} RunFurther(s: State, a: string, b: string, k: nat, n: nat) returns (steps: seq<Step>, t: State)
    requires Bounded(s, a, k) && s.open == map[] && 1 <= k <= n <= MAX_TURNS
    ensures IsRun(s, steps, t) && Bounded(t, a, n) && t.open == map[]
    decreases n
  {
    hide Bounded, Name, Enabled, Next;
    if n == k {
      steps, t := [], s;
    } else {
      var early, m := RunFurther(s, a, b, k, n - 1);
      var more;
      more, t := OneMoreBelow(m, a, b, n - 1);
      RunsJoin(s, early, m, more, t);
      steps := early + more;
    }
  }

  /** Session `a` asks once, then session `b` up to a full registry. */
  lemma {:induction false} RunToFull(a: string, b: string) returns (steps: seq<Step>, t: State)
    ensures IsRun(Initial, steps, t) && Bounded(t, a, MAX_TURNS) && t.open == map[]
    ensures steps != [] && steps[0] == Ask(Prompt(a, Name(0), ""), Through(Name(0)))
  {
    hide Bounded, Name, Enabled, Next;
    NothingBounded(a);
    var first, m := OneMoreBelow(Initial, a, a, 0);
    var more;
    more, t := RunFurther(m, a, b, 1, MAX_TURNS);
    RunsJoin(Initial, first, m, more, t);
    steps := first + more;
  }

  lemma {:induction false} NothingBounded(a: string)
    ensures Bounded(Initial, a, 0)
  {
  }

  lemma {:induction false} EvictsFirst(s: State, a: string, b: string)
    requires Bounded(s, a, MAX_TURNS) && s.open == map[] && a != b
    ensures var p := Prompt(b, Name(MAX_TURNS), ""); var t := Sent(s, p, Through(Name(MAX_TURNS))).state;
      Enabled(s, Ask(p, Through(Name(MAX_TURNS)))) && Inv(t) && a !in t.open &&
      Key(a, Name(0)) in t.records.entries && t.records.entries[Key(a, Name(0))] == Name(0) && Name(0) !in t.turns.entries &&
      Named(t, MAX_TURNS)
  {
    var p, id := Prompt(b, Name(MAX_TURNS), ""), Name(MAX_TURNS);
    NamesLeft(s, a, MAX_TURNS);
    SentBelow(s, a, MAX_TURNS, p, id);
    GoneFirst(s, a, MAX_TURNS, p, id);
    var u := Gone(s, p, id);
    hide Gone, Evicted, Name, Inv, Sent, FirstOf;
    NamedAfter(s, a, u, p);
    assert a !in u.open;
    hide BusyWith, Named, Bounded;
    EvictedFirst(u, a);
  }

  lemma {:induction false} NamedAfter(s: State, a: string, u: State, p: Prompt)
    requires Bounded(s, a, MAX_TURNS) && |p.request| == MAX_TURNS && u.issued == s.issued + {p.request}
    requires forall k :: k in u.records.entries ==> k in s.records.entries || k == Key(p.session, p.request)
    ensures Named(u, MAX_TURNS)
  {
    hide Inv, FirstOf;
  }

  /** No name longer than `n` is in use yet. */
  ghost predicate Named(t: State, n: nat) {
    (forall x :: x in t.issued ==> |x| <= n) && forall k :: k in t.records.entries ==> |k.request| <= n
  }

  lemma {:induction false} EvictedFirst(u: State, a: string)
    requires FirstOf(u, a) && a !in u.open && |u.turns.order| > MAX_TURNS
    ensures var t := Evicted(u);
      t == u.(turns := t.turns) && Name(0) !in t.turns.entries && (forall n :: Named(u, n) ==> Named(t, n)) &&
      Key(a, Name(0)) in t.records.entries && t.records.entries[Key(a, Name(0))] == Name(0)
  {
    hide Name;
    assert FirstIdle(u, u.turns.order) == Some(Name(0));
    hide FirstIdle;
  }

  /** Some run sends a request, which gets its answer, and goes on until the turn is evicted while the
      record stays; whatever prompt then comes with that request is sent again. */
  lemma {:induction false} RequestSentTwice(a: string, b: string) returns (steps: seq<Step>, t: State)
    requires a != b
    ensures IsRun(Initial, steps, t) && steps != [] && steps[0] == Ask(Prompt(a, Name(0), ""), Through(Name(0)))
    ensures var o := Sent(Initial, Prompt(a, Name(0), ""), Through(Name(0))); o.sent && o.answer.Accepted?
    ensures Key(a, Name(0)) in t.records.entries
    ensures forall text, w: World :: w.ready && w.initial.Some? ==> Sent(t, Prompt(a, Name(0), text), w).sent
  {
    var early, s := RunToFull(a, b);
    var ask := Ask(Prompt(b, Name(MAX_TURNS), ""), Through(Name(MAX_TURNS)));
    EvictsFirst(s, a, b);
    FirstIsSent(Prompt(a, Name(0), ""), Name(0));
    hide Bounded, Name, Sent, Inv;
    t := Next(s, ask);
    steps := early + [ask];
    forall text, w: World | w.ready && w.initial.Some? ensures Sent(t, Prompt(a, Name(0), text), w).sent {
      SentUnlessKept(t, Prompt(a, Name(0), text), w);
    }
    hide Enabled, Next;
    assert [ask][1..] == [] && IsRun(t, [], t);
    RunsJoin(Initial, early, s, [ask], t);
  }

  lemma {:induction false} FirstIsSent(p: Prompt, id: string)
    ensures Sent(Initial, p, Through(id)).sent && Sent(Initial, p, Through(id)).answer.Accepted?
  {
    hide Evicted, Trimmed;
  }

  /** Some run of one session alone sends a request, which gets its answer, and goes on until the record
      is trimmed; whatever prompt then comes with that request is sent again, although its turn is still
      kept and holds the answer. */
  lemma {:induction false} TrimmedRequestSentTwice(session: string) returns (steps: seq<Step>, t: State)
    ensures IsRun(Initial, steps, t) && steps != [] && steps[0] == Ask(Prompt(session, Name(0), ""), Through(Name(0)))
    ensures var o := Sent(Initial, Prompt(session, Name(0), ""), Through(Name(0))); o.sent && o.answer.Accepted?
    ensures Name(0) in t.turns.entries && Name(0) in t.turns.entries[Name(0)].requests
    ensures forall text, w: World :: w.ready && w.initial.Some? ==> Sent(t, Prompt(session, Name(0), text), w).sent
  {
    steps, t := AloneRun(session, MAX_RECORDS + 1);
    FirstIsSent(Prompt(session, Name(0), ""), Name(0));
    hide Name, Sent, Inv;
    forall text, w: World | w.ready && w.initial.Some? ensures Sent(t, Prompt(session, Name(0), text), w).sent {
      SentUnlessKept(t, Prompt(session, Name(0), text), w);
    }
  }

  // ---------------------------------------------------------------- a refresh that comes late

  /** A refresh looks at the status only before it waits for the capture. This is what it does when
      the capture arrives, whatever has happened to turn `id` since: `t` is what has become of it, and
      it may have been evicted. */
  function Late(s: State, id: string, t: Turn, o: Observation): State {
    s.(turns := if id in s.turns.entries then Put(s.turns, id, s.turns.entries[id].(turn := Observed(t, o))) else s.turns,
       open := if Changes(t, o) && Finished(NextStatus(t, o)) then s.open - {t.session} else s.open)
  }

  /** The registry keeps turn `id` as `t`, if at all. */
  predicate Current(s: State, id: string, t: Turn) { id in s.turns.entries ==> s.turns.entries[id].turn == t }

  lemma {:induction false} LateIsOnTime(s: State, id: string, o: Observation)
    requires id in s.turns.entries && !Finished(s.turns.entries[id].turn.status)
    ensures Late(s, id, s.turns.entries[id].turn, o) == RefreshedAt(s, id, o)
  {
    hide OutputSince, DecodeFrom, ByteLength, NextStatus;
  }

  /** A late refresh keeps the registry in order if and only if the capture shows nothing new; or the
      turn is kept and still unfinished; or the refresh finishes it again while its session has no open
      turn; or it was evicted and the refresh does not finish it. */
  lemma {:induction false} LateExact(s: State, id: string, t: Turn, o: Observation)
    requires Inv(s) && Current(s, id, t)
    ensures Inv(Late(s, id, t, o)) <==>
      !Changes(t, o) || (Finished(NextStatus(t, o)) && t.session !in s.open) ||
      (if id in s.turns.entries then !Finished(t.status) else !Finished(NextStatus(t, o)))
  {
    var s' := Late(s, id, t, o);
    hide Valid, Observed, Changes, NextStatus, RefreshedAt;
    if id !in s.turns.entries {
      if Changes(t, o) && Finished(NextStatus(t, o)) && t.session in s.open { ClosesOpen(s, t.session, s'); } else { assert s' == s; }
    } else if !Finished(t.status) {
      LateIsOnTime(s, id, o);
      RefreshKeeps(s, id, o);
    } else if !Changes(t, o) || (Finished(NextStatus(t, o)) && t.session !in s.open) {
      LateHarmless(s, id, o);
    } else if !Finished(NextStatus(t, o)) {
      LateReopens(s, id, o);
    } else {
      assert OpenInv(s, t.session) && TurnInv(s, id) && TurnInv(s, s.open[t.session]);
      ClosesOpen(s, t.session, s');
    }
  }

  /** Without the entry of its session an unfinished turn is out of order. */
  lemma {:induction false} ClosesOpen(s: State, session: string, s': State)
    requires Inv(s) && session in s.open && session !in s'.open
    requires var other := s.open[session];
      other in s.turns.entries ==> other in s'.turns.entries && s'.turns.entries[other] == s.turns.entries[other]
    ensures !Inv(s')
  {
    assert OpenInv(s, session);
    assert TurnInv(s, s.open[session]);
    assert !TurnInv(s', s.open[session]);
  }

  lemma {:induction false} LateReopens(s: State, id: string, o: Observation)
    requires Inv(s) && id in s.turns.entries
    requires var t := s.turns.entries[id].turn; Finished(t.status) && Changes(t, o) && !Finished(NextStatus(t, o))
    ensures !Inv(Late(s, id, s.turns.entries[id].turn, o))
  {
    hide Valid, OutputSince, DecodeFrom, ByteLength, NextStatus, NowWorking, StillUncertain, NewGeneration;
    assert TurnInv(s, id);
    assert !TurnInv(Late(s, id, s.turns.entries[id].turn, o), id);
  }

  lemma {:induction false} LateHarmless(s: State, id: string, o: Observation)
    requires Inv(s) && id in s.turns.entries
    requires var t := s.turns.entries[id].turn;
      Finished(t.status) && (!Changes(t, o) || (Finished(NextStatus(t, o)) && t.session !in s.open))
    ensures Inv(Late(s, id, s.turns.entries[id].turn, o))
  {
    hide Valid, OutputSince, DecodeFrom, ByteLength, NextStatus, NowWorking, StillUncertain, NewGeneration, ReceiptsInv;
    var s', t := Late(s, id, s.turns.entries[id].turn, o), s.turns.entries[id];
    var t' := t.(turn := Observed(t.turn, o));
    PutValid(s.turns, id, t');
    assert TurnInv(s, id);
    assert ReceiptsInv(t') by { LateReceipts(t, o); }
    assert s'.open == s.open;
    hide Changes, Retained, Extended;
    forall x | x in s'.turns.entries ensures TurnInv(s', x) { assert TurnInv(s, x); }
    forall k | k in s'.open ensures OpenInv(s', k) { assert OpenInv(s, k); }
    forall k | k in s'.records.entries ensures RecordInv(s', k) { assert RecordInv(s, k); }
  }

  lemma {:induction false} LateReceipts(t: Tracked, o: Observation)
    requires ReceiptsInv(t)
    ensures ReceiptsInv(t.(turn := Observed(t.turn, o)))
  {
    hide OutputSince, DecodeFrom, ByteLength, NextStatus;
    var t' := t.(turn := Observed(t.turn, o));
    forall q | q in t'.requests ensures ReceiptInv(t', t'.requests[q]) { assert ReceiptInv(t, t.requests[q]); }
  }

  /** A late refresh leaves all kept turns as later forms of what they were if and only if its turn was
      evicted or is still unfinished, or the refresh leaves its every field alone; a reader of the
      finished turn sees it change, under a higher version, exactly if the capture shows anything new. */
  lemma {:induction false} LateKeepsExact(s: State, id: string, t: Turn, o: Observation)
    requires Inv(s) && Current(s, id, t)
    ensures Keeps(s, Late(s, id, t, o)) <==> id !in s.turns.entries || !Finished(t.status) || Observed(t, o) == t
    ensures Observed(t, o) == t <==>
      !Changes(t, o) && (o.detected == Busy && !t.uncertain ==> t.observedWorking) && (t.uncertain ==> StillUncertain(t, o))
    ensures SameToReaders(t, Observed(t, o)) && Observed(t, o).version == t.version <==> !Changes(t, o)
  {
    var s' := Late(s, id, t, o);
    ObservedSame(t, o);
    if id !in s.turns.entries {
      hide Observed, Inv, Changes;
      forall x | x in s.turns.entries ensures Later(s.turns.entries[x], s'.turns.entries[x]) { LaterRefl(s.turns.entries[x]); }
    } else if !Finished(t.status) {
      LateIsOnTime(s, id, o);
      RefreshKeeps(s, id, o);
    } else {
      hide Observed, Inv, Valid, Changes;
      assert s'.turns.entries[id] == s.turns.entries[id].(turn := Observed(t, o));
      forall x | x in s.turns.entries && x != id ensures Later(s.turns.entries[x], s'.turns.entries[x]) { LaterRefl(s.turns.entries[x]); }
      LaterRefl(s.turns.entries[id]);
    }
  }

  lemma {:induction false} ObservedSame(t: Turn, o: Observation)
    ensures Observed(t, o) == t <==>
      !Changes(t, o) && (o.detected == Busy && !t.uncertain ==> t.observedWorking) && (t.uncertain ==> StillUncertain(t, o))
    ensures SameToReaders(t, Observed(t, o)) && Observed(t, o).version == t.version <==> !Changes(t, o)
  {
    hide OutputSince, DecodeFrom, ByteLength, NextStatus, NewGeneration;
  }

  /** A prompt that is handed to a turn while a refresh finishes it leaves the registry in order if and
      only if the handing over failed or the turn is unfinished all the same; otherwise the turn, if it is
      still kept, goes on without the entry of its session. */
  lemma {:induction false} LateSubmitExact(s: State, id: string, p: Prompt, sub: Submission)
    requires Inv(s) && id in s.turns.entries && s.turns.entries[id].turn.session == p.session
    requires p.request !in s.turns.entries[id].requests
    ensures var u := Handed(s, id, false, p, sub).state;
      id in u.turns.entries ==> (Inv(u) <==> sub.SendFailed? || !Finished(s.turns.entries[id].turn.status))
  {
    assert TurnInv(s, id);
    if !sub.SendFailed? {
      if !Finished(s.turns.entries[id].turn.status) {
        HandedFine(s, id, p, sub);
        hide Inv, Handed;
      } else {
        assert Valid(s.turns);
        hide Handed, Inv, Valid, TurnInv;
        HandedTo(s, id, p, sub);
        var u := Handed(s, id, false, p, sub).state;
        if id in u.turns.entries { OutOfOrder(u, id); }
      }
    }
  }

  /** The turn that is handed a prompt, if it is kept, is unfinished; no entry changes. */
  lemma {:induction false} HandedTo(s: State, id: string, p: Prompt, sub: Submission)
    requires Valid(s.turns) && id in s.turns.entries && !sub.SendFailed?
    ensures var u := Handed(s, id, false, p, sub).state;
      u.open == s.open && (id in u.turns.entries ==>
        !Finished(u.turns.entries[id].turn.status) && u.turns.entries[id].turn.session == s.turns.entries[id].turn.session)
  {
    hide Valid, FirstIdle, Trimmed;
    var t := Prompted(s.turns.entries[id].turn, s.turns.entries[id].turn.uncertain || sub.EnterUnconfirmed?);
    var r := Receipt(p.session, p.text, id, t.version, t.status, sub.Submitted? && sub.delivered);
    var m := Recorded(s, id, t, p, r);
    PutValid(s.turns, id, Tracked(t, s.turns.entries[id].requests[p.request := r]));
    hide Evicted;
    assert Handed(s, id, false, p, sub).state == Evicted(m);
    hide Handed;
    EvictedOnly(m);
  }

  lemma {:induction false} OutOfOrder(u: State, id: string)
    requires id in u.turns.entries && !Finished(u.turns.entries[id].turn.status)
    requires !(u.turns.entries[id].turn.session in u.open && u.open[u.turns.entries[id].turn.session] == id)
    ensures !Inv(u)
  {
    assert !TurnInv(u, id);
  }

  /** The harm: a late refresh that finishes an old turn again, be it kept or evicted, closes the
      session's current one, and the next prompt gives the session a second unfinished turn. */
  lemma {:induction false} LateRefreshSplitsSession(s: State, late: string, gone: Turn, current: string, o: Observation, p: Prompt, w: World)
    requires Inv(s) && Current(s, late, gone) && current in s.turns.entries && w.id !in s.issued
    requires p.session == gone.session == s.turns.entries[current].turn.session
    requires Finished(gone.status) && !Finished(s.turns.entries[current].turn.status)
    requires Changes(gone, o) && Finished(NextStatus(gone, o))
    requires Key(p.session, p.request) !in s.records.entries && w.ready && w.initial.Some? && w.submission == Submitted(true)
    ensures var t := Sent(Late(s, late, gone, o), p, w).state;
      current in t.turns.entries && !Finished(t.turns.entries[current].turn.status) &&
      w.id in t.turns.entries && !Finished(t.turns.entries[w.id].turn.status) && w.id != current &&
      t.turns.entries[w.id].turn.session == t.turns.entries[current].turn.session
  {
    hide Valid, OutputSince, DecodeFrom, ByteLength, NextStatus, NowWorking, StillUncertain, NewGeneration, FirstIdle, Trimmed, Observed, Changes;
    assert TurnInv(s, current);
    var m := Late(s, late, gone, o);
    var n := Opening(m, p, w.id, w.initial.value);
    var t := Prompted(n.turns.entries[w.id].turn, false);
    var r := Receipt(p.session, p.text, w.id, t.version, t.status, true);
    var u := Recorded(n, w.id, t, p, r);
    assert Sent(m, p, w).state == Evicted(u);
    assert u.turns.entries[current].turn.session in u.open;
    assert u.turns.entries[w.id].turn.session in u.open;
  }

  // ---------------------------------------------------------------- a run with late refreshes

  /** The registry, the last form of turns that were evicted, and the turns of refreshes that wait for
      their captures. */
  datatype Waiting = Waiting(s: State, lost: map<string, Turn>, refreshes: seq<string>)

  /** A refresh looks at the status when it begins, and lands when its capture arrives. */
  datatype LateStep = Whole(step: Step) | Begin(id: string) | Land(i: nat, o: Observation)

  /** A call removes no turn that it has changed, so its last form is the one before the call. */
  function Removed(s: State, u: State): map<string, Turn> {
    map x | x in s.turns.entries && x !in u.turns.entries :: s.turns.entries[x].turn
  }

  predicate Known(w: Waiting, id: string) { id in w.s.turns.entries || id in w.lost }

  function TurnOf(w: Waiting, id: string): Turn
    requires Known(w, id)
  {
    if id in w.s.turns.entries then w.s.turns.entries[id].turn else w.lost[id]
  }

  predicate LateEnabled(w: Waiting, step: LateStep) {
    match step
    case Whole(e) => Enabled(w.s, e)
    case Begin(id) => id in w.s.turns.entries && !Finished(w.s.turns.entries[id].turn.status)
    case Land(i, _) => i < |w.refreshes| && Known(w, w.refreshes[i])
  }

  function LateNext(w: Waiting, step: LateStep): Waiting
    requires LateEnabled(w, step)
  {
    match step
    case Whole(e) => var u := Next(w.s, e); w.(s := u, lost := w.lost + Removed(w.s, u))
    case Begin(id) => w.(refreshes := w.refreshes + [id])
    case Land(i, o) =>
      var id := w.refreshes[i];
      Waiting(Late(w.s, id, TurnOf(w, id), o), if id in w.s.turns.entries then w.lost else w.lost[id := Observed(w.lost[id], o)],
              w.refreshes[..i] + w.refreshes[i + 1..])
  }

  ghost predicate AllKnown(w: Waiting) { forall i :: 0 <= i < |w.refreshes| ==> Known(w, w.refreshes[i]) }

  lemma {:induction false} LateNextKnown(w: Waiting, step: LateStep)
    requires AllKnown(w) && LateEnabled(w, step)
    ensures AllKnown(LateNext(w, step))
  {
    hide Next, Enabled, Observed, Changes, NextStatus;
    var v := LateNext(w, step);
    forall i | 0 <= i < |v.refreshes| ensures Known(v, v.refreshes[i]) {
      if step.Land? {
        assert v.refreshes[i] == w.refreshes[if i < step.i then i else i + 1];
      } else if i < |w.refreshes| {
        assert v.refreshes[i] == w.refreshes[i];
      }
    }
  }

  /** In any run with late refreshes a refresh that waits can land, whatever was evicted meanwhile. */
  lemma {:induction false} EveryRefreshLands(w: Waiting, steps: seq<LateStep>, v: Waiting, i: nat, o: Observation)
    requires AllKnown(w) && IsLateRun(w, steps, v) && i < |v.refreshes|
    ensures LateEnabled(v, Land(i, o))
    decreases |steps|
  {
    if steps != [] {
      LateNextKnown(w, steps[0]);
      hide AllKnown, LateNext, LateEnabled;
      EveryRefreshLands(LateNext(w, steps[0]), steps[1..], v, i, o);
    }
  }

  ghost predicate IsLateRun(w: Waiting, steps: seq<LateStep>, v: Waiting)
    decreases |steps|
  {
    if steps == [] then w == v else LateEnabled(w, steps[0]) && IsLateRun(LateNext(w, steps[0]), steps[1..], v)
  }

  ghost predicate Leads(w: Waiting, step: LateStep, v: Waiting) { LateEnabled(w, step) && LateNext(w, step) == v }

  lemma {:induction false} PathIsRun(w: seq<Waiting>, steps: seq<LateStep>, n: nat)
    requires |w| == |steps| + 1 && n <= |steps| && forall i :: 0 <= i < |steps| ==> Leads(w[i], steps[i], w[i + 1])
    ensures IsLateRun(w[|steps| - n], steps[|steps| - n..], w[|steps|])
  {
    hide LateEnabled, LateNext;
    if n > 0 {
      PathIsRun(w, steps, n - 1);
      assert Leads(w[|steps| - n], steps[|steps| - n], w[|steps| - n + 1]);
      assert steps[|steps| - n..][1..] == steps[|steps| - n + 1..];
    }
  }

  predicate Split(s: State, a: string, b: string) {
    a != b && a in s.turns.entries && b in s.turns.entries && BothUnfinished(s, a, b)
  }

  lemma {:induction false} Prompts(s: State, p: Prompt, id: string, lost: map<string, Turn>, refreshes: seq<string>)
    requires id !in s.issued
    ensures var u := Sent(s, p, Through(id)).state;
      Leads(Waiting(s, lost, refreshes), Whole(Ask(p, Through(id))), Waiting(u, lost + Removed(s, u), refreshes))
  {
    hide Sent, Removed;
  }

  lemma {:induction false} Begins(s: State, id: string, lost: map<string, Turn>, refreshes: seq<string>)
    requires id in s.turns.entries && !Finished(s.turns.entries[id].turn.status)
    ensures Leads(Waiting(s, lost, refreshes), Begin(id), Waiting(s, lost, refreshes + [id]))
  {
  }

  lemma {:induction false} Lands(s: State, id: string, o: Observation, lost: map<string, Turn>, rest: seq<string>)
    requires id in s.turns.entries
    ensures Leads(Waiting(s, lost, [id] + rest), Land(0, o), Waiting(Late(s, id, s.turns.entries[id].turn, o), lost, rest))
  {
    hide Late, Observed;
    assert ([id] + rest)[..0] + ([id] + rest)[0 + 1..] == rest;
  }

  /** The first turn is finished, certain, and last seen with an empty screen. */
  ghost predicate FirstDone(s: State, session: string, ids: set<string>) {
    Inv(s) && s.issued == ids && "a" in s.turns.entries && s.turns.entries["a"].turn.session == session &&
    s.turns.entries["a"].turn.status == Completed && !s.turns.entries["a"].turn.uncertain && s.turns.entries["a"].turn.last == []
  }

  ghost predicate Asked(s: State, requests: set<string>) {
    forall k :: k in s.records.entries ==> k.request in requests
  }

  ghost predicate FirstOpen(s: State, session: string) {
    Inv(s) && s.issued == {"a"} && s.open == map[session := "a"] && Asked(s, {"1"}) &&
    "a" in s.turns.entries && s.turns.entries["a"].turn.session == session &&
    s.turns.entries["a"].turn.status == Working && !s.turns.entries["a"].turn.uncertain
  }

  /** The first turn opens. */
  lemma {:induction false} FirstTurn(session: string) returns (s1: State, lost: map<string, Turn>)
    ensures Leads(Waiting(Initial, map[], []), Whole(Ask(Prompt(session, "1", ""), Through("a"))), Waiting(s1, lost, []))
    ensures FirstOpen(s1, session)
  {
    var p := Prompt(session, "1", "");
    assert Inv(Initial);
    hide Inv, Sent, Leads, Keeps, GoneIdle, OpensOne, FirstOpen, Removed;
    Prompts(Initial, p, "a", map[], []);
    AskedIdle(Initial, p, "a");
    SentFine(Initial, p, Through("a"));
    s1 := Sent(Initial, p, Through("a")).state;
    lost := map[] + Removed(Initial, s1);
    FirstOpened(s1, session);
  }

  lemma {:induction false} FirstOpened(s1: State, session: string)
    requires Inv(s1) && OpensOne(Initial, Prompt(session, "1", ""), "a", s1)
    ensures FirstOpen(s1, session)
  {
    hide Inv;
  }

  /** Two refreshes of it begin, and one finds it done. */
  lemma {:induction false} FirstEnds(s1: State, lost: map<string, Turn>, session: string) returns (s2: State)
    requires FirstOpen(s1, session)
    ensures Leads(Waiting(s1, lost, []), Begin("a"), Waiting(s1, lost, ["a"]))
    ensures Leads(Waiting(s1, lost, ["a"]), Begin("a"), Waiting(s1, lost, ["a", "a"]))
    ensures Leads(Waiting(s1, lost, ["a", "a"]), Land(0, Ending([])), Waiting(s2, lost, ["a"]))
    ensures FirstDone(s2, session, {"a"}) && s2.open == map[] && Asked(s2, {"1"})
  {
    hide Inv, Leads, Keeps, Late, RefreshedAt;
    Begins(s1, "a", lost, []);
    Begins(s1, "a", lost, ["a"]);
    Lands(s1, "a", Ending([]), lost, ["a"]);
    LateIsOnTime(s1, "a", Ending([]));
    EndedByCapture(s1, "a", []);
    RefreshKeeps(s1, "a", Ending([]));
    s2 := RefreshedAt(s1, "a", Ending([]));
    assert [] + ["a"] == ["a"] && ["a"] + ["a"] == ["a", "a"];
    assert s2.open == map[];
  }

  /** A prompt opens the second turn while the other refresh still waits. */
  lemma {:induction false} SecondTurn(s2: State, lost: map<string, Turn>, session: string) returns (s3: State, more: map<string, Turn>)
    requires FirstDone(s2, session, {"a"}) && s2.open == map[] && Asked(s2, {"1"})
    ensures Leads(Waiting(s2, lost, ["a"]), Whole(Ask(Prompt(session, "2", ""), Through("b"))), Waiting(s3, more, ["a"]))
    ensures FirstDone(s3, session, {"a", "b"}) && Asked(s3, {"1", "2"})
    ensures "b" in s3.turns.entries && s3.turns.entries["b"].turn.session == session && !Finished(s3.turns.entries["b"].turn.status)
  {
    hide Inv, Sent, Leads, Keeps, GoneIdle, Removed;
    var p := Prompt(session, "2", "");
    Prompts(s2, p, "b", lost, ["a"]);
    AskedIdle(s2, p, "b");
    SentFine(s2, p, Through("b"));
    s3 := Sent(s2, p, Through("b")).state;
    more := lost + Removed(s2, s3);
    assert s3.issued == {"a", "b"};
  }

  /** The waiting refresh finishes the first turn again, and the next prompt opens a third turn. */
  lemma {:induction false} ThirdTurn(s3: State, lost: map<string, Turn>, session: string)
    returns (s4: State, s5: State, more: map<string, Turn>)
    requires FirstDone(s3, session, {"a", "b"}) && Asked(s3, {"1", "2"})
    requires "b" in s3.turns.entries && s3.turns.entries["b"].turn.session == session && !Finished(s3.turns.entries["b"].turn.status)
    ensures Leads(Waiting(s3, lost, ["a"]), Land(0, Ending([0x61])), Waiting(s4, lost, []))
    ensures Leads(Waiting(s4, lost, []), Whole(Ask(Prompt(session, "3", ""), Through("c"))), Waiting(s5, more, []))
    ensures Split(s5, "b", "c")
  {
    hide Inv, Sent, Leads, Changes, NextStatus, Removed, Split, Observed;
    var p, o, t := Prompt(session, "3", ""), Ending([0x61]), s3.turns.entries["a"].turn;
    EndsAgain(t);
    Lands(s3, "a", o, lost, []);
    s4 := Late(s3, "a", t, o);
    assert s4.issued == s3.issued;
    hide Late;
    assert ["a"] + [] == ["a"];
    Prompts(s4, p, "c", lost, []);
    s5 := Sent(s4, p, Through("c")).state;
    more := lost + Removed(s4, s5);
    LateRefreshSplitsSession(s3, "a", t, "b", o, p, Through("c"));
    SplitBy(s5, "b", "c");
  }

  lemma {:induction false} SplitBy(s: State, a: string, b: string)
    requires a != b && a in s.turns.entries && b in s.turns.entries
    requires !Finished(s.turns.entries[a].turn.status) && !Finished(s.turns.entries[b].turn.status)
    requires s.turns.entries[a].turn.session == s.turns.entries[b].turn.session
    ensures Split(s, a, b)
  {
  }

  /** It does happen. Two refreshes of the first turn begin; one finds it done; a prompt opens the
      second turn; the other refresh finds the first turn done again and closes the second one's entry;
      and the next prompt opens a third turn beside it. */
  lemma {:induction false} LateRunSplitsSession(session: string)
    ensures exists steps, v :: IsLateRun(Waiting(Initial, map[], []), steps, v) && Split(v.s, "b", "c")
  {
    hide Leads, IsLateRun, FirstOpen, FirstDone, Asked, Split;
    var s1, l1 := FirstTurn(session);
    var s2 := FirstEnds(s1, l1, session);
    var s3, l3 := SecondTurn(s2, l1, session);
    var s4, s5, l5 := ThirdTurn(s3, l3, session);
    var w := [Waiting(Initial, map[], []), Waiting(s1, l1, []), Waiting(s1, l1, ["a"]), Waiting(s1, l1, ["a", "a"]), Waiting(s2, l1, ["a"]),
              Waiting(s3, l3, ["a"]), Waiting(s4, l3, []), Waiting(s5, l5, [])];
    var steps := [Whole(Ask(Prompt(session, "1", ""), Through("a"))), Begin("a"), Begin("a"), Land(0, Ending([])),
                  Whole(Ask(Prompt(session, "2", ""), Through("b"))), Land(0, Ending([0x61])),
                  Whole(Ask(Prompt(session, "3", ""), Through("c")))];
    PathIsRun(w, steps, 7);
    assert steps[7 - 7..] == steps;
  }

  // ---------------------------------------------------------------- a refresh of an evicted turn

  ghost predicate Reaches(w: Waiting, v: Waiting) { exists steps :: IsLateRun(w, steps, v) }

  lemma {:induction false} LateRunsJoin(w: Waiting, steps: seq<LateStep>, v: Waiting, more: seq<LateStep>, x: Waiting)
    requires IsLateRun(w, steps, v) && IsLateRun(v, more, x)
    ensures IsLateRun(w, steps + more, x)
    decreases |steps|
  {
    hide LateEnabled, LateNext;
    if steps == [] {
      assert steps + more == more;
    } else {
      LateRunsJoin(LateNext(w, steps[0]), steps[1..], v, more, x);
      assert (steps + more)[1..] == steps[1..] + more;
    }
  }

  lemma {:induction false} ReachesTrans(w: Waiting, v: Waiting, x: Waiting)
    requires Reaches(w, v) && Reaches(v, x)
    ensures Reaches(w, x)
  {
    var steps :| IsLateRun(w, steps, v);
    var more :| IsLateRun(v, more, x);
    LateRunsJoin(w, steps, v, more, x);
  }

  lemma {:induction false} ReachesNext(w: Waiting, step: LateStep, v: Waiting)
    requires Leads(w, step, v)
    ensures Reaches(w, v)
  {
    hide LateEnabled, LateNext;
    assert [step][1..] == [] && IsLateRun(v, [], v);
    assert IsLateRun(w, [step], v);
  }

  lemma {:induction false} WholeReaches(s: State, step: Step, u: State, lost: map<string, Turn>, refreshes: seq<string>)
    requires Leading(s, step, u)
    ensures Reaches(Waiting(s, lost, refreshes), Waiting(u, lost + Removed(s, u), refreshes))
  {
    hide Removed, Next, Enabled;
    ReachesNext(Waiting(s, lost, refreshes), Whole(step), Waiting(u, lost + Removed(s, u), refreshes));
  }

  /** A run of whole calls goes through while refreshes wait. */
  lemma {:induction false} RunReaches(s: State, steps: seq<Step>, t: State, lost: map<string, Turn>, refreshes: seq<string>)
    returns (more: map<string, Turn>)
    requires IsRun(s, steps, t)
    ensures Reaches(Waiting(s, lost, refreshes), Waiting(t, more, refreshes))
    decreases |steps|
  {
    hide Enabled, Next, Removed;
    if steps == [] {
      more := lost;
      assert IsLateRun(Waiting(s, lost, refreshes), [], Waiting(s, lost, refreshes));
    } else {
      var m := Next(s, steps[0]);
      assert Leading(s, steps[0], m);
      WholeReaches(s, steps[0], m, lost, refreshes);
      more := RunReaches(m, steps[1..], t, lost + Removed(s, m), refreshes);
      hide Reaches;
      ReachesTrans(Waiting(s, lost, refreshes), Waiting(m, lost + Removed(s, m), refreshes), Waiting(t, more, refreshes));
    }
  }

  /** The first turn opens, a refresh of it begins, and another one finds it done. */
  lemma {:induction false} WaitsForFirst(a: string) returns (u: State, lost: map<string, Turn>)
    ensures Reaches(Waiting(Initial, map[], []), Waiting(u, lost, [Name(0)]))
    ensures Bounded(u, a, 1) && u.open == map[] && Name(0) in u.turns.entries && EndedAs(u.turns.entries[Name(0)].turn, a)
  {
    hide Bounded, Leading, Leads, Reaches, Removed, EndedAs, Name;
    NothingBounded(a);
    var m := AskedBelow(Initial, a, a, 0);
    var lost1 := map[] + Removed(Initial, m);
    u := EndedBelow(m, a, a, Name(0), 1);
    lost := lost1 + Removed(m, u);
    Begins(m, Name(0), lost1, []);
    assert [] + [Name(0)] == [Name(0)];
    hide BusyWith;
    WholeReaches(Initial, Ask(Prompt(a, Name(0), ""), Through(Name(0))), m, map[], []);
    ReachesNext(Waiting(m, lost1, []), Begin(Name(0)), Waiting(m, lost1, [Name(0)]));
    WholeReaches(m, Look(Name(0), Ending([])), u, lost1, [Name(0)]);
    ReachesTrans(Waiting(Initial, map[], []), Waiting(m, lost1, []), Waiting(m, lost1, [Name(0)]));
    ReachesTrans(Waiting(Initial, map[], []), Waiting(m, lost1, [Name(0)]), Waiting(u, lost, [Name(0)]));
  }

  /** Turns of the other session follow until the first turn is evicted, while the refresh waits. */
  lemma {:induction false} WaitsForEvicted(a: string, b: string) returns (t: State, lost: map<string, Turn>)
    requires a != b
    ensures Reaches(Waiting(Initial, map[], []), Waiting(t, lost, [Name(0)]))
    ensures Inv(t) && a !in t.open && Named(t, MAX_TURNS) && Name(0) !in t.turns.entries
    ensures Name(0) in lost && EndedAs(lost[Name(0)], a)
  {
    hide Bounded, Reaches, Leading, Inv, Name, Named;
    var u, lost1 := WaitsForFirst(a);
    var steps, s := RunFurther(u, a, b, 1, MAX_TURNS);
    var lost2 := RunReaches(u, steps, s, lost1, [Name(0)]);
    StaysFirst(u, a, steps, s);
    EvictsFirst(s, a, b);
    var p, id := Prompt(b, Name(MAX_TURNS), ""), Name(MAX_TURNS);
    t := Sent(s, p, Through(id)).state;
    lost := lost2 + Removed(s, t);
    AskLeads(s, p, id);
    hide Sent;
    WholeReaches(s, Ask(p, Through(id)), t, lost2, [Name(0)]);
    ReachesTrans(Waiting(Initial, map[], []), Waiting(u, lost1, [Name(0)]), Waiting(s, lost2, [Name(0)]));
    ReachesTrans(Waiting(Initial, map[], []), Waiting(s, lost2, [Name(0)]), Waiting(t, lost, [Name(0)]));
  }

  lemma {:induction false} StaysFirst(u: State, a: string, steps: seq<Step>, s: State)
    requires Bounded(u, a, 1) && Bounded(s, a, MAX_TURNS) && IsRun(u, steps, s)
    requires Name(0) in u.turns.entries && EndedAs(u.turns.entries[Name(0)].turn, a)
    ensures Name(0) in s.turns.entries && EndedAs(s.turns.entries[Name(0)].turn, a)
  {
    RunKeeps(u, steps, s);
    hide Inv, IsRun, Name;
    assert Later(u.turns.entries[Name(0)], s.turns.entries[Name(0)]);
  }

  /** A refresh of an evicted turn can land on the session's next turn. One of session `a` waits until
      its turn is evicted for turns of session `b`; a prompt opens the next turn of `a`; the refresh finds
      the evicted turn done again and closes the entry of the new one; and the next prompt opens a third
      turn beside it. */
  lemma {:induction false} EvictedRunSplitsSession(a: string, b: string)
    requires a != b
    ensures exists v :: Reaches(Waiting(Initial, map[], []), v) && Name(0) !in v.s.turns.entries && Split(v.s, Name(201), Name(202))
  {
    hide Reaches, Inv, Split, Leads, Named, Name;
    var start := Waiting(Initial, map[], []);
    var t, lost := WaitsForEvicted(a, b);
    var t2, lost2 := PromptsAgain(t, a, lost);
    var t3, t4, lost3, lost4 := LandsOnNext(t2, a, lost2);
    ReachesTrans(start, Waiting(t, lost, [Name(0)]), Waiting(t2, lost2, [Name(0)]));
    ReachesTrans(start, Waiting(t2, lost2, [Name(0)]), Waiting(t3, lost3, []));
    ReachesTrans(start, Waiting(t3, lost3, []), Waiting(t4, lost4, []));
    var v := Waiting(t4, lost4, []);
    assert Reaches(start, v) && Name(0) !in v.s.turns.entries && Split(v.s, Name(201), Name(202));
  }

  /** The next prompt of the session opens its second turn; the first one is gone. */
  ghost predicate NextOpen(t2: State, a: string, lost: map<string, Turn>) {
    Inv(t2) && Name(0) !in t2.turns.entries && Name(0) in lost && EndedAs(lost[Name(0)], a) && Named(t2, 201) &&
    Name(201) in t2.turns.entries && t2.turns.entries[Name(201)].turn.session == a && t2.turns.entries[Name(201)].turn.status == Working
  }

  lemma {:induction false} PromptsAgain(t: State, a: string, lost: map<string, Turn>) returns (t2: State, lost2: map<string, Turn>)
    requires Inv(t) && a !in t.open && Named(t, MAX_TURNS) && Name(0) !in t.turns.entries
    requires Name(0) in lost && EndedAs(lost[Name(0)], a)
    ensures Reaches(Waiting(t, lost, [Name(0)]), Waiting(t2, lost2, [Name(0)])) && NextOpen(t2, a, lost2)
  {
    var p, id := Prompt(a, Name(201), ""), Name(201);
    assert |id| == 201 && |Name(0)| == 0;
    hide Inv, Sent, Keeps, GoneIdle, Reaches, Leading, Name;
    hide OpensOne, NextOpen;
    t2 := Sent(t, p, Through(id)).state;
    lost2 := lost + Removed(t, t2);
    AskedIdle(t, p, id);
    SentFine(t, p, Through(id));
    AskLeads(t, p, id);
    NextOpened(t, a, lost, t2);
    hide Removed, Named, EndedAs;
    WholeReaches(t, Ask(p, Through(id)), t2, lost, [Name(0)]);
  }

  lemma {:induction false} NextOpened(t: State, a: string, lost: map<string, Turn>, t2: State)
    requires Named(t, MAX_TURNS) && Name(0) !in t.turns.entries && Name(0) in lost && EndedAs(lost[Name(0)], a)
    requires Inv(t2) && OpensOne(t, Prompt(a, Name(201), ""), Name(201), t2)
    ensures NextOpen(t2, a, lost + Removed(t, t2))
  {
    assert |Name(201)| == 201 && |Name(0)| == 0;
    hide Inv, Name, EndedAs;
  }

  lemma {:induction false} LandsOnNext(t2: State, a: string, lost2: map<string, Turn>)
    returns (t3: State, t4: State, lost3: map<string, Turn>, lost4: map<string, Turn>)
    requires NextOpen(t2, a, lost2)
    ensures Reaches(Waiting(t2, lost2, [Name(0)]), Waiting(t3, lost3, [])) && Reaches(Waiting(t3, lost3, []), Waiting(t4, lost4, []))
    ensures Split(t4, Name(201), Name(202)) && Name(0) !in t4.turns.entries
  {
    var o, gone := Ending([0x61]), lost2[Name(0)];
    var p, id := Prompt(a, Name(202), ""), Name(202);
    assert |id| == 202 && |Name(0)| == 0;
    EndsAgain(gone);
    t3 := Late(t2, Name(0), gone, o);
    lost3 := lost2[Name(0) := Observed(gone, o)];
    t4 := Sent(t3, p, Through(id)).state;
    lost4 := lost3 + Removed(t3, t4);
    LandsGone(t2, Name(0), o, lost2);
    LateRefreshSplitsSession(t2, Name(0), gone, Name(201), o, p, Through(id));
    StaysGone(t3, p, id, Name(0));
    assert id !in t3.issued;
    AskLeads(t3, p, id);
    hide Inv, Late, Sent, Leads, Leading, Changes, NextStatus, Observed, Removed, Reaches, Named;
    ReachesNext(Waiting(t2, lost2, [Name(0)]), Land(0, o), Waiting(t3, lost3, []));
    WholeReaches(t3, Ask(p, Through(id)), t4, lost3, []);
  }

  lemma {:induction false} LandsGone(s: State, id: string, o: Observation, lost: map<string, Turn>)
    requires id !in s.turns.entries && id in lost
    ensures Leads(Waiting(s, lost, [id]), Land(0, o), Waiting(Late(s, id, lost[id], o), lost[id := Observed(lost[id], o)], []))
  {
    hide Late, Observed;
    assert [id][..0] + [id][0 + 1..] == [];
  }

  /** A prompt brings back no turn that is gone. */
  lemma {:induction false} StaysGone(s: State, p: Prompt, id: string, x: string)
    requires x !in s.turns.entries && x != id && p.session !in s.open && Key(p.session, p.request) !in s.records.entries
    ensures x !in Sent(s, p, Through(id)).state.turns.entries
  {
    GoesThrough(s, p, id);
    hide Sent, FirstIdle, Trimmed;
  }

  lemma {:induction false} EndsAgain(t: Turn)
    requires t.last == [] && !t.uncertain
    ensures Changes(t, Ending([0x61])) && NextStatus(t, Ending([0x61])) == Completed
  {
  }

  // ---------------------------------------------------------------- the registry object

  class Registry {
    var turns: Ordered<string, Tracked>
    var open: map<string, string>
    var records: Ordered<Key, string>
    ghost var issued: set<string>

    ghost function View(): State
      reads this
    {
      State(turns, open, records, issued)
    }

    constructor ()
      ensures View() == Initial
    {
      turns, open, records, issued := Empty(), map[], Empty(), {};
    }

    method RefreshTurn(id: string, o: Observation)
      requires id in turns.entries
      modifies this
      ensures View() == RefreshedAt(old(View()), id, o)
    {
      hide Refreshed;
      var t := turns.entries[id];
      var t' := Refreshed(t.turn, o);
      turns := Put(turns, id, t.(turn := t'));
      if !Finished(t.turn.status) && Finished(t'.status) { open := open - {t.turn.session}; }
    }

    method SendPrompt(p: Prompt, w: World) returns (answer: Answer, sent: bool)
      modifies this
      ensures Outcome(View(), answer, sent) == Sent(old(View()), p, w)
    {
      hide RefreshedAt, Begun, Handed;
      sent := false;
      var key := Key(p.session, p.request);
      if key in records.entries && records.entries[key] in turns.entries {
        var replay := Replayed(turns.entries[records.entries[key]], p);
        if replay.Some? { return replay.value, false; }
      }
      if !w.ready { return Refused(NotReady), false; }
      if p.session in open && open[p.session] in turns.entries {
        var id := open[p.session];
        if w.seen.None? { return Refused(NotSeen), false; }
        RefreshTurn(id, w.seen.value);
        assert id in turns.entries by { RefreshedStays(old(View()), id, w.seen.value); }
        var t := turns.entries[id];
        var replay := Replayed(t, p);
        if replay.Some? { return replay.value, false; }
        if Finished(t.turn.status) {
          open := open - {p.session};
        } else if t.turn.status != NeedsInput {
          return Refused(AlreadyOpen), false;
        } else {
          answer, sent := Submit(id, false, p, w.submission);
          return;
        }
      }
      answer, sent := BeginTurn(p, w);
    }

    method BeginTurn(p: Prompt, w: World) returns (answer: Answer, sent: bool)
      modifies this
      ensures Outcome(View(), answer, sent) == Begun(old(View()), p, w)
    {
      hide Handed;
      if w.initial.None? { return Refused(NotCaptured), false; }
      turns := Put(turns, w.id, Tracked(Opened(w.id, p.session, w.initial.value), map[]));
      open := open[p.session := w.id];
      issued := issued + {w.id};
      answer, sent := Submit(w.id, true, p, w.submission);
    }

    method Submit(id: string, created: bool, p: Prompt, sub: Submission) returns (answer: Answer, sent: bool)
      requires id in turns.entries
      modifies this
      ensures Outcome(View(), answer, sent) == Handed(old(View()), id, created, p, sub)
    {
      hide Evicted, Trimmed;
      sent := true;
      if sub.SendFailed? {
        if created { Forget(id, p.session); }
        return Refused(NotSent), true;
      }
      var t := turns.entries[id];
      var uncertain := t.turn.uncertain || sub.EnterUnconfirmed?;
      var delivered := sub.Submitted? && sub.delivered;
      if !delivered && created && !uncertain {
        Forget(id, p.session);
        return Refused(NotDelivered), true;
      }
      var turn := t.turn.(uncertain := uncertain, status := if uncertain then Unknown else Working, version := t.turn.version + 1);
      var receipt := Receipt(p.session, p.text, id, turn.version, turn.status, delivered);
      turns := Put(turns, id, Tracked(turn, t.requests[p.request := receipt]));
      TrimRecords(Key(p.session, p.request), id);
      Evict();
      answer := Accepted(receipt, false);
    }

    method Forget(id: string, session: string)
      modifies this`turns, this`open
      ensures View() == GivenBack(old(View()), id, session)
    {
      turns := Drop(turns, id);
      open := open - {session};
    }

    method TrimRecords(key: Key, id: string)
      modifies this`records
      ensures records == Trimmed(Put(old(records), key, id))
    {
      records := Put(records, key, id);
      if |records.order| > MAX_RECORDS { records := Drop(records, records.order[0]); }
    }

    method FindIdle() returns (idle: Option<string>)
      ensures idle == FirstIdle(View(), turns.order)
    {
      ghost var s := View();
      for i := 0 to |turns.order|
        invariant FirstIdle(s, turns.order[i..]) == FirstIdle(s, turns.order)
      {
        var id := turns.order[i];
        assert turns.order[i..][1..] == turns.order[i + 1..];
        if id in turns.entries && turns.entries[id].turn.session !in open { return Some(id); }
      }
      return None;
    }

    method Evict()
      modifies this`turns
      ensures View() == Evicted(old(View()))
    {
      hide FirstIdle;
      if |turns.order| > MAX_TURNS {
        var idle := FindIdle();
        if idle.Some? { turns := Drop(turns, idle.value); }
      }
    }
  }

  lemma {:induction false} RefreshedStays(s: State, id: string, o: Observation)
    requires id in s.turns.entries
    ensures id in RefreshedAt(s, id, o).turns.entries
  {
  }
}
