/** The promise-chain lock. A caller takes the key's last promise as the one to wait for and puts
    its own in its place; it runs when the promise it waits for resolves, resolves its own when it
    is done, and deletes the map entry if that is still its own. One step is the code between two
    awaits. The deletion is a step of its own, so that it may follow the release at once, later,
    or not at all. */
module PromiseLock {
  datatype Option<T> = None | Some(value: T)

  datatype Phase = Waiting | Holding | Released

  /** `previous` is the caller whose promise this one awaits; without one it awaits a promise
      that is already resolved. */
  datatype Caller = Caller(key: string, previous: Option<nat>, phase: Phase)

  /** Callers are numbered in the order in which they reach the lock. */
  datatype Locks = Locks(tails: map<string, nat>, callers: seq<Caller>)

  datatype Step = Arrive(key: string) | Enter(caller: nat) | Leave(caller: nat) | Forget(caller: nat)

  const Initial := Locks(map[], [])

  predicate Resolved(s: Locks, promise: Option<nat>) {
    promise.Some? ==> promise.value < |s.callers| && s.callers[promise.value].phase == Released
  }

  predicate Enabled(s: Locks, step: Step) {
    match step
    case Arrive(_) => true
    case Enter(c) => c < |s.callers| && s.callers[c].phase == Waiting && Resolved(s, s.callers[c].previous)
    case Leave(c) => c < |s.callers| && s.callers[c].phase == Holding
    case Forget(c) => c < |s.callers| && s.callers[c].phase == Released
  }

  function Next(s: Locks, step: Step): Locks
    requires Enabled(s, step)
  {
    match step
    case Arrive(key) =>
      var previous := if key in s.tails then Some(s.tails[key]) else None;
      Locks(s.tails[key := |s.callers|], s.callers + [Caller(key, previous, Waiting)])
    case Enter(c) => s.(callers := s.callers[c := s.callers[c].(phase := Holding)])
    case Leave(c) => s.(callers := s.callers[c := s.callers[c].(phase := Released)])
    case Forget(c) =>
      var key := s.callers[c].key;
      if key in s.tails && s.tails[key] == c then s.(tails := s.tails - {key}) else s
  }

  ghost predicate IsRun(s: Locks, steps: seq<Step>, t: Locks)
    decreases |steps|
  {
    if steps == [] then s == t else Enabled(s, steps[0]) && IsRun(Next(s, steps[0]), steps[1..], t)
  }

  // ---------------------------------------------------------------- the invariant

  ghost predicate Done(s: Locks, key: string, before: nat) {
    forall q :: 0 <= q < before && q < |s.callers| && s.callers[q].key == key ==> s.callers[q].phase == Released
  }

  /** Caller `c` waits for the caller of its key just before it, or all before it are done. */
  ghost predicate Linked(s: Locks, c: nat)
    requires c < |s.callers|
  {
    var caller := s.callers[c];
    match caller.previous
    case None => Done(s, caller.key, c)
    case Some(p) =>
      p < c && s.callers[p].key == caller.key &&
      forall q :: p < q < c ==> s.callers[q].key != caller.key
  }

  ghost predicate Inv(s: Locks) {
    (forall c :: 0 <= c < |s.callers| ==> Linked(s, c)) &&
    (forall c :: 0 <= c < |s.callers| && s.callers[c].phase != Waiting ==> Done(s, s.callers[c].key, c)) &&
    (forall key :: key in s.tails ==>
       s.tails[key] < |s.callers| && s.callers[s.tails[key]].key == key &&
       forall q :: s.tails[key] < q < |s.callers| ==> s.callers[q].key != key) &&
    (forall key :: key !in s.tails ==> Done(s, key, |s.callers|))
  }

  lemma {:induction false} NextKeepsInv(s: Locks, step: Step)
    requires Inv(s) && Enabled(s, step)
    ensures Inv(Next(s, step))
  {
    match step {
      case Arrive(key) => ArriveKeepsInv(s, key);
      case Enter(c) => EnterKeepsInv(s, c);
      case Leave(c) => LeaveKeepsInv(s, c);
      case Forget(c) =>
        assert Done(s, s.callers[c].key, c);
        var s' := Next(s, step);
        forall d | 0 <= d < |s.callers| ensures Linked(s', d) { assert Linked(s, d); }
        forall d | 0 <= d < |s.callers| && s.callers[d].phase != Waiting ensures Done(s', s.callers[d].key, d) {
          assert Done(s, s.callers[d].key, d);
        }
        forall key | key !in s'.tails ensures Done(s', key, |s'.callers|) {
          assert key !in s.tails || (key == s.callers[c].key && s.tails[key] == c);
        }
    }
  }

  lemma {:induction false} ArriveKeepsInv(s: Locks, key: string)
    requires Inv(s)
    ensures Inv(Next(s, Arrive(key)))
  {
    var s', n := Next(s, Arrive(key)), |s.callers|;
    assert forall c :: 0 <= c < n ==> s'.callers[c] == s.callers[c];
    forall c | 0 <= c < |s'.callers| ensures Linked(s', c) {
      if c < n { assert Linked(s, c); } else { assert key !in s.tails ==> Done(s, key, n); }
    }
    forall c | 0 <= c < |s'.callers| && s'.callers[c].phase != Waiting ensures Done(s', s'.callers[c].key, c) {
      assert Done(s, s.callers[c].key, c);
    }
    forall k | k !in s'.tails ensures Done(s', k, |s'.callers|) { assert Done(s, k, n); }
  }

  lemma {:induction false} EnterKeepsInv(s: Locks, c: nat)
    requires Inv(s) && Enabled(s, Enter(c))
    ensures Inv(Next(s, Enter(c))) && Done(s, s.callers[c].key, c)
  {
    var s', key := Next(s, Enter(c)), s.callers[c].key;
    assert Linked(s, c);
    if s.callers[c].previous.Some? { assert Done(s, key, s.callers[c].previous.value); }
    forall d | 0 <= d < |s.callers| ensures Linked(s', d) { assert Linked(s, d); }
    forall d | 0 <= d < |s.callers| && s'.callers[d].phase != Waiting ensures Done(s', s'.callers[d].key, d) {
      assert Done(s, s.callers[d].key, d);
    }
    forall k | k !in s'.tails ensures Done(s', k, |s'.callers|) { assert Done(s, k, |s.callers|); }
  }

  lemma {:induction false} LeaveKeepsInv(s: Locks, c: nat)
    requires Inv(s) && Enabled(s, Leave(c))
    ensures Inv(Next(s, Leave(c)))
  {
    var s' := Next(s, Leave(c));
    forall d | 0 <= d < |s.callers| ensures Linked(s', d) { assert Linked(s, d); }
    forall d | 0 <= d < |s.callers| && s'.callers[d].phase != Waiting ensures Done(s', s'.callers[d].key, d) {
      assert Done(s, s.callers[d].key, d);
    }
    forall k | k !in s'.tails ensures Done(s', k, |s'.callers|) { assert Done(s, k, |s.callers|); }
  }

  lemma {:induction false} RunKeepsInv(s: Locks, steps: seq<Step>, t: Locks)
    requires Inv(s) && IsRun(s, steps, t)
    ensures Inv(t)
    decreases |steps|
  {
    if steps != [] {
      NextKeepsInv(s, steps[0]);
      RunKeepsInv(Next(s, steps[0]), steps[1..], t);
    }
  }

  // ---------------------------------------------------------------- what the lock promises

  lemma {:induction false} OneHolder(t: Locks, a: nat, b: nat)
    requires Inv(t) && a < |t.callers| && b < |t.callers|
    requires t.callers[a].key == t.callers[b].key && t.callers[a].phase == Holding && t.callers[b].phase == Holding
    ensures a == b
  {
    assert Done(t, t.callers[a].key, a) && Done(t, t.callers[b].key, b);
  }

  /** In every interleaving at most one caller of a key holds the lock. */
  lemma {:induction false} MutualExclusion(steps: seq<Step>, t: Locks, a: nat, b: nat)
    requires IsRun(Initial, steps, t) && a < |t.callers| && b < |t.callers|
    requires t.callers[a].key == t.callers[b].key && t.callers[a].phase == Holding && t.callers[b].phase == Holding
    ensures a == b
  {
    RunKeepsInv(Initial, steps, t);
    OneHolder(t, a, b);
  }

  /** Whoever arrived first is done before a later caller of the key starts. */
  lemma {:induction false} FirstComeFirstServed(steps: seq<Step>, t: Locks, early: nat, late: nat)
    requires IsRun(Initial, steps, t) && early < late < |t.callers| && t.callers[early].key == t.callers[late].key
    ensures t.callers[late].phase != Waiting ==> t.callers[early].phase == Released
  {
    RunKeepsInv(Initial, steps, t);
    assert t.callers[late].phase != Waiting ==> Done(t, t.callers[late].key, late);
  }

  /** While a caller of a key is not done, one of them holds the lock or can take it. */
  lemma {:induction false} NeverStuck(steps: seq<Step>, t: Locks, c: nat) returns (first: nat)
    requires IsRun(Initial, steps, t) && c < |t.callers| && t.callers[c].phase != Released
    ensures first <= c && t.callers[first].key == t.callers[c].key
    ensures Enabled(t, Leave(first)) || Enabled(t, Enter(first))
  {
    RunKeepsInv(Initial, steps, t);
    var key := t.callers[c].key;
    first := 0;
    while t.callers[first].key != key || t.callers[first].phase == Released
      invariant first <= c && Done(t, key, first)
      decreases c - first
    {
      first := first + 1;
    }
    assert Linked(t, first);
  }

  /** The promise of a caller as the code builds it, `previous.then(() => current)`. */
  ghost predicate ChainResolved(s: Locks, c: nat)
    requires Inv(s) && c < |s.callers|
    decreases c
  {
    assert Linked(s, c);
    s.callers[c].phase == Released &&
    (s.callers[c].previous.Some? ==> ChainResolved(s, s.callers[c].previous.value))
  }

  /** Waiting for the chained promise is waiting for the previous caller alone. */
  lemma {:induction false} ChainIsLast(s: Locks, c: nat)
    requires Inv(s) && c < |s.callers|
    ensures ChainResolved(s, c) <==> s.callers[c].phase == Released
    decreases c
  {
    assert Linked(s, c);
    if s.callers[c].previous.Some? {
      ChainIsLast(s, s.callers[c].previous.value);
      assert s.callers[c].phase == Released ==> Done(s, s.callers[c].key, c);
    }
  }

  // ---------------------------------------------------------------- the queue it implements

  /** The callers of `key` below `n` that are not done, in order of arrival. */
  ghost function Queue(s: Locks, key: string, n: nat): seq<nat>
    requires n <= |s.callers|
  {
    if n == 0 then []
    else Queue(s, key, n - 1) + if Unfinished(s, key, n - 1) then [n - 1] else []
  }

  ghost predicate Unfinished(s: Locks, key: string, c: nat)
    requires c < |s.callers|
  {
    s.callers[c].key == key && s.callers[c].phase != Released
  }

  ghost function QueueOf(s: Locks, key: string): seq<nat> { Queue(s, key, |s.callers|) }

  /** The queue holds exactly the unfinished callers of its key, in order of arrival, each once. */
  lemma {:induction false} QueueExact(s: Locks, key: string, n: nat)
    requires n <= |s.callers|
    ensures var q := Queue(s, key, n);
      (forall i, j :: 0 <= i < j < |q| ==> q[i] < q[j]) &&
      forall c: nat :: c in q <==> c < n && Unfinished(s, key, c)
  {
    if n > 0 {
      QueueExact(s, key, n - 1);
      hide Unfinished;
      var q, rest := Queue(s, key, n), Queue(s, key, n - 1);
      forall i | 0 <= i < |rest| ensures rest[i] < n - 1 { assert rest[i] in rest; }
      forall c: nat ensures c in q <==> c < n && Unfinished(s, key, c) { assert c in q <==> c in rest || (c == n - 1 && Unfinished(s, key, c)); }
    }
  }

  lemma {:induction false} QueueSame(s: Locks, t: Locks, key: string, n: nat)
    requires n <= |s.callers| && n <= |t.callers|
    requires forall c :: 0 <= c < n ==> (Unfinished(s, key, c) <==> Unfinished(t, key, c))
    ensures Queue(s, key, n) == Queue(t, key, n)
  {
    if n > 0 { QueueSame(s, t, key, n - 1); }
  }

  lemma {:induction false} QueueEmpty(s: Locks, key: string, n: nat)
    requires n <= |s.callers| && Done(s, key, n)
    ensures Queue(s, key, n) == []
  {
    if n > 0 { QueueEmpty(s, key, n - 1); }
  }

  /** Releasing the first unfinished caller removes the head. */
  lemma {:induction false} QueueRelease(s: Locks, t: Locks, key: string, c: nat, n: nat)
    requires c < n <= |s.callers| && |t.callers| == |s.callers|
    requires Unfinished(s, key, c) && !Unfinished(t, key, c) && Done(s, key, c)
    requires forall d :: 0 <= d < n && d != c ==> (Unfinished(s, key, d) <==> Unfinished(t, key, d))
    ensures Queue(s, key, n) == [c] + Queue(t, key, n)
  {
    if n == c + 1 {
      QueueEmpty(s, key, c);
      QueueSame(s, t, key, c);
    } else {
      QueueRelease(s, t, key, c, n - 1);
      Regroup(c, Queue(t, key, n - 1), if Unfinished(t, key, n - 1) then [n - 1] else []);
    }
  }

  lemma {:induction false} Regroup(c: nat, q: seq<nat>, more: seq<nat>)
    ensures ([c] + q) + more == [c] + (q + more)
  {
  }

  lemma {:induction false} QueueMoves(s: Locks, step: Step, key: string)
    requires Inv(s) && Enabled(s, step)
    ensures Moves(s, step, key)
  {
    var s' := Next(s, step);
    match step {
      case Arrive(k) => QueueSame(s, s', key, |s.callers|);
      case Enter(c) =>
        QueueSame(s, s', key, |s.callers|);
        if s.callers[c].key == key {
          EnterKeepsInv(s, c);
          assert Enabled(s', Leave(c));
          var t := Next(s', Leave(c));
          QueueRelease(s', t, key, c, |s.callers|);
        }
      case Leave(c) =>
        if s.callers[c].key == key { QueueRelease(s, s', key, c, |s.callers|); } else { QueueSame(s, s', key, |s.callers|); }
      case Forget(_) => QueueSame(s, s', key, |s.callers|);
    }
  }

  ghost predicate Moves(s: Locks, step: Step, key: string)
    requires Enabled(s, step)
  {
    var q, q' := QueueOf(s, key), QueueOf(Next(s, step), key);
    match step
    case Arrive(k) => q' == if k == key then q + [|s.callers|] else q
    case Enter(c) => q' == q && (s.callers[c].key == key ==> q != [] && q[0] == c)
    case Leave(c) => if s.callers[c].key == key then q == [c] + q' else q' == q
    case Forget(_) => q' == q
  }

  /** The lock is a FIFO queue for each key of its unfinished callers: arriving joins it at the end,
      only its head may enter, and leaving takes the head out; no other key's queue changes. */
  lemma {:induction false} RefinesQueue(s: Locks, step: Step, key: string)
    requires Inv(s) && Enabled(s, step)
    ensures Moves(s, step, key)
    ensures var t := Next(s, step); var q := QueueOf(t, key);
            (forall i, j :: 0 <= i < j < |q| ==> q[i] < q[j]) &&
            forall c: nat :: c in q <==> c < |t.callers| && Unfinished(t, key, c)
  {
    QueueMoves(s, step, key);
    hide Inv, Next, Enabled, Moves;
    QueueExact(Next(s, step), key, |Next(s, step).callers|);
  }

  // ---------------------------------------------------------------- what is left in the map

  predicate LastOf(s: Locks, key: string, c: nat) {
    c < |s.callers| && s.callers[c].key == key && forall d :: c < d < |s.callers| ==> s.callers[d].key != key
  }

  /** A key is in the map exactly if it has a caller whose last one has not deleted its entry. */
  ghost predicate EntryInv(s: Locks, forgot: set<nat>) {
    (forall c <- forgot :: c < |s.callers|) &&
    forall key :: key in s.tails <==> exists c: nat :: LastOf(s, key, c) && c !in forgot
  }

  /** The callers that have come to deleting their entry. */
  function Forgot(steps: seq<Step>): set<nat> {
    if steps == [] then {} else (if steps[0].Forget? then {steps[0].caller} else {}) + Forgot(steps[1..])
  }

  lemma {:induction false} EntryNext(s: Locks, step: Step, forgot: set<nat>)
    requires Inv(s) && EntryInv(s, forgot) && Enabled(s, step)
    ensures EntryInv(Next(s, step), forgot + if step.Forget? then {step.caller} else {})
  {
    var t := Next(s, step);
    assert forall key :: key in s.tails ==> LastOf(s, key, s.tails[key]);
    hide Inv;
    if step.Arrive? {
      EntryArrives(s, step.key, forgot);
      assert forgot + {} == forgot;
    } else {
      forall key, c: nat ensures LastOf(t, key, c) <==> LastOf(s, key, c) {
        assert forall d :: 0 <= d < |s.callers| ==> t.callers[d].key == s.callers[d].key;
      }
      hide LastOf;
      forall key, c: nat | key in s.tails && LastOf(s, key, c) ensures c == s.tails[key] { LastUnique(s, key, c, s.tails[key]); }
    }
  }

  lemma {:induction false} LastUnique(s: Locks, key: string, c: nat, d: nat)
    requires LastOf(s, key, c) && LastOf(s, key, d)
    ensures c == d
  {
  }

  lemma {:induction false} EntryArrives(s: Locks, key: string, forgot: set<nat>)
    requires EntryInv(s, forgot)
    ensures EntryInv(Next(s, Arrive(key)), forgot)
  {
    var t, n := Next(s, Arrive(key)), |s.callers|;
    assert t.callers[..n] == s.callers && t.callers[n].key == key;
    assert LastOf(t, key, n) && n !in forgot;
    forall k, c: nat | k != key ensures LastOf(t, k, c) <==> LastOf(s, k, c) {
      assert forall d :: 0 <= d < n ==> t.callers[d] == s.callers[d];
    }
    hide LastOf;
  }

  lemma {:induction false} EntryRun(s: Locks, steps: seq<Step>, t: Locks, forgot: set<nat>)
    requires Inv(s) && EntryInv(s, forgot) && IsRun(s, steps, t)
    ensures EntryInv(t, forgot + Forgot(steps))
    decreases |steps|
  {
    if steps == [] {
      assert forgot + Forgot(steps) == forgot;
    } else {
      var more := if steps[0].Forget? then {steps[0].caller} else {};
      NextKeepsInv(s, steps[0]);
      EntryNext(s, steps[0], forgot);
      hide Inv, EntryInv, Next, Enabled;
      EntryRun(Next(s, steps[0]), steps[1..], t, forgot + more);
      assert forgot + more + Forgot(steps[1..]) == forgot + Forgot(steps);
    }
  }

  /** In every run the map holds exactly the keys whose last caller has not come to deleting its entry: nothing is
      left behind, and no entry of a later caller is deleted by an earlier one. */
  lemma {:induction false} EntryExact(steps: seq<Step>, t: Locks, key: string)
    requires IsRun(Initial, steps, t)
    ensures key in t.tails <==> exists c: nat :: LastOf(t, key, c) && Forget(c) !in steps
  {
    EntryRun(Initial, steps, t, {});
    forall c: nat ensures c in Forgot(steps) <==> Forget(c) in steps { ForgotExact(steps, c); }
    hide IsRun, Forgot, LastOf;
    assert {} + Forgot(steps) == Forgot(steps);
  }

  lemma {:induction false} ForgotExact(steps: seq<Step>, c: nat)
    ensures c in Forgot(steps) <==> Forget(c) in steps
  {
    if steps != [] {
      ForgotExact(steps[1..], c);
      assert steps == [steps[0]] + steps[1..];
    }
  }

  // ---------------------------------------------------------------- the map of promises

  /** The lock table: the last promise of each key, and the callers whose promises they are. */
  class LockTable {
    var tails: map<string, nat>
    var callers: seq<Caller>

    function View(): Locks
      reads this
    {
      Locks(tails, callers)
    }

    constructor ()
      ensures View() == Initial
    {
      tails, callers := map[], [];
    }

    /** Take the last promise of the key as the one to wait for, and put one's own in its place. */
    method Queue(key: string) returns (caller: nat)
      modifies this
      ensures View() == Next(old(View()), Arrive(key)) && caller == |old(callers)|
    {
      caller := |callers|;
      var previous := if key in tails then Some(tails[key]) else None;
      callers := callers + [Caller(key, previous, Waiting)];
      tails := tails[key := caller];
    }

    method Acquire(caller: nat)
      requires Enabled(View(), Enter(caller))
      modifies this`callers
      ensures View() == Next(old(View()), Enter(caller))
    {
      callers := callers[caller := callers[caller].(phase := Holding)];
    }

    /** The `finally` block: release, then delete the entry if it is still one's own. */
    method Release(caller: nat)
      requires Enabled(View(), Leave(caller))
      modifies this
      ensures View() == Next(Next(old(View()), Leave(caller)), Forget(caller))
    {
      callers := callers[caller := callers[caller].(phase := Released)];
      var key := callers[caller].key;
      if key in tails && tails[key] == caller { tails := tails - {key}; }
    }
  }
}
