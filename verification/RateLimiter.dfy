/** The sliding-window limiter. Times are milliseconds and do not go back. */
module RateLimiter {
  datatype Option<T> = None | Some(value: T)

  datatype Limits = Limits(maxRequests: int, windowMs: int)

  /** Without any timestamp the wait is not a number. */
  datatype Decision = Allowed | Denied(retryAfterSeconds: Option<int>)

  function Recent(times: seq<int>, threshold: int): seq<int> {
    if times == [] then []
    else
      var t := times[|times| - 1];
      Recent(times[..|times| - 1], threshold) + if t > threshold then [t] else []
  }

  function Max(a: int, b: int): int { if a > b then a else b }

  function CeilSeconds(ms: int): int { (ms + 999) / 1000 }

  predicate Admits(kept: seq<int>, l: Limits) { |kept| < l.maxRequests }

  function Decide(kept: seq<int>, now: int, l: Limits): Decision {
    if Admits(kept, l) then Allowed
    else if kept == [] then Denied(None)
    else Denied(Some(Max(1, CeilSeconds(kept[0] + l.windowMs - now))))
  }

  function Checked(timestamps: seq<int>, now: int, l: Limits): (seq<int>, Decision) {
    var kept := Recent(timestamps, now - l.windowMs);
    (if Admits(kept, l) then kept + [now] else kept, Decide(kept, now, l))
  }

  class SimpleRateLimiter {
    const limits: Limits
    var timestamps: seq<int>

    constructor (limits: Limits)
      ensures this.limits == limits && timestamps == []
    {
      this.limits, timestamps := limits, [];
    }

    method Check(now: int) returns (d: Decision)
      modifies this
      ensures (timestamps, d) == Checked(old(timestamps), now, limits)
    {
      var threshold := now - limits.windowMs;
      Filter(threshold);
      if |timestamps| >= limits.maxRequests {
        if timestamps == [] { return Denied(None); }
        var oldest := timestamps[0];
        return Denied(Some(Max(1, CeilSeconds(oldest + limits.windowMs - now))));
      }
      timestamps := timestamps + [now];
      return Allowed;
    }

    method Filter(threshold: int)
      modifies this
      ensures timestamps == Recent(old(timestamps), threshold)
    {
      var kept := [];
      for i := 0 to |timestamps|
        invariant timestamps == old(timestamps)
        invariant kept == Recent(timestamps[..i], threshold)
      {
        assert timestamps[..i + 1][..i] == timestamps[..i];
        if timestamps[i] > threshold { kept := kept + [timestamps[i]]; }
      }
      assert timestamps[..|timestamps|] == timestamps;
      timestamps := kept;
    }

    method Reset()
      modifies this
      ensures timestamps == []
    {
      timestamps := [];
    }
  }

  // ---------------------------------------------------------------- the limiter and its full history

  /** The list the limiter keeps after checks at `times`. */
  function Kept(times: seq<int>, l: Limits): seq<int> {
    if times == [] then [] else Checked(Kept(times[..|times| - 1], l), times[|times| - 1], l).0
  }

  /** All checks that were allowed, if each is decided by all that were allowed before. */
  function History(times: seq<int>, l: Limits): seq<int> {
    if times == [] then []
    else
      var h, now := History(times[..|times| - 1], l), times[|times| - 1];
      if Admits(Recent(h, now - l.windowMs), l) then h + [now] else h
  }

  /** Each time is no earlier than the one before. */
  predicate Forward(times: seq<int>) {
    |times| < 2 || (Forward(times[..|times| - 1]) && times[|times| - 2] <= times[|times| - 1])
  }

  predicate NoLater(times: seq<int>, t: int) { times == [] || times[|times| - 1] <= t }

  lemma {:induction false} ForwardLast(times: seq<int>, t: int)
    ensures Forward(times + [t]) <==> Forward(times) && NoLater(times, t)
  {
    assert (times + [t])[..|times|] == times;
  }

  lemma {:induction false} FirstIsLeast(times: seq<int>)
    requires Forward(times) && times != []
    ensures times[0] <= times[|times| - 1]
  {
    if |times| > 1 { FirstIsLeast(times[..|times| - 1]); }
  }

  lemma {:induction false} Last(times: seq<int>)
    requires times != []
    ensures times == times[..|times| - 1] + [times[|times| - 1]]
  {
  }

  lemma {:induction false} RecentNext(h: seq<int>, t: int, threshold: int)
    ensures Recent(h + [t], threshold) == Recent(h, threshold) + if t > threshold then [t] else []
  {
    assert (h + [t])[..|h|] == h;
  }

  lemma {:induction false} HistoryNext(times: seq<int>, now: int, l: Limits)
    ensures var h := History(times, l);
      History(times + [now], l) == if Admits(Recent(h, now - l.windowMs), l) then h + [now] else h
  {
    hide Decide;
    assert (times + [now])[..|times|] == times;
  }

  lemma {:induction false} KeptNext(times: seq<int>, now: int, l: Limits)
    ensures Kept(times + [now], l) == Checked(Kept(times, l), now, l).0
  {
    hide Decide;
    assert (times + [now])[..|times|] == times;
  }

  lemma {:induction false} RecentAgain(h: seq<int>, low: int, high: int)
    requires low <= high
    ensures Recent(Recent(h, low), high) == Recent(h, high)
  {
    if h != [] {
      var rest, t := h[..|h| - 1], h[|h| - 1];
      RecentAgain(rest, low, high);
      Last(h);
      RecentNext(rest, t, low);
      RecentNext(rest, t, high);
      RecentNext(Recent(rest, low), t, high);
      hide Recent;
      Nothing(Recent(rest, low));
      Nothing(Recent(rest, high));
    }
  }

  lemma {:induction false} Nothing(s: seq<int>)
    ensures s + [] == s
  {
  }

  lemma {:induction false} RecentAfter(s: seq<int>, t: int, low: int, high: int)
    requires low <= high
    ensures Recent(Recent(s, low) + [t], high) == Recent(s + [t], high)
  {
    RecentAgain(s, low, high);
    hide Recent;
    RecentNext(Recent(s, low), t, high);
    RecentNext(s, t, high);
  }

  /** Lists that look alike above `low` are still alike above `high` after a check at `t`. */
  lemma {:induction false} CheckedAlike(k: seq<int>, h: seq<int>, t: int, low: int, high: int, l: Limits)
    requires low <= high && Recent(k, low) == Recent(h, low)
    ensures Recent(if Admits(Recent(k, low), l) then Recent(k, low) + [t] else Recent(k, low), high) ==
            Recent(if Admits(Recent(h, low), l) then h + [t] else h, high)
  {
    hide Recent, Admits;
    if Admits(Recent(k, low), l) {
      RecentAfter(h, t, low, high);
    } else {
      RecentAgain(h, low, high);
    }
  }

  lemma {:induction false} KeptIsRecent(times: seq<int>, l: Limits, high: int)
    requires Forward(times) && (times != [] ==> times[|times| - 1] - l.windowMs <= high)
    ensures Recent(Kept(times, l), high) == Recent(History(times, l), high)
  {
    hide Decide, Recent;
    if times != [] {
      var early, last := times[..|times| - 1], times[|times| - 1];
      Last(times);
      ForwardLast(early, last);
      hide Forward;
      KeptIsRecent(early, l, last - l.windowMs);
      HistoryNext(early, last, l);
      KeptNext(early, last, l);
      hide Kept, History;
      CheckedAlike(Kept(early, l), History(early, l), last, last - l.windowMs, high, l);
    }
  }

  /** The list kept is the part of the full history that the last check could still see, so the
      limiter decides every check exactly as the full history would. */
  lemma {:induction false} KeptDecidesAsHistory(times: seq<int>, l: Limits, now: int)
    requires Forward(times + [now])
    ensures Checked(Kept(times, l), now, l).1 == Decide(Recent(History(times, l), now - l.windowMs), now, l)
  {
    ForwardLast(times, now);
    hide Decide, Recent, Forward, Kept, History;
    KeptIsRecent(times, l, now - l.windowMs);
  }

  // ---------------------------------------------------------------- what the limiter promises

  function CountIn(h: seq<int>, from: int, to: int): nat {
    if h == [] then 0
    else
      var t := h[|h| - 1];
      CountIn(h[..|h| - 1], from, to) + if from <= t < to then 1 else 0
  }

  lemma {:induction false} CountRecent(h: seq<int>, from: int, to: int, threshold: int)
    requires threshold < from
    ensures CountIn(h, from, to) <= |Recent(h, threshold)|
  {
    if h != [] { CountRecent(h[..|h| - 1], from, to, threshold); }
  }

  lemma {:induction false} CountNext(h: seq<int>, t: int, from: int, to: int)
    ensures CountIn(h + [t], from, to) == CountIn(h, from, to) + if from <= t < to then 1 else 0
  {
    assert (h + [t])[..|h|] == h;
  }

  /** No window of the configured length, wherever it lies, holds more allowed checks than the limit. */
  lemma {:induction false} AtMostPerWindow(times: seq<int>, l: Limits, from: int)
    requires l.maxRequests >= 1 && Forward(times)
    ensures CountIn(History(times, l), from, from + l.windowMs) <= l.maxRequests
  {
    hide Decide;
    if times == [] {
      assert CountIn([], from, from + l.windowMs) == 0;
    } else {
      var early, now := times[..|times| - 1], times[|times| - 1];
      AtMostPerWindow(early, l, from);
      var h := History(early, l);
      hide CountIn, Recent, Forward;
      CountNext(h, now, from, from + l.windowMs);
      if from <= now < from + l.windowMs { CountRecent(h, from, from + l.windowMs, now - l.windowMs); }
    }
  }

  /** A denied check leaves no trace: later checks are allowed exactly as if it had not been made. */
  lemma {:induction false} DeniedCostsNothing(before: seq<int>, now: int, after: seq<int>, l: Limits)
    requires !Admits(Recent(History(before, l), now - l.windowMs), l)
    ensures History(before + [now] + after, l) == History(before + after, l)
    decreases |after|
  {
    hide Decide;
    if after == [] {
      Nothing(before + [now]);
      Nothing(before);
      HistoryNext(before, now, l);
    } else {
      var n := |after| - 1;
      DeniedCostsNothing(before, now, after[..n], l);
      SameNext(before + [now] + after[..n], before + after[..n], after[n], l);
      hide History, Recent;
      Last(after);
      AppendLast(before + [now], after[..n], after[n]);
      AppendLast(before, after[..n], after[n]);
    }
  }

  lemma {:induction false} AppendLast(a: seq<int>, b: seq<int>, t: int)
    ensures a + (b + [t]) == (a + b) + [t]
  {
  }

  lemma {:induction false} SameNext(a: seq<int>, b: seq<int>, t: int, l: Limits)
    requires History(a, l) == History(b, l)
    ensures History(a + [t], l) == History(b + [t], l)
  {
    HistoryNext(a, t, l);
    HistoryNext(b, t, l);
  }

  lemma {:induction false} RecentOf(h: seq<int>, threshold: int, bound: int)
    requires Forward(h) && NoLater(h, bound)
    ensures var r := Recent(h, threshold); |r| <= |h| && Forward(r) && NoLater(r, bound) && (r != [] ==> r[0] > threshold)
  {
    if h != [] {
      var rest, t := h[..|h| - 1], h[|h| - 1];
      Last(h);
      ForwardLast(rest, t);
      RecentOf(rest, threshold, t);
      ForwardLast(Recent(rest, threshold), t);
      RecentNext(rest, t, threshold);
      hide Recent, Forward;
      Nothing(Recent(rest, threshold));
    }
  }

  /** The list kept is in order, within the limit and not newer than the last check. */
  lemma {:induction false} KeptInOrder(times: seq<int>, l: Limits, bound: int)
    requires Forward(times) && NoLater(times, bound) && l.maxRequests >= 1
    ensures Forward(Kept(times, l)) && |Kept(times, l)| <= l.maxRequests && NoLater(Kept(times, l), bound)
  {
    hide Decide;
    if times != [] {
      var early, now := times[..|times| - 1], times[|times| - 1];
      Last(times);
      ForwardLast(early, now);
      KeptInOrder(early, l, now);
      KeptNext(early, now, l);
      hide Kept;
      CheckedInOrder(Kept(early, l), now, l);
    }
  }

  lemma {:induction false} CheckedInOrder(k: seq<int>, now: int, l: Limits)
    requires Forward(k) && |k| <= l.maxRequests && NoLater(k, now)
    ensures var c := Checked(k, now, l).0; Forward(c) && |c| <= l.maxRequests && NoLater(c, now)
  {
    hide Decide, Recent, Forward;
    RecentOf(k, now - l.windowMs, now);
    ForwardLast(Recent(k, now - l.windowMs), now);
  }

  /** In a list in order, what is past a threshold is all of it if the first is, and less otherwise. */
  lemma {:induction false} RecentAll(h: seq<int>, threshold: int)
    requires Forward(h) && h != []
    ensures h[0] > threshold ==> Recent(h, threshold) == h
    ensures h[0] <= threshold ==> |Recent(h, threshold)| < |h|
  {
    var rest, t := h[..|h| - 1], h[|h| - 1];
    Last(h);
    ForwardLast(rest, t);
    RecentNext(rest, t, threshold);
    if rest == [] {
      assert Recent(rest, threshold) == [];
    } else {
      RecentAll(rest, threshold);
      FirstIsLeast(h);
    }
  }

  /** After a denial at `now` with nothing else admitted, a check is allowed exactly from the moment
      the oldest kept timestamp leaves the window, and `retryAfterSeconds` is the first whole number
      of seconds, at least one, after which that is so. */
  lemma {:induction false} RetryExact(times: seq<int>, l: Limits, now: int, later: int)
    requires Forward(times + [now]) && l.maxRequests >= 1 && later >= now
    requires Checked(Kept(times, l), now, l).1.Denied?
    ensures var (kept, d) := Checked(Kept(times, l), now, l);
      kept != [] && d.retryAfterSeconds.Some? &&
      (Checked(kept, later, l).1.Allowed? <==> later >= kept[0] + l.windowMs) &&
      now + 1000 * d.retryAfterSeconds.value >= kept[0] + l.windowMs > now + 1000 * (d.retryAfterSeconds.value - 1)
  {
    hide CeilSeconds, Kept, Recent, Forward, Decide, Admits;
    DeniedState(times, l, now);
    RetryFrom(Recent(Kept(times, l), now - l.windowMs), l, now, later);
  }

  lemma {:induction false} RetryFrom(kept: seq<int>, l: Limits, now: int, later: int)
    requires Forward(kept) && |kept| == l.maxRequests >= 1 && kept[0] > now - l.windowMs && later >= now
    ensures var r := Max(1, CeilSeconds(kept[0] + l.windowMs - now));
      (Checked(kept, later, l).1.Allowed? <==> later >= kept[0] + l.windowMs) &&
      now + 1000 * r >= kept[0] + l.windowMs > now + 1000 * (r - 1)
  {
    hide CeilSeconds, Recent, Forward;
    RecentAll(kept, later - l.windowMs);
    CeilExact(kept[0] + l.windowMs - now);
  }

  /** A denial finds the list full, with its first entry still inside the window. */
  lemma {:induction false} DeniedState(times: seq<int>, l: Limits, now: int)
    requires Forward(times + [now]) && l.maxRequests >= 1 && Checked(Kept(times, l), now, l).1.Denied?
    ensures var (kept, d) := Checked(Kept(times, l), now, l);
      kept == Recent(Kept(times, l), now - l.windowMs) &&
      Forward(kept) && |kept| == l.maxRequests && kept[0] > now - l.windowMs &&
      d == Denied(Some(Max(1, CeilSeconds(kept[0] + l.windowMs - now))))
  {
    hide CeilSeconds;
    ForwardLast(times, now);
    KeptInOrder(times, l, now);
    hide Kept, Recent, Forward;
    RecentOf(Kept(times, l), now - l.windowMs, now);
  }

  lemma {:induction false} CeilExact(ms: int)
    requires ms >= 1
    ensures CeilSeconds(ms) >= 1 && 1000 * CeilSeconds(ms) >= ms > 1000 * (CeilSeconds(ms) - 1)
  {
  }

  /** So waiting as long as the limiter says, with nothing else admitted, makes the next check succeed. */
  lemma {:induction false} WaitingWorks(times: seq<int>, l: Limits, now: int)
    requires Forward(times + [now]) && l.maxRequests >= 1
    requires Checked(Kept(times, l), now, l).1.Denied?
    ensures var (kept, d) := Checked(Kept(times, l), now, l);
      d.retryAfterSeconds.Some? && Checked(kept, now + 1000 * d.retryAfterSeconds.value, l).1.Allowed?
  {
    hide CeilSeconds, Kept, Recent, Forward, Decide, Admits;
    var d := Checked(Kept(times, l), now, l).1;
    DeniedWaits(times, l, now);
    RetryExact(times, l, now, now + 1000 * d.retryAfterSeconds.value);
  }

  lemma {:induction false} DeniedWaits(times: seq<int>, l: Limits, now: int)
    requires Forward(times + [now]) && l.maxRequests >= 1 && Checked(Kept(times, l), now, l).1.Denied?
    ensures var d := Checked(Kept(times, l), now, l).1; d.retryAfterSeconds.Some? && d.retryAfterSeconds.value >= 1
  {
    hide CeilSeconds, Kept, Recent, Forward, Decide, Admits;
    DeniedState(times, l, now);
  }
}
