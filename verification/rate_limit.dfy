/**
 The in-memory limiter (`rate_limit.py`). It keeps one deque of times per key and forgets what has left
 the window; `Record` is the rule it stands for, which forgets nothing and counts. Times are exact reals.
 */
module RateLimit {
  import opened Wrappers

  type Times = seq<real>
  type Events = map<string, Times>

  datatype Call = Allow(key: string, now: real) | Reset(keys: Option<string>)

  datatype Limit = Limit(maxEvents: int, window: real)

  /** A defaultdict lookup. */
  function Get(e: Events, key: string): Times
  {
    if key in e then e[key] else []
  }

  function Pruned(dq: Times, cutoff: real): Times
  {
    if dq != [] && dq[0] < cutoff then Pruned(dq[1..], cutoff) else dq
  }

  function Forget(e: Events, keys: Option<string>): Events
  {
    match keys
    case None => map[]
    case Some(key) => map k | k in e && k != key :: e[k]
  }

  /** One call of the limiter: the deques it leaves and its answer. */
  function Next(l: Limit, e: Events, c: Call): (Events, bool)
  {
    match c
    case Reset(keys) => (Forget(e, keys), true)
    case Allow(key, now) =>
      if key == "" then (e, true)
      else
        var dq := Pruned(Get(e, key), now - l.window);
        if |dq| >= l.maxEvents then (e[key := dq], false) else (e[key := dq + [now]], true)
  }

  class SlidingWindowLimiter {
    const limit: Limit
    var events: Events

    constructor (maxEvents: int, windowSeconds: real)
      ensures limit == Limit(if maxEvents < 1 then 1 else maxEvents, windowSeconds) && events == map[]
    {
      limit := Limit(if maxEvents < 1 then 1 else maxEvents, windowSeconds);
      events := map[];
    }

    method AllowEvent(key: string, now: real) returns (allowed: bool)
      modifies this
      ensures (events, allowed) == Next(limit, old(events), Allow(key, now))
    {
      if key == "" {
        return true;
      }
      var cutoff := now - limit.window;
      var dq := Get(events, key);
      while dq != [] && dq[0] < cutoff
        invariant Pruned(dq, cutoff) == Pruned(Get(old(events), key), cutoff)
        invariant events == old(events)
        decreases |dq|
      {
        dq := dq[1..];
      }
      events := events[key := dq];
      if |dq| >= limit.maxEvents {
        return false;
      }
      events := events[key := dq + [now]];
      assert events == old(events)[key := dq + [now]];
      return true;
    }

    method ResetKey(keys: Option<string>)
      modifies this
      ensures events == Next(limit, old(events), Reset(keys)).0
    {
      match keys
      case None => events := map[];
      case Some(key) => events := map k | k in events && k != key :: events[k];
    }
  }

  // ---- The full-history rule ----------------------------------------------------------------------

  /** How many of the times lie in the closed interval [lo, hi]. */
  function Recent(h: Times, lo: real, hi: real): nat
  {
    if h == [] then 0 else (if lo <= h[0] <= hi then 1 else 0) + Recent(h[1..], lo, hi)
  }

  /**
   The rule: an event is allowed unless maxEvents allowed events of its key, since the key was last reset,
   lie in [now - window, now]. The history holds every allowed event.
   */
  function Record(l: Limit, h: Events, c: Call): (Events, bool)
  {
    match c
    case Reset(keys) => (Forget(h, keys), true)
    case Allow(key, now) =>
      if key == "" then (h, true)
      else if Recent(Get(h, key), now - l.window, now) >= l.maxEvents then (h, false)
      else (h[key := Get(h, key) + [now]], true)
  }

  datatype Trace = Trace(events: Events, answers: seq<bool>)

  /** The calls of a run, made on the limiter ... */
  function Limited(l: Limit, calls: seq<Call>): Trace
  {
    if calls == [] then Trace(map[], [])
    else
      var t := Limited(l, calls[..|calls| - 1]);
      var r := Next(l, t.events, calls[|calls| - 1]);
      Trace(r.0, t.answers + [r.1])
  }

  /** ... and answered by the rule. */
  function Recorded(l: Limit, calls: seq<Call>): Trace
  {
    if calls == [] then Trace(map[], [])
    else
      var t := Recorded(l, calls[..|calls| - 1]);
      var r := Record(l, t.events, calls[|calls| - 1]);
      Trace(r.0, t.answers + [r.1])
  }

  /** The times of the calls never decrease, and end by `now`. */
  predicate Clocked(calls: seq<Call>, now: real)
  {
    calls == [] ||
    match calls[|calls| - 1]
    case Allow(_, t) => t <= now && Clocked(calls[..|calls| - 1], t)
    case Reset(_) => Clocked(calls[..|calls| - 1], now)
  }

  // ---- Refinement -----------------------------------------------------------------------------------

  predicate Ordered(h: Times, now: real)
  {
    && (forall i, j :: 0 <= i < j < |h| ==> h[i] <= h[j])
    && forall i :: 0 <= i < |h| ==> h[i] <= now
  }

  /** The deque is the end of the history, and what it lacks has left the window. */
  predicate Matches(dq: Times, h: Times, cutoff: real)
  {
    && |dq| <= |h| && dq == h[|h| - |dq|..]
    && forall i :: 0 <= i < |h| - |dq| ==> h[i] < cutoff
  }

  predicate RefinesAt(l: Limit, dq: Times, h: Times, now: real)
  {
    Matches(dq, h, now - l.window) && Ordered(h, now)
  }

  ghost predicate Refines(l: Limit, e: Events, h: Events, now: real)
  {
    forall key :: RefinesAt(l, Get(e, key), Get(h, key), now)
  }

  /** Pruning what has left a window that opens no later. */
  lemma {:induction false} PrunedMatches(dq: Times, h: Times, cutoff: real, c: real)
    requires Matches(dq, h, cutoff) && c <= cutoff
    ensures Matches(Pruned(dq, c), h, cutoff)
    ensures Pruned(dq, c) == [] || Pruned(dq, c)[0] >= c
    decreases |dq|
  {
    if dq != [] && dq[0] < c {
      assert dq[0] == h[|h| - |dq|];
      PrunedMatches(dq[1..], h, cutoff, c);
    }
  }

  lemma {:induction false} RecentSplit(a: Times, b: Times, lo: real, hi: real)
    ensures Recent(a + b, lo, hi) == Recent(a, lo, hi) + Recent(b, lo, hi)
  {
    if a == [] {
      assert a + b == b;
    } else {
      assert (a + b)[1..] == a[1..] + b;
      RecentSplit(a[1..], b, lo, hi);
    }
  }

  lemma {:induction false} RecentAllOrNone(h: Times, lo: real, hi: real)
    ensures (forall i :: 0 <= i < |h| ==> lo <= h[i] <= hi) ==> Recent(h, lo, hi) == |h|
    ensures (forall i :: 0 <= i < |h| ==> h[i] < lo) ==> Recent(h, lo, hi) == 0
  {
    if h != [] {
      RecentAllOrNone(h[1..], lo, hi);
    }
  }

  /** The length of the pruned deque is the number of allowed events in the window. */
  lemma PrunedCounts(dq: Times, h: Times, cutoff: real, now: real)
    requires Matches(dq, h, cutoff) && Ordered(h, now)
    ensures |Pruned(dq, cutoff)| == Recent(h, cutoff, now)
  {
    PrunedMatches(dq, h, cutoff, cutoff);
    var p := Pruned(dq, cutoff);
    var k := |h| - |p|;
    assert h == h[..k] + p;
    forall i | 0 <= i < |p|
      ensures cutoff <= p[i] <= now
    {
      assert p[i] == h[k + i] && p[0] == h[k];
    }
    RecentSplit(h[..k], p, cutoff, now);
    RecentAllOrNone(h[..k], cutoff, now);
    RecentAllOrNone(p, cutoff, now);
  }

  lemma LaterRefinesAt(l: Limit, dq: Times, h: Times, before: real, now: real)
    requires RefinesAt(l, dq, h, before) && before <= now
    ensures RefinesAt(l, dq, h, now)
  {
  }

  lemma SnocRefines(l: Limit, dq: Times, h: Times, now: real)
    requires RefinesAt(l, dq, h, now)
    ensures RefinesAt(l, dq + [now], h + [now], now)
  {
    var k := |h| - |dq|;
    assert (h + [now])[k..] == h[k..] + [now];
  }

  lemma AdmitRefines(l: Limit, dq: Times, h: Times, now: real)
    requires RefinesAt(l, dq, h, now)
    ensures var p := Pruned(dq, now - l.window);
            |p| == Recent(h, now - l.window, now) && RefinesAt(l, p, h, now) && RefinesAt(l, p + [now], h + [now], now)
  {
    PrunedMatches(dq, h, now - l.window, now - l.window);
    PrunedCounts(dq, h, now - l.window, now);
    SnocRefines(l, Pruned(dq, now - l.window), h, now);
  }

  /** What one call does to the deque of one key ... */
  function NextDeque(l: Limit, dq: Times, c: Call, key: string): Times
  {
    match c
    case Reset(keys) => if keys.None? || keys.value == key then [] else dq
    case Allow(other, now) =>
      if other == "" || other != key then dq
      else
        var p := Pruned(dq, now - l.window);
        if |p| >= l.maxEvents then p else p + [now]
  }

  /** ... and to its history. */
  function NextHistory(l: Limit, h: Times, c: Call, key: string): Times
  {
    match c
    case Reset(keys) => if keys.None? || keys.value == key then [] else h
    case Allow(other, now) =>
      if other == "" || other != key || Recent(h, now - l.window, now) >= l.maxEvents then h else h + [now]
  }

  lemma NextAt(l: Limit, e: Events, c: Call, key: string)
    ensures Get(Next(l, e, c).0, key) == NextDeque(l, Get(e, key), c, key)
  {
  }

  lemma RecordAt(l: Limit, h: Events, c: Call, key: string)
    ensures Get(Record(l, h, c).0, key) == NextHistory(l, Get(h, key), c, key)
  {
  }

  lemma NextDequeRefines(l: Limit, dq: Times, h: Times, c: Call, now: real, key: string)
    requires RefinesAt(l, dq, h, now) && (c.Allow? ==> c.now == now)
    ensures RefinesAt(l, NextDeque(l, dq, c, key), NextHistory(l, h, c, key), now)
  {
    if c.Allow? && c.key == key != "" {
      AdmitRefines(l, dq, h, now);
    }
  }

  lemma NextRefinesAt(l: Limit, e: Events, h: Events, c: Call, now: real, key: string)
    requires RefinesAt(l, Get(e, key), Get(h, key), now) && (c.Allow? ==> c.now == now)
    ensures RefinesAt(l, Get(Next(l, e, c).0, key), Get(Record(l, h, c).0, key), now)
  {
    NextDequeRefines(l, Get(e, key), Get(h, key), c, now, key);
    NextAt(l, e, c, key);
    RecordAt(l, h, c, key);
  }

  lemma AnswersAgree(l: Limit, e: Events, h: Events, key: string, now: real)
    requires RefinesAt(l, Get(e, key), Get(h, key), now)
    ensures var count := Recent(Get(h, key), now - l.window, now);
            Next(l, e, Allow(key, now)).1 == Record(l, h, Allow(key, now)).1 == (key == "" || count < l.maxEvents)
  {
    PrunedCounts(Get(e, key), Get(h, key), now - l.window, now);
  }

  lemma NextRefines(l: Limit, e: Events, h: Events, before: real, c: Call, now: real)
    requires Refines(l, e, h, before) && before <= now && (c.Allow? ==> c.now == now)
    ensures Next(l, e, c).1 == Record(l, h, c).1
    ensures Refines(l, Next(l, e, c).0, Record(l, h, c).0, now)
  {
    LaterRefines(l, e, h, before, now);
    forall key
      ensures RefinesAt(l, Get(Next(l, e, c).0, key), Get(Record(l, h, c).0, key), now)
    {
      NextRefinesAt(l, e, h, c, now, key);
    }
    if c.Allow? {
      AnswersAgree(l, e, h, c.key, now);
    }
  }

  lemma LaterRefines(l: Limit, e: Events, h: Events, before: real, now: real)
    requires Refines(l, e, h, before) && before <= now
    ensures Refines(l, e, h, now)
  {
    forall key
      ensures RefinesAt(l, Get(e, key), Get(h, key), now)
    {
      LaterRefinesAt(l, Get(e, key), Get(h, key), before, now);
    }
  }

  /**
   Over any run whose clock does not go back, the limiter gives the answers of the full-history rule, and
   each deque is the end of its key's history, from the first event that has not left the window.
   */
  lemma {:induction false} LimiterRefinesHistory(l: Limit, calls: seq<Call>, now: real)
    requires Clocked(calls, now)
    ensures Limited(l, calls).answers == Recorded(l, calls).answers
    ensures Refines(l, Limited(l, calls).events, Recorded(l, calls).events, now)
  {
    if calls != [] {
      var prefix, c := calls[..|calls| - 1], calls[|calls| - 1];
      var before := if c.Allow? then c.now else now;
      LimiterRefinesHistory(l, prefix, before);
      NextRefines(l, Limited(l, prefix).events, Recorded(l, prefix).events, before, c, before);
      LaterRefines(l, Limited(l, calls).events, Recorded(l, calls).events, before, now);
    }
  }

  // ---- The bound ------------------------------------------------------------------------------------

  /** The times of the events of a key that the limiter itself has allowed since the key was last reset. */
  function Allowed(l: Limit, calls: seq<Call>, key: string): Times
  {
    if calls == [] then []
    else
      var prefix, c := calls[..|calls| - 1], calls[|calls| - 1];
      AllowedNext(l, Get(Limited(l, prefix).events, key), Allowed(l, prefix, key), c, key)
  }

  function AllowedNext(l: Limit, dq: Times, h: Times, c: Call, key: string): Times
  {
    match c
    case Reset(keys) => if keys.None? || keys.value == key then [] else h
    case Allow(other, now) =>
      if other == "" || other != key || |Pruned(dq, now - l.window)| >= l.maxEvents then h else h + [now]
  }

  lemma AllowedStep(l: Limit, calls: seq<Call>, key: string)
    requires calls != []
    ensures var prefix, c := calls[..|calls| - 1], calls[|calls| - 1];
            var dq := Get(Limited(l, prefix).events, key);
            && Get(Limited(l, calls).events, key) == NextDeque(l, dq, c, key)
            && Allowed(l, calls, key) == AllowedNext(l, dq, Allowed(l, prefix, key), c, key)
  {
    hide NextDeque, AllowedNext, Next;
    NextAt(l, Limited(l, calls[..|calls| - 1]).events, calls[|calls| - 1], key);
  }

  /** No call is stamped more than `skew` before an earlier one. */
  predicate Skewed(calls: seq<Call>, skew: real)
  {
    calls == [] ||
    (var prefix, c := calls[..|calls| - 1], calls[|calls| - 1];
     Skewed(prefix, skew) && (c.Allow? ==> NoneAfter(prefix, c.now + skew)))
  }

  predicate NoneAfter(calls: seq<Call>, top: real)
  {
    forall i :: 0 <= i < |calls| && calls[i].Allow? ==> calls[i].now <= top
  }

  lemma DequeStepMatches(l: Limit, dq: Times, h: Times, c: Call, key: string, top: real)
    requires Matches(dq, h, top - l.window) && (c.Allow? ==> c.now <= top)
    ensures Matches(NextDeque(l, dq, c, key), AllowedNext(l, dq, h, c, key), top - l.window)
  {
    if c.Allow? {
      PrunedMatches(dq, h, top - l.window, c.now - l.window);
      MatchesGrows(Pruned(dq, c.now - l.window), h, top - l.window, c.now);
    }
  }

  lemma MatchesGrows(dq: Times, h: Times, cutoff: real, now: real)
    requires Matches(dq, h, cutoff)
    ensures Matches(dq + [now], h + [now], cutoff)
  {
    var k := |h| - |dq|;
    assert (h + [now])[k..] == h[k..] + [now];
  }

  /** Whatever the clock does, the deque is the end of what was allowed; the rest has left the window of some call. */
  lemma {:induction false} DequeEndsAllowed(l: Limit, calls: seq<Call>, key: string, top: real)
    requires NoneAfter(calls, top)
    ensures Matches(Get(Limited(l, calls).events, key), Allowed(l, calls, key), top - l.window)
  {
    hide NextDeque, AllowedNext, Allowed, Limited, Matches;
    if calls == [] {
      NothingAllowed(l, key, top - l.window);
    } else {
      var prefix, c := calls[..|calls| - 1], calls[|calls| - 1];
      DequeEndsAllowed(l, prefix, key, top);
      DequeStepMatches(l, Get(Limited(l, prefix).events, key), Allowed(l, prefix, key), c, key, top);
      AllowedStep(l, calls, key);
    }
  }

  lemma NothingAllowed(l: Limit, key: string, cutoff: real)
    ensures Get(Limited(l, []).events, key) == [] && Allowed(l, [], key) == [] && Matches([], [], cutoff)
  {
  }

  /** An allowed event joins fewer than maxEvents others in any window that starts after those that left the deque. */
  lemma AdmitKeepsBound(l: Limit, dq: Times, h: Times, now: real, cutoff: real, lo: real, hi: real)
    requires Matches(dq, h, cutoff) && |dq| < l.maxEvents && Recent(h, lo, hi) <= l.maxEvents
    requires lo <= now <= hi ==> cutoff <= lo
    ensures Recent(h + [now], lo, hi) <= l.maxEvents
  {
    RecentSplit(h, [now], lo, hi);
    var k := |h| - |dq|;
    assert h == h[..k] + dq;
    RecentSplit(h[..k], dq, lo, hi);
    RecentAllOrNone(h[..k], lo, hi);
    RecentAtMost(dq, lo, hi);
  }

  lemma {:induction false} RecentAtMost(h: Times, lo: real, hi: real)
    ensures Recent(h, lo, hi) <= |h|
  {
    if h != [] {
      RecentAtMost(h[1..], lo, hi);
    }
  }

  lemma SkewStepKeepsBound(l: Limit, dq: Times, h: Times, c: Call, key: string, skew: real, lo: real)
    requires l.maxEvents >= 1 && Recent(h, lo, lo + l.window - skew) <= l.maxEvents && skew >= 0.0
    requires c.Allow? ==> Matches(dq, h, c.now + skew - l.window)
    ensures Recent(AllowedNext(l, dq, h, c, key), lo, lo + l.window - skew) <= l.maxEvents
  {
    if c.Allow? && |Pruned(dq, c.now - l.window)| < l.maxEvents {
      PrunedMatches(dq, h, c.now + skew - l.window, c.now - l.window);
      AdmitKeepsBound(l, Pruned(dq, c.now - l.window), h, c.now, c.now + skew - l.window, lo, lo + l.window - skew);
    }
  }

  /**
   With a clock that goes back by at most `skew`, any closed window that much shorter holds at most maxEvents allowed
   events.
   */
  lemma {:induction false} ShorterWindowsHold(l: Limit, calls: seq<Call>, skew: real, key: string, lo: real)
    requires l.maxEvents >= 1 && skew >= 0.0 && Skewed(calls, skew)
    ensures Recent(Allowed(l, calls, key), lo, lo + l.window - skew) <= l.maxEvents
  {
    hide AllowedNext, Allowed, Limited, Matches, NextDeque;
    if calls == [] {
      NothingAllowed(l, key, 0.0);
    } else {
      var prefix, c := calls[..|calls| - 1], calls[|calls| - 1];
      ShorterWindowsHold(l, prefix, skew, key, lo);
      if c.Allow? {
        DequeEndsAllowed(l, prefix, key, c.now + skew);
      }
      SkewStepKeepsBound(l, Get(Limited(l, prefix).events, key), Allowed(l, prefix, key), c, key, skew, lo);
      AllowedStep(l, calls, key);
    }
  }

  // ---- A limit of one -------------------------------------------------------------------------------

  /** Each event comes more than a window after the one before it, and only the last one is kept. */
  predicate Apart(dq: Times, h: Times, window: real)
  {
    && dq == (if h == [] then [] else [h[|h| - 1]])
    && forall i :: 0 <= i < |h| - 1 ==> h[i] + window < h[i + 1]
  }

  lemma OneStepApart(l: Limit, dq: Times, h: Times, c: Call, key: string)
    requires l.maxEvents == 1 && Apart(dq, h, l.window)
    ensures Apart(NextDeque(l, dq, c, key), AllowedNext(l, dq, h, c, key), l.window)
  {
    if c.Allow? && dq != [] {
      assert dq[1..] == [] && Pruned([], c.now - l.window) == [];
    }
  }

  lemma {:induction false} OneEventApart(l: Limit, calls: seq<Call>, key: string)
    requires l.maxEvents == 1
    ensures Apart(Get(Limited(l, calls).events, key), Allowed(l, calls, key), l.window)
  {
    hide NextDeque, AllowedNext, Allowed, Limited;
    if calls == [] {
      NothingAllowed(l, key, 0.0);
    } else {
      var prefix, c := calls[..|calls| - 1], calls[|calls| - 1];
      OneEventApart(l, prefix, key);
      OneStepApart(l, Get(Limited(l, prefix).events, key), Allowed(l, prefix, key), c, key);
      AllowedStep(l, calls, key);
    }
  }

  lemma {:induction false} ApartMeansOne(h: Times, window: real, lo: real)
    requires forall i :: 0 <= i < |h| - 1 ==> h[i] + window < h[i + 1]
    ensures Recent(h, lo, lo + window) <= 1
    ensures window >= 0.0 && h != [] && h[0] > lo + window ==> Recent(h, lo, lo + window) == 0
  {
    if h != [] {
      var rest := h[1..];
      forall i | 0 <= i < |rest| - 1
        ensures rest[i] + window < rest[i + 1]
      {
        assert h[i + 1] + window < h[i + 1 + 1];
      }
      ApartMeansOne(rest, window, lo);
      if |h| > 1 {
        assert h[0] + window < h[0 + 1];
      }
    }
  }

  // ---- The exact condition --------------------------------------------------------------------------

  /**
   At most maxEvents events of a key are allowed in any closed window of that length, between resets of the key, if the
   clock does not go back; a limiter of one event needs no such clock.
   */
  lemma NoWindowExceedsLimit(l: Limit, calls: seq<Call>, key: string, lo: real)
    requires l.maxEvents >= 1 && (Skewed(calls, 0.0) || l.maxEvents == 1)
    ensures Recent(Allowed(l, calls, key), lo, lo + l.window) <= l.maxEvents
  {
    hide Allowed, Limited;
    if l.maxEvents == 1 {
      OneEventApart(l, calls, key);
      ApartMeansOne(Allowed(l, calls, key), l.window, lo);
    } else {
      ShorterWindowsHold(l, calls, 0.0, key, lo);
    }
  }

  predicate WithinLimit(l: Limit, calls: seq<Call>, key: string, lo: real)
  {
    Recent(Allowed(l, calls, key), lo, lo + l.window) <= l.maxEvents
  }

  function Zeros(k: nat): Times
  {
    if k == 0 then [] else Zeros(k - 1) + [0.0]
  }

  /** `k` calls at time 0. */
  function Burst(key: string, k: nat): seq<Call>
  {
    if k == 0 then [] else Burst(key, k - 1) + [Allow(key, 0.0)]
  }

  lemma {:induction false} ZerosAreZero(k: nat)
    ensures |Zeros(k)| == k && forall i :: 0 <= i < k ==> Zeros(k)[i] == 0.0
  {
    if k > 0 {
      ZerosAreZero(k - 1);
    }
  }

  lemma {:induction false} AllPruned(dq: Times, cutoff: real)
    requires forall i :: 0 <= i < |dq| ==> dq[i] < cutoff
    ensures Pruned(dq, cutoff) == []
  {
    if dq != [] {
      AllPruned(dq[1..], cutoff);
    }
  }

  /** One more call of a run, on the deque and on what is allowed. */
  lemma Extended(l: Limit, calls: seq<Call>, key: string, now: real, skew: real)
    requires key != "" && Skewed(calls, skew) && NoneAfter(calls, now + skew)
    ensures var dq, h := Get(Limited(l, calls).events, key), Allowed(l, calls, key);
            var p, longer := Pruned(dq, now - l.window), calls + [Allow(key, now)];
            && Skewed(longer, skew)
            && Get(Limited(l, longer).events, key) == (if |p| >= l.maxEvents then p else p + [now])
            && Allowed(l, longer, key) == if |p| >= l.maxEvents then h else h + [now]
  {
    hide Limited, Allowed;
    var longer := calls + [Allow(key, now)];
    assert longer[..|longer| - 1] == calls;
    AllowedStep(l, longer, key);
  }

  /** After `k` allowed calls at time 0. */
  predicate Bursting(l: Limit, calls: seq<Call>, key: string, k: nat, skew: real)
  {
    && Skewed(calls, skew) && NoneAfter(calls, 0.0)
    && Get(Limited(l, calls).events, key) == Zeros(k) && Allowed(l, calls, key) == Zeros(k)
  }

  lemma BurstStep(l: Limit, calls: seq<Call>, key: string, k: nat, skew: real)
    requires key != "" && k < l.maxEvents && l.window >= 0.0 && skew >= 0.0 && Bursting(l, calls, key, k, skew)
    ensures Bursting(l, calls + [Allow(key, 0.0)], key, k + 1, skew)
  {
    hide Limited, Allowed, Skewed, Pruned;
    NonePruned(k, 0.0 - l.window);
    Extended(l, calls, key, 0.0, skew);
  }

  lemma {:induction false} BurstIsAllowed(l: Limit, key: string, k: nat, skew: real)
    requires key != "" && k <= l.maxEvents && l.window >= 0.0 && skew >= 0.0
    ensures Bursting(l, Burst(key, k), key, k, skew)
  {
    if k == 0 {
      NothingAllowed(l, key, 0.0);
    } else {
      hide Bursting;
      BurstIsAllowed(l, key, k - 1, skew);
      BurstStep(l, Burst(key, k - 1), key, k - 1, skew);
    }
  }

  lemma NonePruned(k: nat, cutoff: real)
    requires cutoff <= 0.0
    ensures Pruned(Zeros(k), cutoff) == Zeros(k) && |Zeros(k)| == k
  {
    ZerosAreZero(k);
  }

  /** A full burst at 0, one call at window + skew that makes the limiter forget it, and one at window. */
  lemma LateCallExceeds(l: Limit, key: string, skew: real) returns (calls: seq<Call>)
    requires key != "" && l.maxEvents >= 2 && l.window >= 0.0 && skew > 0.0
    ensures Skewed(calls, skew) && !WithinLimit(l, calls, key, 0.0)
  {
    hide Limited, Allowed, Skewed;
    var n, w := l.maxEvents, l.window;
    var burst := Burst(key, n);
    BurstIsAllowed(l, key, n, skew);
    ZerosAreZero(n);
    AllPruned(Zeros(n), skew);
    Extended(l, burst, key, w + skew, skew);
    var two := burst + [Allow(key, w + skew)];
    assert [] + [w + skew] == [w + skew] && Pruned([w + skew], 0.0) == [w + skew];
    Extended(l, two, key, w, skew);
    calls := two + [Allow(key, w)];
    RecentSplit(Zeros(n) + [w + skew], [w], 0.0, w);
    RecentSplit(Zeros(n), [w + skew], 0.0, w);
    RecentAllOrNone(Zeros(n), 0.0, w);
  }

  /**
   For a clock that may go back by `skew`, no closed window ever holds more than maxEvents allowed events exactly if it
   does not go back at all, or the limit is one.
   */
  lemma BoundHoldsIff(l: Limit, skew: real)
    requires l.maxEvents >= 1 && l.window >= 0.0 && skew >= 0.0
    ensures (forall calls, key, lo :: Skewed(calls, skew) ==> WithinLimit(l, calls, key, lo))
            <==> skew == 0.0 || l.maxEvents == 1
  {
    hide Allowed, Skewed;
    if skew == 0.0 || l.maxEvents == 1 {
      forall calls, key, lo | Skewed(calls, skew)
        ensures WithinLimit(l, calls, key, lo)
      {
        NoWindowExceedsLimit(l, calls, key, lo);
      }
    } else {
      var calls := LateCallExceeds(l, "k", skew);
      assert Skewed(calls, skew) && !WithinLimit(l, calls, "k", 0.0);
    }
  }

  // ---- Refusals -------------------------------------------------------------------------------------

  /** A clock that does not go back is one without skew. */
  lemma {:induction false} ClockedIff(calls: seq<Call>, now: real)
    ensures Clocked(calls, now) <==> Skewed(calls, 0.0) && NoneAfter(calls, now)
  {
    if calls != [] {
      var prefix, c := calls[..|calls| - 1], calls[|calls| - 1];
      ClockedIff(prefix, if c.Allow? then c.now else now);
      assert forall i :: 0 <= i < |prefix| ==> prefix[i] == calls[i];
      if NoneAfter(calls, now) {
        assert NoneAfter(prefix, now);
      }
    }
  }

  /** With such a clock the events the limiter allows are those the full-history rule records. */
  lemma {:induction false} AllowedIsRecorded(l: Limit, calls: seq<Call>, now: real, key: string)
    requires Clocked(calls, now)
    ensures Allowed(l, calls, key) == Get(Recorded(l, calls).events, key)
  {
    hide Matches, Ordered, Record, Next;
    if calls != [] {
      var prefix, c := calls[..|calls| - 1], calls[|calls| - 1];
      var before := if c.Allow? then c.now else now;
      AllowedIsRecorded(l, prefix, before, key);
      LimiterRefinesHistory(l, prefix, before);
      var dq, h := Get(Limited(l, prefix).events, key), Get(Recorded(l, prefix).events, key);
      assert RefinesAt(l, dq, h, before);
      PrunedCounts(dq, h, before - l.window, before);
      RecordAt(l, Recorded(l, prefix).events, c, key);
    }
  }

  /** A call is refused exactly when its key is not empty and maxEvents allowed events lie in [now - window, now]. */
  lemma RefusedExactlyWhenFull(l: Limit, calls: seq<Call>, key: string, now: real)
    requires l.maxEvents >= 1 && Clocked(calls, now)
    ensures !Next(l, Limited(l, calls).events, Allow(key, now)).1 <==>
            key != "" && Recent(Allowed(l, calls, key), now - l.window, now) == l.maxEvents
  {
    hide Skewed, NoneAfter, Clocked, Allowed, Recorded, Limited;
    var e, h := Limited(l, calls).events, Recorded(l, calls).events;
    LimiterRefinesHistory(l, calls, now);
    AnswersAgree(l, e, h, key, now);
    AllowedIsRecorded(l, calls, now, key);
    ClockedIff(calls, now);
    NoWindowExceedsLimit(l, calls, key, now - l.window);
  }

  /** The calls that concern one key. */
  function Only(calls: seq<Call>, key: string): seq<Call>
  {
    if calls == [] then []
    else
      var c := calls[|calls| - 1];
      Only(calls[..|calls| - 1], key) + if (c.Allow? && c.key == key)
        || (c.Reset? && (c.keys.None? || c.keys.value == key)) then [c] else []
  }

  /** Keys are independent: what is kept for a key, and so every answer for it, depends on its own calls only. */
  lemma {:induction false} KeysAreIndependent(l: Limit, calls: seq<Call>, key: string)
    ensures Get(Limited(l, calls).events, key) == Get(Limited(l, Only(calls, key)).events, key)
  {
    if calls != [] {
      var prefix, c := calls[..|calls| - 1], calls[|calls| - 1];
      KeysAreIndependent(l, prefix, key);
      NextAt(l, Limited(l, prefix).events, c, key);
      NextAt(l, Limited(l, Only(prefix, key)).events, c, key);
      if Only(calls, key) != Only(prefix, key) {
        assert Only(calls, key)[..|Only(calls, key)| - 1] == Only(prefix, key);
      }
    }
  }

  /**
   The clock matters: `now` comes from the caller, and a late event can be forgotten by a later call and then
   exceeded by an earlier one. Two events per ten seconds, and three are allowed between 100 and 110.
   */
  lemma LateClockExceedsLimit(key: string)
    requires key != ""
    ensures var l := Limit(2, 10.0);
            var calls := [Allow(key, 100.0), Allow(key, 101.0), Allow(key, 120.0), Allow(key, 105.0)];
            Limited(l, calls).answers == [true, true, true, true] && !Clocked(calls, 200.0)
  {
    var l := Limit(2, 10.0);
    var a, b, c, d := Allow(key, 100.0), Allow(key, 101.0), Allow(key, 120.0), Allow(key, 105.0);
    assert [a, b][..1] == [a] && [a, b, c][..2] == [a, b] && [a, b, c, d][..3] == [a, b, c];
    assert [] + [100.0] == [100.0] && [100.0] + [101.0] == [100.0, 101.0] && [] + [120.0] == [120.0]
      && [120.0] + [105.0] == [120.0, 105.0];
    assert Next(l, map[], a) == (map[key := [100.0]], true);
    assert Limited(l, [a]).events == map[key := [100.0]] by {
      assert [a][..0] == [];
    }
    assert Limited(l, [a, b]).events == map[key := [100.0, 101.0]];
    assert Pruned([100.0, 101.0], 110.0) == [] by {
      assert [100.0, 101.0][1..] == [101.0];
      assert Pruned([101.0], 110.0) == [];
    }
    assert Get(map[key := [100.0, 101.0]], key) == [100.0, 101.0] && Get(map[key := [120.0]], key) == [120.0];
    assert map[key := [100.0, 101.0]][key := [120.0]] == map[key := [120.0]]
      && map[key := [120.0]][key := [120.0, 105.0]] == map[key := [120.0, 105.0]];
    assert Next(l, map[key := [100.0, 101.0]], c) == (map[key := [120.0]], true);
    assert Limited(l, [a, b, c]).events == map[key := [120.0]];
    assert Next(l, map[key := [120.0]], d) == (map[key := [120.0, 105.0]], true);
    assert !Clocked([a, b, c, d], 200.0);
  }
}
