/** The sliding-log limiter of domain verification attempts
    (src/services/domain-verification-service.ts). It prunes its log on every
    call; the theorems compare it with the complete history of grants. */
module VerificationLimiter {
  import opened Basics

  datatype Config = Config(maxPerWindow: int, windowMs: int)

  type Attempts = map<string, seq<int>>

  function Logged(m: Attempts, domainId: string): seq<int> {
    if domainId in m then m[domainId] else []
  }

  /** The entries still inside the rolling window at `now`. */
  function Live(c: Config, log: seq<int>, now: int): seq<int> {
    if log == [] then []
    else Live(c, Front(log), now) + if now - Last(log) < c.windowMs then [Last(log)] else []
  }

  /** Whether one attempt is admitted, and the log it leaves behind. */
  function Acquire(c: Config, log: seq<int>, now: int): (bool, seq<int>) {
    var existing := Live(c, log, now);
    if |existing| >= c.maxPerWindow then (false, existing) else (true, existing + [now])
  }

  class Limiter {
    const config: Config
    var attempts: Attempts

    constructor (maxPerWindow: int := 3, windowMs: int := 60_000)
      ensures config == Config(maxPerWindow, windowMs) && attempts == map[]
    {
      config := Config(maxPerWindow, windowMs);
      attempts := map[];
    }

    method TryAcquire(domainId: string, now: int) returns (granted: bool)
      modifies this
      ensures granted == Acquire(config, Logged(old(attempts), domainId), now).0
      ensures attempts == old(attempts)[domainId := Acquire(config, Logged(old(attempts), domainId), now).1]
    {
      var existing := Live(config, if domainId in attempts then attempts[domainId] else [], now);
      if |existing| >= config.maxPerWindow {
        attempts := attempts[domainId := existing];
        return false;
      }
      existing := existing + [now];
      attempts := attempts[domainId := existing];
      granted := true;
    }
  }

  // ---- Runs ---------------------------------------------------------------

  datatype Call = Call(domainId: string, at: int)

  function Run(c: Config, calls: seq<Call>): Attempts {
    if calls == [] then map[]
    else
      var m, call := Run(c, Front(calls)), Last(calls);
      m[call.domainId := Acquire(c, Logged(m, call.domainId), call.at).1]
  }

  /** Every grant ever made for a domain, never pruned. */
  function Grants(c: Config, calls: seq<Call>, domainId: string): seq<int> {
    if calls == [] then []
    else
      var before, call := Grants(c, Front(calls), domainId), Last(calls);
      if call.domainId == domainId
      then Recorded(c, before, Logged(Run(c, Front(calls)), domainId), call.at) else before
  }

  /** The complete history after one more attempt against the pruned log. */
  function Recorded(c: Config, before: seq<int>, log: seq<int>, at: int): seq<int> {
    if Acquire(c, log, at).0 then before + [at] else before
  }

  ghost predicate Ticking(calls: seq<Call>, now: int) {
    && (forall i, j :: 0 <= i <= j < |calls| ==> calls[i].at <= calls[j].at)
    && (forall i :: 0 <= i < |calls| ==> calls[i].at <= now)
  }

  /** Pruning twice is pruning at the later instant. */
  lemma {:induction false} LiveAgain(c: Config, log: seq<int>, earlier: int, now: int)
    requires earlier <= now
    ensures Live(c, Live(c, log, earlier), now) == Live(c, log, now)
  {
    if log != [] {
      LiveAgain(c, Front(log), earlier, now);
      if earlier - Last(log) < c.windowMs {
        assert Front(Live(c, log, earlier)) == Live(c, Front(log), earlier);
      } else {
        assert Live(c, log, earlier) == Live(c, Front(log), earlier);
      }
    }
  }

  lemma LiveAppend(c: Config, log: seq<int>, at: int, now: int)
    ensures Live(c, log + [at], now) == Live(c, log, now) + if now - at < c.windowMs then [at] else []
  {
    assert Front(log + [at]) == log;
  }

  lemma SameLiveLater(c: Config, log: seq<int>, full: seq<int>, at: int, now: int)
    requires at <= now
    requires Live(c, log, at) == Live(c, full, at)
    ensures Live(c, Live(c, log, at), now) == Live(c, full, now)
  {
    LiveAgain(c, full, at, now);
  }

  lemma AcquireKeepsLive(c: Config, log: seq<int>, full: seq<int>, at: int, now: int)
    requires at <= now
    requires Live(c, log, at) == Live(c, full, at)
    ensures Live(c, Acquire(c, log, at).1, now) == Live(c, Recorded(c, full, log, at), now)
  {
    var existing := Live(c, log, at);
    SameLiveLater(c, log, full, at, now);
    if |existing| < c.maxPerWindow {
      LiveAppend(c, existing, at, now);
      LiveAppend(c, full, at, now);
      assert Acquire(c, log, at) == (true, existing + [at]);
    } else {
      assert Acquire(c, log, at) == (false, existing);
    }
  }

  lemma {:induction false} GrantsInOrder(c: Config, calls: seq<Call>, domainId: string, now: int)
    requires Ticking(calls, now)
    ensures Sorted(Grants(c, calls, domainId))
    ensures forall i :: 0 <= i < |Grants(c, calls, domainId)| ==> Grants(c, calls, domainId)[i] <= now
  {
    if calls != [] {
      assert Last(calls) == calls[|calls| - 1];
      GrantsInOrder(c, Front(calls), domainId, Last(calls).at);
    }
  }

  /** At any instant not before the last call, the pruned log and the complete
      history have the same live entries. */
  lemma {:induction false} PrunedLogIsEnough(c: Config, calls: seq<Call>, domainId: string, now: int)
    requires Ticking(calls, now)
    ensures Live(c, Logged(Run(c, calls), domainId), now) == Live(c, Grants(c, calls, domainId), now)
  {
    if calls != [] {
      var call := Last(calls);
      assert call == calls[|calls| - 1];
      var log, full := Logged(Run(c, Front(calls)), domainId), Grants(c, Front(calls), domainId);
      if call.domainId == domainId {
        PrunedLogIsEnough(c, Front(calls), domainId, call.at);
        AcquireKeepsLive(c, log, full, call.at, now);
        assert Logged(Run(c, calls), domainId) == Acquire(c, log, call.at).1;
      } else {
        PrunedLogIsEnough(c, Front(calls), domainId, now);
        assert Logged(Run(c, calls), domainId) == log;
      }
    }
  }

  /** On entries not after `now`, being live is lying in (now - windowMs, now]. */
  lemma {:induction false} LiveCount(c: Config, log: seq<int>, now: int)
    requires forall i :: 0 <= i < |log| ==> log[i] <= now
    ensures |Live(c, log, now)| == CountIn(log, now - c.windowMs + 1, now + 1)
  {
    if log != [] {
      assert Last(log) == log[|log| - 1];
      LiveCount(c, Front(log), now);
    }
  }

  /** Despite pruning, an attempt at `now` is granted exactly when fewer than
      maxPerWindow grants of the complete history lie in (now - windowMs, now]. */
  lemma GrantsExactly(c: Config, calls: seq<Call>, domainId: string, now: int)
    requires Ticking(calls, now)
    ensures Acquire(c, Logged(Run(c, calls), domainId), now).0
            <==> CountIn(Grants(c, calls, domainId), now - c.windowMs + 1, now + 1) < c.maxPerWindow
  {
    PrunedLogIsEnough(c, calls, domainId, now);
    GrantsInOrder(c, calls, domainId, now);
    LiveCount(c, Grants(c, calls, domainId), now);
  }

  /** If fewer than `n` entries of a sorted log are live, the n-th last is not. */
  lemma FullWindowIsOld(c: Config, log: seq<int>, n: nat, now: int)
    requires Sorted(log) && 1 <= n <= |log|
    requires forall i :: 0 <= i < |log| ==> log[i] <= now
    requires CountIn(log, now - c.windowMs + 1, now + 1) < n
    ensures now - log[|log| - n] >= c.windowMs
  {
    if now - log[|log| - n] < c.windowMs {
      CountsSuffix(log, |log| - n, now - c.windowMs + 1, now + 1);
    }
  }

  lemma {:induction false} CountsSuffix(log: seq<int>, k: nat, lo: int, hi: int)
    requires k <= |log|
    requires forall i :: k <= i < |log| ==> lo <= log[i] < hi
    ensures CountIn(log, lo, hi) >= |log| - k
  {
    if k < |log| {
      assert Last(log) == log[|log| - 1];
      CountsSuffix(Front(log), k, lo, hi);
    }
  }

  lemma SpreadAppend(c: Config, log: seq<int>, n: nat, at: int)
    requires Sorted(log) && Spread(log, n, c.windowMs) && n >= 1
    requires forall i :: 0 <= i < |log| ==> log[i] <= at
    requires n <= |log| ==> at - log[|log| - n] >= c.windowMs
    ensures Spread(log + [at], n, c.windowMs)
  {
    forall i, j | 0 <= i <= j < |log| + 1 && j - i >= n
      ensures (log + [at])[j] - (log + [at])[i] >= c.windowMs
    {
      if j == |log| {
        assert log[i] <= log[|log| - n];
      }
    }
  }

  ghost predicate WellSpread(c: Config, log: seq<int>) {
    && (log != [] ==> c.maxPerWindow >= 1)
    && (c.maxPerWindow >= 1 ==> Spread(log, c.maxPerWindow, c.windowMs))
  }

  lemma RecordedSpread(c: Config, before: seq<int>, log: seq<int>, at: int)
    requires Sorted(before) && WellSpread(c, before)
    requires forall i :: 0 <= i < |before| ==> before[i] <= at
    requires Acquire(c, log, at).0 ==> CountIn(before, at - c.windowMs + 1, at + 1) < c.maxPerWindow
    ensures WellSpread(c, Recorded(c, before, log, at))
  {
    if Acquire(c, log, at).0 {
      if c.maxPerWindow <= |before| {
        FullWindowIsOld(c, before, c.maxPerWindow, at);
      }
      SpreadAppend(c, before, c.maxPerWindow, at);
    }
  }

  /** Any maxPerWindow + 1 consecutive grants span at least windowMs. */
  lemma {:induction false} GrantsSpread(c: Config, calls: seq<Call>, domainId: string, now: int)
    requires Ticking(calls, now)
    ensures WellSpread(c, Grants(c, calls, domainId))
  {
    if calls != [] {
      var call := Last(calls);
      assert call == calls[|calls| - 1];
      var before := Grants(c, Front(calls), domainId);
      GrantsSpread(c, Front(calls), domainId, call.at);
      GrantsInOrder(c, Front(calls), domainId, call.at);
      GrantsExactly(c, Front(calls), domainId, call.at);
      RecordedSpread(c, before, Logged(Run(c, Front(calls)), domainId), call.at);
    }
  }

  /** No half-open span of length windowMs holds more than maxPerWindow grants. */
  lemma SlidingWindowBound(c: Config, calls: seq<Call>, domainId: string, now: int, lo: int)
    requires Ticking(calls, now)
    ensures CountIn(Grants(c, calls, domainId), lo, lo + c.windowMs) <= Max(0, c.maxPerWindow)
  {
    GrantsSpread(c, calls, domainId, now);
    GrantsInOrder(c, calls, domainId, now);
    if c.maxPerWindow >= 1 {
      SpanBound(Grants(c, calls, domainId), c.maxPerWindow, c.windowMs, lo);
    }
  }
}
