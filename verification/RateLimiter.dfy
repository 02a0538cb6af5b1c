/** The process-local fixed-window rate limiter (src/lib/rate-limiter.ts).
    A window is anchored at the first attempt that finds no live bucket. */
module RateLimiter {
  import opened Basics

  datatype Bucket = Bucket(windowStart: int, count: int)

  datatype Decision = Decision(allowed: bool, retryAfterSeconds: int, remaining: int)

  datatype Config = Config(windowMs: int, maxAttempts: int)

  type Buckets = map<string, Bucket>

  function Lookup(m: Buckets, key: string): Option<Bucket> {
    if key in m then Some(m[key]) else None
  }

  predicate Expired(c: Config, b: Bucket, now: int) {
    now - b.windowStart >= c.windowMs
  }

  function CeilSeconds(ms: int): int { (ms + 999) / 1000 }

  /** The decision for one attempt at `now`, and the bucket it leaves behind. */
  function Attempt(c: Config, existing: Option<Bucket>, now: int): (Decision, Bucket) {
    if existing.None? || Expired(c, existing.value, now) then
      (Decision(true, 0, c.maxAttempts - 1), Bucket(now, 1))
    else
      var b := existing.value;
      if b.count >= c.maxAttempts then
        (Decision(false, Max(1, CeilSeconds(c.windowMs - (now - b.windowStart))), 0), b)
      else
        (Decision(true, 0, Max(0, c.maxAttempts - (b.count + 1))), b.(count := b.count + 1))
  }

  function Cleaned(c: Config, m: Buckets, now: int): Buckets {
    map k | k in m && !Expired(c, m[k], now) :: m[k]
  }

  /** The limiter object: one mutable map of buckets. */
  class Limiter {
    const config: Config
    var buckets: Buckets

    constructor (config: Config)
      ensures this.config == config && buckets == map[]
    {
      this.config := config;
      buckets := map[];
    }

    method Check(key: string, now: int) returns (d: Decision)
      modifies this
      ensures d == Attempt(config, Lookup(old(buckets), key), now).0
      ensures buckets == old(buckets)[key := Attempt(config, Lookup(old(buckets), key), now).1]
    {
      if key !in buckets || now - buckets[key].windowStart >= config.windowMs {
        buckets := buckets[key := Bucket(now, 1)];
        return Decision(true, 0, config.maxAttempts - 1);
      }
      var existing := buckets[key];
      if existing.count >= config.maxAttempts {
        var retryAfterMs := config.windowMs - (now - existing.windowStart);
        return Decision(false, Max(1, CeilSeconds(retryAfterMs)), 0);
      }
      existing := existing.(count := existing.count + 1);
      buckets := buckets[key := existing];
      d := Decision(true, 0, Max(0, config.maxAttempts - existing.count));
    }

    method Reset(key: string)
      modifies this
      ensures buckets == old(buckets) - {key}
    {
      buckets := buckets - {key};
    }

    /** Exactly the buckets whose window has run out are gone. */
    method Cleanup(now: int)
      modifies this
      ensures forall k :: k in buckets <==> k in old(buckets) && now - old(buckets)[k].windowStart < config.windowMs
      ensures forall k :: k in buckets ==> buckets[k] == old(buckets)[k]
      ensures buckets == Cleaned(config, old(buckets), now)
    {
      var pending := buckets.Keys;
      while pending != {}
        invariant pending <= buckets.Keys <= old(buckets).Keys
        invariant forall k :: k in buckets ==> buckets[k] == old(buckets)[k]
        invariant forall k :: k in old(buckets) && k !in pending ==>
          (k in buckets <==> !Expired(config, old(buckets)[k], now))
        decreases |pending|
      {
        var key :| key in pending;
        pending := pending - {key};
        if now - buckets[key].windowStart >= config.windowMs {
          buckets := buckets - {key};
        }
      }
    }

    function Size(): nat
      reads this
    {
      |buckets|
    }
  }

  // ---- Runs -------------------------------------------------------------

  datatype Op = Check(key: string, at: int) | Reset(key: string) | Cleanup(at: int)

  predicate Timed(op: Op) { !op.Reset? }

  function At(op: Op): int { if op.Reset? then 0 else op.at }

  /** What the three methods above do to the bucket map. */
  function Apply(c: Config, m: Buckets, op: Op): Buckets {
    match op
    case Check(key, now) => m[key := Attempt(c, Lookup(m, key), now).1]
    case Reset(key) => m - {key}
    case Cleanup(now) => Cleaned(c, m, now)
  }

  function Run(c: Config, m: Buckets, ops: seq<Op>): Buckets {
    if ops == [] then m else Apply(c, Run(c, m, Front(ops)), Last(ops))
  }

  /** The decisions of the checks of a run, in order. */
  function Decisions(c: Config, m: Buckets, ops: seq<Op>): seq<Decision> {
    if ops == [] then []
    else
      Decisions(c, m, Front(ops)) +
      match Last(ops)
      case Check(key, now) => [Attempt(c, Lookup(Run(c, m, Front(ops)), key), now).0]
      case _ => []
  }

  /** The clock never runs backwards and has not passed `now`. */
  ghost predicate Ticking(ops: seq<Op>, now: int) {
    && (forall i, j :: 0 <= i <= j < |ops| && Timed(ops[i]) && Timed(ops[j]) ==> At(ops[i]) <= At(ops[j]))
    && (forall i :: 0 <= i < |ops| && Timed(ops[i]) ==> At(ops[i]) <= now)
  }

  ghost predicate NeverReset(ops: seq<Op>, key: string) {
    Reset(key) !in ops
  }

  /** An allowed attempt: when, in the window anchored where, and as the
      how-manyeth attempt of that window. */
  datatype Grant = Grant(at: int, windowStart: int, rank: int)

  function Grants(c: Config, ops: seq<Op>, key: string): seq<Grant> {
    if ops == [] then []
    else
      var before := Grants(c, Front(ops), key);
      match Last(ops)
      case Check(k, now) =>
        if k == key then Granted(c, before, Lookup(Run(c, map[], Front(ops)), key), now) else before
      case _ => before
  }

  /** The history after one more attempt on a bucket. */
  function Granted(c: Config, before: seq<Grant>, b: Option<Bucket>, now: int): seq<Grant> {
    var (d, b') := Attempt(c, b, now);
    if d.allowed then before + [Grant(now, b'.windowStart, b'.count)] else before
  }

  function Times(gs: seq<Grant>): seq<int> {
    seq(|gs|, i requires 0 <= i < |gs| => gs[i].at)
  }

  /** How many attempts one anchored window can admit: a window always admits
      the attempt that opened it, even when maxAttempts is not positive. */
  function PerWindow(c: Config): int { Max(1, c.maxAttempts) }

  ghost predicate GrantInv(c: Config, g: Grant, position: nat) {
    && g.windowStart <= g.at
    && 1 <= g.rank <= PerWindow(c)
    && g.rank <= position + 1
    && (g.rank == 1 ==> g.at == g.windowStart)
    && g.at - g.windowStart < Max(1, c.windowMs)
  }

  /** `later` is `gap` grants after `earlier`. */
  ghost predicate PairInv(c: Config, earlier: Grant, later: Grant, gap: int) {
    && earlier.at <= later.at
    && (gap < later.rank ==> earlier.windowStart == later.windowStart)
    && (gap >= later.rank ==>
          earlier.windowStart + c.windowMs <= later.windowStart && earlier.at <= later.windowStart)
  }

  ghost predicate WindowsInv(c: Config, gs: seq<Grant>) {
    && (forall i :: 0 <= i < |gs| ==> GrantInv(c, gs[i], i))
    && (forall i, j :: 0 <= i < j < |gs| ==> PairInv(c, gs[i], gs[j], j - i))
  }

  ghost predicate BucketInv(c: Config, gs: seq<Grant>, b: Option<Bucket>, now: int) {
    && (gs != [] ==> Last(gs).at <= now)
    && (b.None? && gs != [] ==> now - Last(gs).windowStart >= c.windowMs)
    && (b.Some? ==> gs != [] && b.value == Bucket(Last(gs).windowStart, Last(gs).rank))
  }

  lemma TickingFront(ops: seq<Op>, now: int)
    requires ops != [] && Ticking(ops, now)
    ensures Ticking(Front(ops), if Timed(Last(ops)) then At(Last(ops)) else now)
    ensures Timed(Last(ops)) ==> At(Last(ops)) <= now
  {
    assert ops[|ops| - 1] == Last(ops);
  }

  /** One more attempt keeps the window structure. */
  lemma GrantKeepsWindows(c: Config, gs: seq<Grant>, b: Option<Bucket>, now: int)
    requires WindowsInv(c, gs) && BucketInv(c, gs, b, now)
    ensures WindowsInv(c, Granted(c, gs, b, now))
    ensures BucketInv(c, Granted(c, gs, b, now), Some(Attempt(c, b, now).1), now)
  {
    var (d, b') := Attempt(c, b, now);
    if d.allowed && gs != [] {
      var g := Grant(now, b'.windowStart, b'.count);
      var n := |gs|;
      assert gs[n - 1] == Last(gs);
      forall i | 0 <= i < n ensures PairInv(c, gs[i], g, n - i) {
        if i < n - 1 {
          assert PairInv(c, gs[i], gs[n - 1], n - 1 - i);
        }
      }
    }
  }

  /** The history of grants of a key that is never reset is a sequence of
      windows, at least windowMs apart, of at most maxAttempts grants each. */
  lemma {:induction false} HistoryInv(c: Config, ops: seq<Op>, key: string, now: int)
    requires Ticking(ops, now) && NeverReset(ops, key)
    ensures WindowsInv(c, Grants(c, ops, key))
    ensures BucketInv(c, Grants(c, ops, key), Lookup(Run(c, map[], ops), key), now)
  {
    if ops != [] {
      var op := Last(ops);
      TickingFront(ops, now);
      assert op == ops[|ops| - 1] && op in ops;
      var before := if Timed(op) then At(op) else now;
      HistoryInv(c, Front(ops), key, before);
      var gs, b := Grants(c, Front(ops), key), Lookup(Run(c, map[], Front(ops)), key);
      if op.Check? && op.key == key {
        GrantKeepsWindows(c, gs, b, op.at);
      }
    }
  }

  /** Over any run without resets of the key, a check is denied exactly when the
      key's last window is still open and already holds maxAttempts grants, as the
      history of grants has it; and what the decision says. */
  lemma DecidedByHistory(c: Config, ops: seq<Op>, key: string, now: int)
    requires Ticking(ops, now) && NeverReset(ops, key)
    ensures var gs, d := Grants(c, ops, key), Attempt(c, Lookup(Run(c, map[], ops), key), now).0;
            && (!d.allowed <==> gs != [] && now - Last(gs).windowStart < c.windowMs && Last(gs).rank >= c.maxAttempts)
            && (d.allowed ==> d.retryAfterSeconds == 0)
            && (!d.allowed ==> d.remaining == 0 && 1000 * (d.retryAfterSeconds - 1) < Last(gs).windowStart + c.windowMs - now
                               && Last(gs).windowStart + c.windowMs - now <= 1000 * d.retryAfterSeconds)
  {
    HistoryInv(c, ops, key, now);
  }

  /** After a reset the key starts over: the next check is allowed, in a window of
      its own, whatever happened before. */
  lemma ResetForgets(c: Config, ops: seq<Op>, key: string, now: int)
    ensures var ops' := ops + [Reset(key)];
            && Attempt(c, Lookup(Run(c, map[], ops'), key), now) == (Decision(true, 0, c.maxAttempts - 1), Bucket(now, 1))
            && (forall other :: other != key ==>
                  Lookup(Run(c, map[], ops'), other) == Lookup(Run(c, map[], ops), other))
  {
    assert Front(ops + [Reset(key)]) == ops;
  }

  /** Grants 2*maxAttempts - 1 positions apart are at least one window apart. */
  lemma WindowsSpread(c: Config, gs: seq<Grant>)
    requires c.windowMs > 0 && WindowsInv(c, gs)
    ensures Sorted(Times(gs)) && Spread(Times(gs), 2 * PerWindow(c) - 1, c.windowMs)
  {
    var n := PerWindow(c);
    forall i, j | 0 <= i <= j < |gs|
      ensures gs[i].at <= gs[j].at
      ensures j - i >= 2 * n - 1 ==> gs[j].at - gs[i].at >= c.windowMs
    {
      if i < j {
        assert PairInv(c, gs[i], gs[j], j - i);
      }
      if j - i >= 2 * n - 1 {
        assert GrantInv(c, gs[i], i) && GrantInv(c, gs[j], j);
        if gs[i].rank != 1 {
          var m := i - 1 + n;
          assert PairInv(c, gs[i - 1], gs[m], n);
          assert PairInv(c, gs[i - 1], gs[i], 1);
          if i < m {
            assert PairInv(c, gs[i], gs[m], n - 1);
          }
          assert GrantInv(c, gs[m], m);
          assert PairInv(c, gs[m], gs[j], j - m);
        }
      }
    }
  }

  /** At most 2*maxAttempts - 1 checks of a key that is not reset are allowed
      in any half-open span of length windowMs. */
  lemma FixedWindowBound(c: Config, ops: seq<Op>, key: string, now: int, lo: int)
    requires Ticking(ops, now) && NeverReset(ops, key)
    ensures CountIn(Times(Grants(c, ops, key)), lo, lo + c.windowMs) <= 2 * PerWindow(c) - 1
  {
    if c.windowMs > 0 {
      HistoryInv(c, ops, key, now);
      WindowsSpread(c, Grants(c, ops, key));
      SpanBound(Times(Grants(c, ops, key)), 2 * PerWindow(c) - 1, c.windowMs, lo);
    } else {
      EmptySpan(Times(Grants(c, ops, key)), lo, lo + c.windowMs);
    }
  }

  lemma {:induction false} EmptySpan(log: seq<int>, lo: int, hi: int)
    requires hi <= lo
    ensures CountIn(log, lo, hi) == 0
  {
    if log != [] {
      EmptySpan(Front(log), lo, hi);
    }
  }

  // ---- The bound is attained ----------------------------------------------

  /** `ops` is `pre` and then `n` checks of `key` at one instant. */
  ghost predicate BurstAfter(pre: seq<Op>, ops: seq<Op>, key: string, n: nat, at: int) {
    |ops| == |pre| + n && pre <= ops && forall i :: |pre| <= i < |ops| ==> ops[i] == Check(key, at)
  }

  function GrantsIn(c: Config, ops: seq<Op>, key: string, lo: int, hi: int): nat {
    CountIn(Times(Grants(c, ops, key)), lo, hi)
  }

  /** One more allowed check adds one grant. */
  lemma OneMoreGrant(c: Config, pre: seq<Op>, key: string, at: int, lo: int, hi: int)
    requires Attempt(c, Lookup(Run(c, map[], pre), key), at).0.allowed
    ensures GrantsIn(c, pre + [Check(key, at)], key, lo, hi) == GrantsIn(c, pre, key, lo, hi) + if lo <= at < hi then 1 else 0
  {
    var ops := pre + [Check(key, at)];
    assert Front(ops) == pre && Last(ops) == Check(key, at);
    var gs, gs' := Grants(c, pre, key), Grants(c, ops, key);
    assert gs' == Granted(c, gs, Lookup(Run(c, map[], pre), key), at);
    assert Front(Times(gs')) == Times(gs);
  }

  /** One more check moves the clock and the bucket as stated. */
  lemma OneMoreCheck(c: Config, pre: seq<Op>, key: string, at: int)
    requires Ticking(pre, at) && NeverReset(pre, key)
    ensures var ops := pre + [Check(key, at)];
            && Ticking(ops, at) && NeverReset(ops, key)
            && Lookup(Run(c, map[], ops), key) == Some(Attempt(c, Lookup(Run(c, map[], pre), key), at).1)
  {
    var ops := pre + [Check(key, at)];
    assert Front(ops) == pre && Last(ops) == Check(key, at);
  }

  /** `ops` has left the live bucket `b` on `key`. */
  ghost predicate Reaches(c: Config, ops: seq<Op>, key: string, at: int, b: Bucket) {
    && Ticking(ops, at) && NeverReset(ops, key)
    && Lookup(Run(c, map[], ops), key) == Some(b)
  }

  lemma LiveCheck(c: Config, pre: seq<Op>, b: Bucket, key: string, at: int, lo: int, hi: int)
    requires lo <= at < hi
    requires Reaches(c, pre, key, at, b) && Attempt(c, Some(b), at).0.allowed
    ensures Reaches(c, pre + [Check(key, at)], key, at, Attempt(c, Some(b), at).1)
    ensures GrantsIn(c, pre + [Check(key, at)], key, lo, hi) == GrantsIn(c, pre, key, lo, hi) + 1
  {
    OneMoreGrant(c, pre, key, at, lo, hi);
    OneMoreCheck(c, pre, key, at);
  }

  /** A check inside the window with attempts left counts one up. */
  lemma LiveCheckCounts(c: Config, pre: seq<Op>, b: Bucket, key: string, at: int, lo: int, hi: int)
    requires lo <= at < hi
    requires Reaches(c, pre, key, at, b) && !Expired(c, b, at) && b.count < c.maxAttempts
    ensures Reaches(c, pre + [Check(key, at)], key, at, b.(count := b.count + 1))
    ensures GrantsIn(c, pre + [Check(key, at)], key, lo, hi) == GrantsIn(c, pre, key, lo, hi) + 1
  {
    LiveCheck(c, pre, b, key, at, lo, hi);
  }

  lemma {:induction false} LiveBurst(c: Config, pre: seq<Op>, b: Bucket, key: string, n: nat, at: int, lo: int, hi: int)
    returns (ops: seq<Op>)
    requires lo <= at < hi
    requires Reaches(c, pre, key, at, b)
    requires !Expired(c, b, at) && b.count + n <= c.maxAttempts
    ensures BurstAfter(pre, ops, key, n, at)
    ensures Reaches(c, ops, key, at, b.(count := b.count + n))
    ensures GrantsIn(c, ops, key, lo, hi) == GrantsIn(c, pre, key, lo, hi) + n
  {
    ops := pre;
    if n > 0 {
      var most := LiveBurst(c, pre, b, key, n - 1, at, lo, hi);
      LiveCheckCounts(c, most, b.(count := b.count + n - 1), key, at, lo, hi);
      ops := most + [Check(key, at)];
    }
  }

  lemma FirstCheck(c: Config, key: string, lo: int, hi: int)
    requires 0 < lo
    ensures Reaches(c, [Check(key, 0)], key, 0, Bucket(0, 1))
    ensures GrantsIn(c, [Check(key, 0)], key, lo, hi) == 0
  {
    assert [] + [Check(key, 0)] == [Check(key, 0)];
    OneMoreGrant(c, [], key, 0, lo, hi);
    OneMoreCheck(c, [], key, 0);
  }

  /** One attempt at time 0 and the rest of that window in its last millisecond. */
  lemma FirstWindowGrants(c: Config, key: string) returns (ops: seq<Op>)
    requires c.maxAttempts >= 1 && c.windowMs >= 2
    ensures Reaches(c, ops, key, c.windowMs - 1, Bucket(0, c.maxAttempts))
    ensures GrantsIn(c, ops, key, 1, 1 + c.windowMs) == c.maxAttempts - 1
  {
    FirstCheck(c, key, 1, 1 + c.windowMs);
    ops := LiveBurst(c, [Check(key, 0)], Bucket(0, 1), key, c.maxAttempts - 1, c.windowMs - 1, 1, 1 + c.windowMs);
  }

  /** A check as the window of `b` runs out starts a new window. */
  lemma NextWindowOpens(c: Config, pre: seq<Op>, b: Bucket, key: string)
    requires c.maxAttempts >= 1 && c.windowMs >= 2
    requires Reaches(c, pre, key, c.windowMs - 1, b) && b.windowStart == 0
    ensures Reaches(c, pre + [Check(key, c.windowMs)], key, c.windowMs, Bucket(c.windowMs, 1))
    ensures GrantsIn(c, pre + [Check(key, c.windowMs)], key, 1, 1 + c.windowMs)
            == GrantsIn(c, pre, key, 1, 1 + c.windowMs) + 1
  {
    LiveCheck(c, pre, b, key, c.windowMs, 1, 1 + c.windowMs);
  }

  /** A full window, all of it in the millisecond that opens it. */
  lemma SecondWindowGrants(c: Config, pre: seq<Op>, b: Bucket, key: string) returns (ops: seq<Op>)
    requires c.maxAttempts >= 1 && c.windowMs >= 2
    requires Reaches(c, pre, key, c.windowMs - 1, b) && b.windowStart == 0
    ensures Ticking(ops, c.windowMs) && NeverReset(ops, key)
    ensures GrantsIn(c, ops, key, 1, 1 + c.windowMs) == GrantsIn(c, pre, key, 1, 1 + c.windowMs) + c.maxAttempts
  {
    NextWindowOpens(c, pre, b, key);
    ops := LiveBurst(c, pre + [Check(key, c.windowMs)], Bucket(c.windowMs, 1), key, c.maxAttempts - 1, c.windowMs,
                     1, 1 + c.windowMs);
  }

  /** For every window of at least two milliseconds and every positive limit
      some run without resets reaches the bound 2*maxAttempts - 1: two windows,
      one nearly full and one full, fit into one span. */
  lemma BoundAttained(c: Config, key: string) returns (ops: seq<Op>)
    requires c.maxAttempts >= 1 && c.windowMs >= 2
    ensures Ticking(ops, c.windowMs) && NeverReset(ops, key)
    ensures CountIn(Times(Grants(c, ops, key)), 1, 1 + c.windowMs) == 2 * PerWindow(c) - 1
  {
    var first := FirstWindowGrants(c, key);
    ops := SecondWindowGrants(c, first, Bucket(0, c.maxAttempts), key);
  }

  /** With windows of at most a millisecond every grant opens its own instant's
      window, so grants maxAttempts apart are a window apart. */
  lemma ShortWindowsSpread(c: Config, gs: seq<Grant>)
    requires c.windowMs == 1 && WindowsInv(c, gs)
    ensures Sorted(Times(gs)) && Spread(Times(gs), PerWindow(c), c.windowMs)
  {
    forall i, j | 0 <= i <= j < |gs|
      ensures gs[i].at <= gs[j].at && (j - i >= PerWindow(c) ==> gs[j].at - gs[i].at >= c.windowMs)
    {
      if i < j {
        assert PairInv(c, gs[i], gs[j], j - i);
        assert GrantInv(c, gs[i], i) && GrantInv(c, gs[j], j);
      }
    }
  }

  lemma ShortWindowBound(c: Config, ops: seq<Op>, key: string, now: int, lo: int)
    requires c.windowMs <= 1 && Ticking(ops, now) && NeverReset(ops, key)
    ensures GrantsIn(c, ops, key, lo, lo + c.windowMs) <= PerWindow(c)
  {
    if c.windowMs == 1 {
      HistoryInv(c, ops, key, now);
      ShortWindowsSpread(c, Grants(c, ops, key));
      SpanBound(Times(Grants(c, ops, key)), PerWindow(c), c.windowMs, lo);
    } else {
      EmptySpan(Times(Grants(c, ops, key)), lo, lo + c.windowMs);
    }
  }

  /** Some span of this run holds more than maxAttempts allowed checks. */
  ghost predicate Exceeds(c: Config, ops: seq<Op>, key: string, now: int, lo: int) {
    Ticking(ops, now) && NeverReset(ops, key) && GrantsIn(c, ops, key, lo, lo + c.windowMs) > c.maxAttempts
  }

  /** The limiter keeps every span of windowMs to maxAttempts, as a sliding window
      would, exactly when maxAttempts is one or windows last at most 1 ms. */
  lemma KeepsToLimitExactly(c: Config, key: string)
    requires c.maxAttempts >= 1
    ensures (forall ops, now, lo :: !Exceeds(c, ops, key, now, lo)) <==> c.maxAttempts == 1 || c.windowMs <= 1
  {
    if c.maxAttempts == 1 || c.windowMs <= 1 {
      forall ops, now, lo ensures !Exceeds(c, ops, key, now, lo) {
        if Ticking(ops, now) && NeverReset(ops, key) {
          if c.windowMs <= 1 {
            ShortWindowBound(c, ops, key, now, lo);
          } else {
            FixedWindowBound(c, ops, key, now, lo);
          }
        }
      }
    } else {
      var ops := BoundAttained(c, key);
      assert Exceeds(c, ops, key, c.windowMs, 1);
    }
  }

  /** `remaining` is exact: that many further checks inside the window are
      allowed, and the one after them is denied. */
  lemma RemainingIsExact(c: Config, pre: seq<Op>, b: Option<Bucket>, key: string, at: int, later: int) returns (ops: seq<Op>)
    requires c.maxAttempts >= 1
    requires b.Some? ==> b.value.count >= 1
    requires Attempt(c, b, at).0.allowed
    requires Reaches(c, pre, key, later, Attempt(c, b, at).1)
    requires !Expired(c, Attempt(c, b, at).1, later)
    ensures var r := Attempt(c, b, at).0.remaining;
            && r >= 0
            && BurstAfter(pre, ops, key, r, later)
            && GrantsIn(c, ops, key, later, later + 1) == GrantsIn(c, pre, key, later, later + 1) + r
            && !Attempt(c, Lookup(Run(c, map[], ops), key), later).0.allowed
  {
    var (d, b') := Attempt(c, b, at);
    ops := LiveBurst(c, pre, b', key, d.remaining, later, later, later + 1);
  }

  // ---- Cleanup is transparent ---------------------------------------------

  function WithoutCleanup(ops: seq<Op>): seq<Op> {
    if ops == [] then []
    else WithoutCleanup(Front(ops)) + if Last(ops).Cleanup? then [] else [Last(ops)]
  }

  /** `m` is `full` minus some buckets that are already expired. */
  ghost predicate SweptFrom(c: Config, m: Buckets, full: Buckets, now: int) {
    forall k :: (k in m ==> k in full && full[k] == m[k]) &&
                (k in full && k !in m ==> Expired(c, full[k], now))
  }

  lemma {:induction false} CleanupSimulation(c: Config, ops: seq<Op>, now: int)
    requires Ticking(ops, now)
    ensures SweptFrom(c, Run(c, map[], ops), Run(c, map[], WithoutCleanup(ops)), now)
    ensures Decisions(c, map[], ops) == Decisions(c, map[], WithoutCleanup(ops))
  {
    if ops != [] {
      var op := Last(ops);
      TickingFront(ops, now);
      assert op == ops[|ops| - 1];
      CleanupSimulation(c, Front(ops), if Timed(op) then At(op) else now);
      if !op.Cleanup? {
        var s := WithoutCleanup(ops);
        assert Front(s) == WithoutCleanup(Front(ops)) && Last(s) == op;
      } else {
        assert WithoutCleanup(ops) == WithoutCleanup(Front(ops));
      }
    }
  }

  /** Two runs that differ only in where cleanup() calls fall decide alike. */
  lemma CleanupChangesNoDecision(c: Config, a: seq<Op>, b: seq<Op>, now: int)
    requires Ticking(a, now) && Ticking(b, now)
    requires WithoutCleanup(a) == WithoutCleanup(b)
    ensures Decisions(c, map[], a) == Decisions(c, map[], b)
  {
    CleanupSimulation(c, a, now);
    CleanupSimulation(c, b, now);
  }

  // ---- retryAfterSeconds is exact -----------------------------------------

  ghost predicate Leaves(ops: seq<Op>, key: string) {
    forall i :: 0 <= i < |ops| && !ops[i].Cleanup? ==> ops[i].key != key
  }

  /** Calls on other keys keep the bucket of `key`, unless it has expired. */
  lemma {:induction false} UntouchedBucket(c: Config, m: Buckets, ops: seq<Op>, key: string, now: int)
    requires key in m && Leaves(ops, key) && Ticking(ops, now)
    ensures var b := Lookup(Run(c, m, ops), key);
            b == Some(m[key]) || (b == None && Expired(c, m[key], now))
  {
    if ops != [] {
      TickingFront(ops, now);
      assert Last(ops) == ops[|ops| - 1];
      UntouchedBucket(c, m, Front(ops), key, if Timed(Last(ops)) then At(Last(ops)) else now);
    }
  }

  /** After a denial, and with no other call on that key, a later check is
      allowed exactly when the window has run out; on the one-second grid that
      is exactly at `retryAfterSeconds` and not a second earlier. */
  lemma RetryAfterIsExact(c: Config, m: Buckets, key: string, at: int, between: seq<Op>, later: int)
    requires !Attempt(c, Lookup(m, key), at).0.allowed
    requires Leaves(between, key) && Ticking(between, later) && at <= later
    ensures var r := Attempt(c, Lookup(m, key), at).0.retryAfterSeconds;
            var m' := Run(c, Apply(c, m, Check(key, at)), between);
            var d := Attempt(c, Lookup(m', key), later).0;
            && r >= 1
            && (later >= at + 1000 * r ==> d.allowed)
            && (later <= at + 1000 * (r - 1) ==> !d.allowed)
            && (d.allowed <==> later - m[key].windowStart >= c.windowMs)
  {
    UntouchedBucket(c, Apply(c, m, Check(key, at)), between, key, later);
    var ms := c.windowMs - (at - m[key].windowStart);
    assert 1000 * (CeilSeconds(ms) - 1) < ms <= 1000 * CeilSeconds(ms);
  }
}
