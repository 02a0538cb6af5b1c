/** Small shared vocabulary: optional values, results, and bounds on how many
    timestamps of a sorted log can fall into one half-open span. */
module Basics {
  datatype Option<+T> = None | Some(value: T)

  datatype Result<+T, +E> = Ok(value: T) | Err(error: E)

  function Max(a: int, b: int): int { if a > b then a else b }

  function Min(a: int, b: int): int { if a < b then a else b }

  /** The last element of a nonempty sequence. */
  function Last<T>(s: seq<T>): T
    requires s != []
  {
    s[|s| - 1]
  }

  /** Everything but the last element. */
  function Front<T>(s: seq<T>): seq<T>
    requires s != []
  {
    s[..|s| - 1]
  }

  lemma Reassociate<T>(a: seq<T>, x: T, b: seq<T>)
    ensures a + ([x] + b) == (a + [x]) + b
  {
  }

  /** How many entries `t` of the log satisfy `lo <= t < hi`. */
  function CountIn(log: seq<int>, lo: int, hi: int): nat {
    if log == [] then 0
    else CountIn(Front(log), lo, hi) + if lo <= Last(log) < hi then 1 else 0
  }

  ghost predicate Sorted(log: seq<int>) {
    forall i, j :: 0 <= i <= j < |log| ==> log[i] <= log[j]
  }

  /** Any two entries at least `n` positions apart are at least `w` apart in time. */
  ghost predicate Spread(log: seq<int>, n: nat, w: int) {
    forall i, j :: 0 <= i <= j < |log| && j - i >= n ==> log[j] - log[i] >= w
  }

  /** Entries before `lo` contribute nothing to a count. */
  lemma {:induction false} CountSkipsEarly(log: seq<int>, k: nat, lo: int, hi: int)
    requires k <= |log|
    requires forall i :: 0 <= i < k ==> log[i] < lo
    ensures CountIn(log, lo, hi) <= |log| - k
  {
    if log != [] && k < |log| {
      CountSkipsEarly(Front(log), k, lo, hi);
    } else if log != [] {
      CountSkipsEarly(Front(log), k - 1, lo, hi);
    }
  }

  /** If entries `n` apart span at least `w`, no half-open span of length `w`
      holds more than `n` of them. */
  lemma {:induction false} SpanBound(log: seq<int>, n: nat, w: int, lo: int)
    requires Sorted(log) && Spread(log, n, w)
    ensures CountIn(log, lo, lo + w) <= n
  {
    if log != [] {
      SpanBound(Front(log), n, w, lo);
      if lo <= Last(log) < lo + w && |log| > n {
        var k := |log| - 1 - n;
        assert log[|log| - 1] - log[k] >= w;
        CountSkipsEarly(log, k + 1, lo, lo + w);
      } else if lo <= Last(log) < lo + w {
        CountSkipsEarly(log, 0, lo, lo + w);
      }
    }
  }
}
