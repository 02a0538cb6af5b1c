/** The freshness policy of a committed render (src/lib/cache-policy.ts). Times
    are milliseconds. */
module CachePolicy {
  import opened Basics

  datatype Policy = Policy(freshTtlSeconds: int, staleTtlSeconds: int)

  datatype Window = Window(freshUntil: int, staleUntil: int)

  datatype PolicyError = InvalidPolicy

  const MIN_FRESH_TTL_SECONDS := 10
  const MAX_FRESH_TTL_SECONDS := 30 * 24 * 60 * 60
  const MIN_STALE_TTL_SECONDS := 0
  const MAX_STALE_TTL_SECONDS := 30 * 24 * 60 * 60
  const DEFAULT_POLICY := Policy(300, 3600)

  predicate ValidPolicy(p: Policy) {
    && MIN_FRESH_TTL_SECONDS <= p.freshTtlSeconds <= MAX_FRESH_TTL_SECONDS
    && MIN_STALE_TTL_SECONDS <= p.staleTtlSeconds <= MAX_STALE_TTL_SECONDS
  }

  function FreshnessWindow(p: Policy, renderedAt: int): Result<Window, PolicyError> {
    if !ValidPolicy(p) then Err(InvalidPolicy)
    else
      var freshUntil := renderedAt + p.freshTtlSeconds * 1000;
      Ok(Window(freshUntil, freshUntil + p.staleTtlSeconds * 1000))
  }
}
