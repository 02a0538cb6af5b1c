/** Cache identities and their hashed row keys (src/lib/cache-identity.ts).
    SHA-256 is a parameter; nothing is assumed about it. Where the original
    relies on collision resistance, the statements here conclude "or these two
    inputs collide". */
module CacheIdentity {
  import opened Basics
  import opened CacheStorageKey

  type Sha256 = string -> string

  const CACHE_KEY_VERSION := 1

  const NUL := '\0'

  datatype Identity = Identity(
    organizationId: string, projectId: string, domainId: string,
    normalizedUrl: string, renderProfileHash: string, cacheKeyVersion: Option<int>)

  function Version(id: Identity): int {
    if id.cacheKeyVersion.Some? then id.cacheKeyVersion.value else CACHE_KEY_VERSION
  }

  /** The identity with its default version filled in. */
  function Resolved(id: Identity): Identity {
    id.(cacheKeyVersion := Some(Version(id)))
  }

  function IntText(n: int): string {
    if n < 0 then ['-'] + Decimal(-n) else Decimal(n)
  }

  function Joined(id: Identity): string {
    Join(IntText(Version(id)), NUL, Join(id.organizationId, NUL, Join(id.projectId, NUL,
      Join(id.domainId, NUL, Join(id.normalizedUrl, NUL, id.renderProfileHash)))))
  }

  /** The row key: which cache_entries row an identity addresses. */
  datatype Scope = Scope(
    organizationId: string, projectId: string, domainId: string, cacheKeyVersion: int, cacheKeyHash: string)

  function CacheKeyHash(sha: Sha256, id: Identity): string { sha(Joined(id)) }

  function ScopeOf(sha: Sha256, id: Identity): Scope {
    Scope(id.organizationId, id.projectId, id.domainId, Version(id), CacheKeyHash(sha, id))
  }

  ghost predicate NulFree(s: string) { forall i :: 0 <= i < |s| ==> s[i] != NUL }

  ghost predicate NulFreeIdentity(id: Identity) {
    && NulFree(id.organizationId) && NulFree(id.projectId) && NulFree(id.domainId)
    && NulFree(id.normalizedUrl) && NulFree(id.renderProfileHash)
  }

  ghost predicate Collision<A(!new), B>(h: A -> B, x: A, y: A) {
    x != y && h(x) == h(y)
  }

  lemma JoinUnique(a: string, r: string, b: string, q: string)
    requires NulFree(a) && NulFree(b)
    requires Join(a, NUL, r) == Join(b, NUL, q)
    ensures a == b && r == q
  {
    CutFinds(a, NUL, r);
    CutFinds(b, NUL, q);
  }

  lemma IntTextInjective(m: int, n: int)
    requires IntText(m) == IntText(n)
    ensures m == n
  {
    assert IsDigit(Decimal(if m < 0 then -m else m)[0]) && IsDigit(Decimal(if n < 0 then -n else n)[0]);
    if m < 0 && n < 0 {
      assert IntText(m)[1..] == Decimal(-m) && IntText(n)[1..] == Decimal(-n);
    }
    ValueOfDecimal(if m < 0 then -m else m);
    ValueOfDecimal(if n < 0 then -n else n);
  }

  lemma IntTextNulFree(n: int)
    ensures NulFree(IntText(n))
  {
    assert forall i :: 0 <= i < |IntText(n)| ==> IsDigit(IntText(n)[i]) || IntText(n)[i] == '-';
  }

  /** The NUL-separated join tells any two NUL-free identities apart. */
  lemma JoinedInjective(a: Identity, b: Identity)
    requires NulFreeIdentity(a) && NulFreeIdentity(b)
    ensures Joined(a) == Joined(b) <==> Resolved(a) == Resolved(b)
  {
    if Joined(a) == Joined(b) {
      IntTextNulFree(Version(a));
      IntTextNulFree(Version(b));
      var a4 := Join(a.normalizedUrl, NUL, a.renderProfileHash);
      var b4 := Join(b.normalizedUrl, NUL, b.renderProfileHash);
      var a3, b3 := Join(a.domainId, NUL, a4), Join(b.domainId, NUL, b4);
      var a2, b2 := Join(a.projectId, NUL, a3), Join(b.projectId, NUL, b3);
      var a1, b1 := Join(a.organizationId, NUL, a2), Join(b.organizationId, NUL, b2);
      JoinUnique(IntText(Version(a)), a1, IntText(Version(b)), b1);
      IntTextInjective(Version(a), Version(b));
      JoinUnique(a.organizationId, a2, b.organizationId, b2);
      JoinUnique(a.projectId, a3, b.projectId, b3);
      JoinUnique(a.domainId, a4, b.domainId, b4);
      JoinUnique(a.normalizedUrl, a.renderProfileHash, b.normalizedUrl, b.renderProfileHash);
    }
  }

  /** Two identities that differ never share a row key hash, unless their joined
      texts are a SHA-256 collision; nor, through it, a row. */
  lemma DistinctIdentitiesDistinctRows(sha: Sha256, a: Identity, b: Identity)
    requires NulFreeIdentity(a) && NulFreeIdentity(b) && Resolved(a) != Resolved(b)
    ensures CacheKeyHash(sha, a) == CacheKeyHash(sha, b) ==> Collision(sha, Joined(a), Joined(b))
    ensures ScopeOf(sha, a) == ScopeOf(sha, b) ==> Collision(sha, Joined(a), Joined(b))
  {
    JoinedInjective(a, b);
  }

  function ObjectKeyParams(sha: Sha256, id: Identity, generation: int, contentHash: string, e: Encoding): Params {
    Params(id.organizationId, id.projectId, id.domainId, CacheKeyHash(sha, id), generation, contentHash, Some(e))
  }

  /** Nor do they ever share a storage key, whatever generation, content and
      encoding go into it. */
  lemma DistinctIdentitiesDistinctObjects(sha: Sha256, a: Identity, b: Identity,
      g: int, ch: string, e: Encoding, g': int, ch': string, e': Encoding)
    requires NulFreeIdentity(a) && NulFreeIdentity(b) && Resolved(a) != Resolved(b)
    requires BuildKey(ObjectKeyParams(sha, a, g, ch, e)).Ok?
    requires BuildKey(ObjectKeyParams(sha, a, g, ch, e)) == BuildKey(ObjectKeyParams(sha, b, g', ch', e'))
    ensures Collision(sha, Joined(a), Joined(b))
  {
    BuildInjective(ObjectKeyParams(sha, a, g, ch, e), ObjectKeyParams(sha, b, g', ch', e'));
    DistinctIdentitiesDistinctRows(sha, a, b);
  }

  /** Without the NUL-freeness of the fields the join is ambiguous. */
  lemma NulInFieldIsAmbiguous()
    ensures exists a, b :: Resolved(a) != Resolved(b) && Joined(a) == Joined(b)
  {
    var a := Identity("o", "p", "d", ['u', NUL, 'v'], "w", None);
    var b := Identity("o", "p", "d", "u", ['v', NUL, 'w'], None);
    assert Join(a.normalizedUrl, NUL, a.renderProfileHash) == Join(b.normalizedUrl, NUL, b.renderProfileHash);
    assert Joined(a) == Joined(b);
  }

  /** The hashed text: the version, 1 if none is given, and the five fields in their
      order, with a NUL before each. */
  lemma JoinedReads(id: Identity)
    ensures var version := match id.cacheKeyVersion case None => "1" case Some(v) => IntText(v);
            Joined(id) == version + "\0" + id.organizationId + "\0" + id.projectId + "\0" + id.domainId
                          + "\0" + id.normalizedUrl + "\0" + id.renderProfileHash
  {
    assert IntText(1) == "1" by { assert Decimal(1) == ['1']; }
  }
}
