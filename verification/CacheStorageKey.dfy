/** The immutable, content-addressed object key (src/lib/cache-storage-key.ts):
    a printer, the parser the read path uses, and the laws between them. */
module CacheStorageKey {
  import opened Basics

  datatype Encoding = Br | Gzip | Plain

  datatype KeyError =
    | InvalidInput        // InvalidCacheStorageKeyInputError
    | BeyondSafeInteger   // a generation JavaScript numbers do not represent exactly

  datatype Params = Params(
    organizationId: string, projectId: string, domainId: string,
    cacheKeyHash: string, generation: int, contentHash: string,
    contentEncoding: Option<Encoding>)

  datatype ParsedKey = ParsedKey(
    organizationId: string, projectId: string, domainId: string,
    cacheKeyHash: string, generation: int, contentHash: string,
    contentEncoding: Encoding)

  const MAX_SAFE_INTEGER := 9007199254740991

  predicate IsDigit(c: char) { '0' <= c <= '9' }

  predicate IsHex(c: char) { IsDigit(c) || 'a' <= c <= 'f' }

  predicate IsSafeChar(c: char) {
    IsDigit(c) || 'a' <= c <= 'z' || 'A' <= c <= 'Z' || c == '_' || c == '-'
  }

  predicate IsSegment(s: string) {
    1 <= |s| <= 64 && forall i :: 0 <= i < |s| ==> IsSafeChar(s[i])
  }

  predicate IsHexOf(s: string, n: nat) {
    |s| == n && forall i :: 0 <= i < |s| ==> IsHex(s[i])
  }

  predicate IsHex64(s: string) { IsHexOf(s, 64) }

  predicate IsDigits(s: string) {
    |s| >= 1 && forall i :: 0 <= i < |s| ==> IsDigit(s[i])
  }

  function Extension(e: Option<Encoding>): string {
    match e
    case Some(Br) => ".html.br"
    case Some(Gzip) => ".html.gz"
    case Some(Plain) => ".html"
    case None => ".html"
  }

  function EncodingFor(ext: string): Option<Encoding> {
    if ext == ".html.br" then Some(Br)
    else if ext == ".html.gz" then Some(Gzip)
    else if ext == ".html" then Some(Plain)
    else None
  }

  // ---- Decimal numerals -------------------------------------------------------

  function Digit(n: nat): char
    requires n < 10
  {
    ('0' as int + n) as char
  }

  function Decimal(n: nat): (s: string)
    ensures IsDigits(s)
  {
    if n < 10 then [Digit(n)] else Decimal(n / 10) + [Digit(n % 10)]
  }

  function DigitValue(c: char): nat
    requires IsDigit(c)
  {
    c as int - '0' as int
  }

  function Value(s: string): nat
    requires forall i :: 0 <= i < |s| ==> IsDigit(s[i])
  {
    if s == [] then 0 else 10 * Value(Front(s)) + DigitValue(Last(s))
  }

  predicate NoLeadingZero(s: string) { |s| <= 1 || s[0] != '0' }

  lemma {:induction false} ValueOfDecimal(n: nat)
    ensures Value(Decimal(n)) == n && NoLeadingZero(Decimal(n))
    ensures n > 0 ==> Decimal(n)[0] != '0'
  {
    if n >= 10 {
      ValueOfDecimal(n / 10);
      assert Front(Decimal(n)) == Decimal(n / 10);
    } else {
      assert Front([Digit(n)]) == [];
    }
  }

  lemma {:induction false} DecimalOfValue(s: string)
    requires IsDigits(s) && s[0] != '0'
    ensures Value(s) > 0 && Decimal(Value(s)) == s
  {
    assert s == Front(s) + [Last(s)];
    if |s| > 1 {
      DecimalOfValue(Front(s));
      assert Value(s) / 10 == Value(Front(s));
    } else {
      assert Value(Front(s)) == 0;
    }
  }

  // ---- Printer ----------------------------------------------------------------

  /** The variable parts of a key, as the parser's pattern captures them. */
  datatype Shape = Shape(
    org: string, proj: string, dom: string, prefix: string,
    hash: string, digits: string, contentHash: string, ext: string)

  /** `head`, a separator, and the rest of the text. */
  function Join(head: string, separator: char, rest: string): string {
    head + ([separator] + rest)
  }

  function FileName(s: Shape): string {
    ['g'] + Join(s.digits, '-', s.contentHash + s.ext)
  }

  function Render(s: Shape): string {
    "cache/v1/" +
    Join(s.org, '/', Join(s.proj, '/', Join(s.dom, '/', Join(s.prefix, '/', Join(s.hash, '/', FileName(s))))))
  }

  /** What the capture groups of the key pattern accept. */
  predicate WellShaped(s: Shape) {
    && IsSegment(s.org) && IsSegment(s.proj) && IsSegment(s.dom)
    && IsHexOf(s.prefix, 2) && IsHex64(s.hash)
    && IsDigits(s.digits) && IsHex64(s.contentHash)
    && EncodingFor(s.ext).Some?
  }

  function ShapeOf(p: Params): Shape
    requires p.generation >= 0 && |p.cacheKeyHash| >= 2
  {
    Shape(p.organizationId, p.projectId, p.domainId, p.cacheKeyHash[..2], p.cacheKeyHash,
          Decimal(p.generation), p.contentHash, Extension(p.contentEncoding))
  }

  function BuildKey(p: Params): Result<string, KeyError> {
    if !IsSegment(p.organizationId) then Err(InvalidInput)
    else if !IsSegment(p.projectId) then Err(InvalidInput)
    else if !IsSegment(p.domainId) then Err(InvalidInput)
    else if !IsHex64(p.cacheKeyHash) then Err(InvalidInput)
    else if p.generation < 1 then Err(InvalidInput)
    else if !IsHex64(p.contentHash) then Err(InvalidInput)
    else Ok(Render(ShapeOf(p)))
  }

  // ---- Parser -----------------------------------------------------------------

  /** The text before and after the first occurrence of `c`. */
  function Cut(s: string, c: char): Option<(string, string)> {
    if s == [] then None
    else if s[0] == c then Some(([], s[1..]))
    else
      match Cut(s[1..], c)
      case None => None
      case Some((a, b)) => Some(([s[0]] + a, b))
  }

  function MatchFile(org: string, proj: string, dom: string, prefix: string, hash: string, file: string): Option<Shape> {
    if file == [] || file[0] != 'g' then None
    else
      match Cut(file[1..], '-')
      case None => None
      case Some((digits, rest)) =>
        if |rest| < 64 then None
        else
          var s := Shape(org, proj, dom, prefix, hash, digits, rest[..64], rest[64..]);
          if WellShaped(s) then Some(s) else None
  }

  /** Anchored matching of the key pattern, giving its capture groups. */
  function MatchKey(key: string): Option<Shape> {
    if !("cache/v1/" <= key) then None
    else
      match Cut(key[9..], '/') case None => None case Some((org, r1)) =>
      match Cut(r1, '/') case None => None case Some((proj, r2)) =>
      match Cut(r2, '/') case None => None case Some((dom, r3)) =>
      match Cut(r3, '/') case None => None case Some((prefix, r4)) =>
      match Cut(r4, '/') case None => None case Some((hash, file)) =>
      MatchFile(org, proj, dom, prefix, hash, file)
  }

  function ParseKey(key: string): Result<ParsedKey, KeyError> {
    match MatchKey(key)
    case None => Err(InvalidInput)
    case Some(s) =>
      if !WellShaped(s) || !(s.prefix <= s.hash) then Err(InvalidInput)
      else if Value(s.digits) > MAX_SAFE_INTEGER then Err(BeyondSafeInteger)
      else if Value(s.digits) < 1 then Err(InvalidInput)
      else Ok(ParsedKey(s.org, s.proj, s.dom, s.hash, Value(s.digits), s.contentHash, EncodingFor(s.ext).value))
  }

  /** assertCacheObjectKeyMatches, with the row's encoding as stored text. */
  function CheckKeyMatches(key: string, cacheKeyHash: string, generation: int, contentHash: string, encoding: string)
    : Result<ParsedKey, KeyError>
  {
    match ParseKey(key)
    case Err(e) => Err(e)
    case Ok(p) =>
      if p.cacheKeyHash != cacheKeyHash || p.generation != generation || p.contentHash != contentHash
         || EncodingName(p.contentEncoding) != encoding
      then Err(InvalidInput) else Ok(p)
  }

  function EncodingName(e: Encoding): string {
    match e case Br => "br" case Gzip => "gzip" case Plain => "identity"
  }

  // ---- The parser accepts exactly the printed shapes ----------------------------

  lemma {:induction false} CutFinds(a: string, c: char, b: string)
    requires forall i :: 0 <= i < |a| ==> a[i] != c
    ensures Cut(Join(a, c, b), c) == Some((a, b))
  {
    var s := Join(a, c, b);
    if a == [] {
      assert s[1..] == b;
    } else {
      CutFinds(a[1..], c, b);
      assert s[1..] == Join(a[1..], c, b);
      assert s[0] == a[0] && [a[0]] + a[1..] == a;
    }
  }

  lemma {:induction false} CutSplits(s: string, c: char)
    requires Cut(s, c).Some?
    ensures s == Join(Cut(s, c).value.0, c, Cut(s, c).value.1)
  {
    if s[0] != c {
      CutSplits(s[1..], c);
    }
  }

  lemma MatchFileOfFileName(s: Shape)
    requires WellShaped(s)
    ensures MatchFile(s.org, s.proj, s.dom, s.prefix, s.hash, FileName(s)) == Some(s)
  {
    var file := FileName(s);
    assert file[1..] == Join(s.digits, '-', s.contentHash + s.ext);
    CutFinds(s.digits, '-', s.contentHash + s.ext);
    assert (s.contentHash + s.ext)[..64] == s.contentHash;
    assert (s.contentHash + s.ext)[64..] == s.ext;
  }

  lemma MatchOfRender(s: Shape)
    requires WellShaped(s)
    ensures MatchKey(Render(s)) == Some(s)
  {
    var f := FileName(s);
    var r4 := Join(s.hash, '/', f);
    var r3 := Join(s.prefix, '/', r4);
    var r2 := Join(s.dom, '/', r3);
    var r1 := Join(s.proj, '/', r2);
    assert Render(s)[9..] == Join(s.org, '/', r1);
    CutFinds(s.org, '/', r1);
    CutFinds(s.proj, '/', r2);
    CutFinds(s.dom, '/', r3);
    CutFinds(s.prefix, '/', r4);
    CutFinds(s.hash, '/', f);
    MatchFileOfFileName(s);
  }

  lemma MatchFileSound(org: string, proj: string, dom: string, prefix: string, hash: string, file: string)
    requires MatchFile(org, proj, dom, prefix, hash, file).Some?
    ensures var s := MatchFile(org, proj, dom, prefix, hash, file).value;
            WellShaped(s) && s.org == org && s.proj == proj && s.dom == dom && s.prefix == prefix
            && s.hash == hash && FileName(s) == file
  {
    CutSplits(file[1..], '-');
    var s := MatchFile(org, proj, dom, prefix, hash, file).value;
    assert s.contentHash + s.ext == Cut(file[1..], '-').value.1;
    assert file == ['g'] + file[1..];
  }

  lemma MatchSound(key: string)
    requires MatchKey(key).Some?
    ensures WellShaped(MatchKey(key).value) && Render(MatchKey(key).value) == key
  {
    var rest := key[9..];
    var (org, r1) := Cut(rest, '/').value;
    var (proj, r2) := Cut(r1, '/').value;
    var (dom, r3) := Cut(r2, '/').value;
    var (prefix, r4) := Cut(r3, '/').value;
    var (hash, file) := Cut(r4, '/').value;
    CutSplits(rest, '/');
    CutSplits(r1, '/');
    CutSplits(r2, '/');
    CutSplits(r3, '/');
    CutSplits(r4, '/');
    MatchFileSound(org, proj, dom, prefix, hash, file);
    assert key == "cache/v1/" + rest;
  }

  /** The pattern matches a text exactly when it is the rendering of a
      well-shaped key, and then its captures are the only possible ones. */
  lemma PatternIsExact(key: string, s: Shape)
    ensures MatchKey(key) == Some(s) <==> WellShaped(s) && Render(s) == key
  {
    if MatchKey(key) == Some(s) {
      MatchSound(key);
    }
    if WellShaped(s) && Render(s) == key {
      MatchOfRender(s);
    }
  }

  // ---- Round trips ----------------------------------------------------------------

  function Defaulted(p: Params): ParsedKey {
    ParsedKey(p.organizationId, p.projectId, p.domainId, p.cacheKeyHash, p.generation, p.contentHash,
              if p.contentEncoding.Some? then p.contentEncoding.value else Plain)
  }

  function AsParams(k: ParsedKey): Params {
    Params(k.organizationId, k.projectId, k.domainId, k.cacheKeyHash, k.generation, k.contentHash,
           Some(k.contentEncoding))
  }

  /** Parsing a built key gives back every field (a missing encoding reads back
      as identity). */
  lemma ParseAfterBuild(p: Params)
    requires BuildKey(p).Ok? && p.generation <= MAX_SAFE_INTEGER
    ensures ParseKey(BuildKey(p).value) == Ok(Defaulted(p))
  {
    ValueOfDecimal(p.generation);
    MatchOfRender(ShapeOf(p));
  }

  lemma SameShape(p: Params, q: Params)
    requires BuildKey(p).Ok? && BuildKey(p) == BuildKey(q)
    ensures ShapeOf(p) == ShapeOf(q)
  {
    MatchOfRender(ShapeOf(p));
    MatchOfRender(ShapeOf(q));
  }

  /** Two parameter sets share a key exactly when they agree on everything the
      key names, for generations of any size. */
  lemma BuildInjective(p: Params, q: Params)
    requires BuildKey(p).Ok? && BuildKey(q).Ok?
    ensures BuildKey(p) == BuildKey(q) <==> Defaulted(p) == Defaulted(q)
  {
    if BuildKey(p) == BuildKey(q) {
      SameShape(p, q);
      ValueOfDecimal(p.generation);
      ValueOfDecimal(q.generation);
    }
  }

  lemma ValueOfOneDigit(s: string)
    requires IsDigits(s) && |s| == 1
    ensures Value(s) == DigitValue(s[0])
  {
    assert Value(Front(s)) == 0;
  }

  /** What a successful parse says about the matched text. */
  lemma ParsedShape(key: string)
    requires ParseKey(key).Ok?
    ensures MatchKey(key).Some?
    ensures var s, p := MatchKey(key).value, AsParams(ParseKey(key).value);
            && WellShaped(s) && Render(s) == key
            && BuildKey(p) == Ok(Render(s.(digits := Decimal(Value(s.digits)))))
            && WellShaped(s.(digits := Decimal(Value(s.digits))))
            && Value(s.digits) >= 1
  {
    MatchSound(key);
    var s, p := MatchKey(key).value, AsParams(ParseKey(key).value);
    assert s.prefix == s.hash[..2];
    assert Extension(p.contentEncoding) == s.ext;
    assert ShapeOf(p) == s.(digits := Decimal(Value(s.digits)));
  }

  /** Rebuilding a parsed key reproduces it exactly when the generation was
      written without leading zeros. */
  lemma BuildAfterParse(key: string)
    requires ParseKey(key).Ok?
    ensures BuildKey(AsParams(ParseKey(key).value)).Ok?
    ensures BuildKey(AsParams(ParseKey(key).value)) == Ok(key)
            <==> NoLeadingZero(MatchKey(key).value.digits)
  {
    ParsedShape(key);
    var s := MatchKey(key).value;
    var t := s.(digits := Decimal(Value(s.digits)));
    ValueOfDecimal(Value(s.digits));
    MatchOfRender(t);
    if NoLeadingZero(s.digits) {
      if |s.digits| == 1 {
        ValueOfOneDigit(s.digits);
      }
      DecimalOfValue(s.digits);
      assert t == s;
    }
  }

  predicate HasDotDot(s: string) {
    exists i :: 0 <= i < |s| - 1 && s[i] == '.' && s[i + 1] == '.'
  }

  predicate NoDot(s: string) { forall i :: 0 <= i < |s| ==> s[i] != '.' }

  lemma NoDotBefore(head: string, rest: string)
    requires NoDot(head) && !HasDotDot(rest)
    ensures !HasDotDot(head + rest)
  {
  }

  lemma JoinNeverTraverses(head: string, c: char, rest: string)
    requires NoDot(head) && c != '.' && !HasDotDot(rest)
    ensures !HasDotDot(Join(head, c, rest))
  {
    NoDotBefore([c], rest);
    NoDotBefore(head, [c] + rest);
  }

  /** No accepted or built key contains "..", so the table's traversal check
      never rejects one. */
  lemma KeysNeverTraverse(s: Shape)
    requires WellShaped(s)
    ensures !HasDotDot(Render(s))
  {
    NoDotBefore(s.contentHash, s.ext);
    JoinNeverTraverses(s.digits, '-', s.contentHash + s.ext);
    var f := FileName(s);
    NoDotBefore(['g'], Join(s.digits, '-', s.contentHash + s.ext));
    var r4 := Join(s.hash, '/', f);
    var r3 := Join(s.prefix, '/', r4);
    var r2 := Join(s.dom, '/', r3);
    var r1 := Join(s.proj, '/', r2);
    JoinNeverTraverses(s.hash, '/', f);
    JoinNeverTraverses(s.prefix, '/', r4);
    JoinNeverTraverses(s.dom, '/', r3);
    JoinNeverTraverses(s.proj, '/', r2);
    JoinNeverTraverses(s.org, '/', r1);
    NoDotBefore("cache/v1/", Join(s.org, '/', r1));
  }

  // ---- The text of a key ---------------------------------------------------------------

  /** By character code: digits, upper-case and lower-case letters, hyphen, underscore. */
  predicate SafeCode(n: int) { 48 <= n <= 57 || 65 <= n <= 90 || 97 <= n <= 122 || n == 45 || n == 95 }

  function HexDigits(): string { "0123456789abcdef" }

  lemma HexExactly(c: char)
    ensures IsHex(c) <==> c in HexDigits()
  {
  }

  /** Between 1 and 64 letters, digits, underscores and hyphens. */
  predicate SafeText(s: string) { 1 <= |s| <= 64 && forall i :: 0 <= i < |s| ==> SafeCode(s[i] as int) }

  predicate Digest(s: string) { |s| == 64 && forall i :: 0 <= i < |s| ==> s[i] in HexDigits() }

  lemma TextsExactly(s: string)
    ensures IsSegment(s) <==> SafeText(s)
    ensures IsHex64(s) <==> Digest(s)
  {
    forall i | 0 <= i < |s|
      ensures (IsSafeChar(s[i]) <==> SafeCode(s[i] as int)) && (IsHex(s[i]) <==> s[i] in HexDigits())
    {
      HexExactly(s[i]);
    }
  }

  function ExtensionText(e: Option<Encoding>): string {
    if e == Some(Br) then ".html.br" else if e == Some(Gzip) then ".html.gz" else ".html"
  }

  /** Which parameters have a key, and its text. */
  lemma KeyReads(p: Params)
    ensures if SafeText(p.organizationId) && SafeText(p.projectId) && SafeText(p.domainId)
               && Digest(p.cacheKeyHash) && p.generation >= 1 && Digest(p.contentHash)
            then BuildKey(p) == Ok("cache/v1/" + p.organizationId + "/" + p.projectId + "/" + p.domainId + "/"
                                   + p.cacheKeyHash[..2] + "/" + p.cacheKeyHash
                                   + "/g" + Decimal(p.generation) + "-" + p.contentHash + ExtensionText(p.contentEncoding))
            else BuildKey(p) == Err(InvalidInput)
  {
    TextsExactly(p.organizationId);
    TextsExactly(p.projectId);
    TextsExactly(p.domainId);
    TextsExactly(p.cacheKeyHash);
    TextsExactly(p.contentHash);
    if BuildKey(p).Ok? { RenderReads(ShapeOf(p)); }
  }

  lemma RenderReads(s: Shape)
    ensures Render(s) == "cache/v1/" + s.org + "/" + s.proj + "/" + s.dom + "/" + s.prefix + "/" + s.hash
                         + "/g" + s.digits + "-" + s.contentHash + s.ext
  {
    assert FileName(s) == "g" + s.digits + "-" + s.contentHash + s.ext;
  }

  /** What the parser makes of a text: nothing unless it is the rendering of a well
      shaped key, and then what its parts say. */
  lemma ParseExactly(key: string, s: Shape)
    ensures MatchKey(key) == None ==> ParseKey(key) == Err(InvalidInput)
    ensures WellShaped(s) && Render(s) == key ==>
              ParseKey(key) ==
                if !(s.prefix <= s.hash) || Value(s.digits) == 0 then Err(InvalidInput)
                else if Value(s.digits) > 9_007_199_254_740_991 then Err(BeyondSafeInteger)
                else Ok(ParsedKey(s.org, s.proj, s.dom, s.hash, Value(s.digits), s.contentHash,
                        if s.ext == ".html.br" then Br else if s.ext == ".html.gz" then Gzip else Plain))
  {
    PatternIsExact(key, s);
  }
}
