/** The redirect loop of the safe HTTP client (src/lib/safe-http-client.ts)
    against an arbitrary, possibly changing network. URL parsing, the address
    policy and the transport are parameters. */
module SafeHttpClient {
  import opened Basics

  datatype Url = Url(protocol: string, hostname: string, rest: string)

  datatype Reply = Reply(status: int, location: Option<string>, body: string)

  datatype FetchError =
    | BlockedUrl | TooManyRedirects | RedirectHostMismatch | RedirectDowngrade
    | Transport(reason: string)   // too_large, timeout, network_error
    | Unparsable                  // a Location header that is no URL: not a SafeFetchError

  datatype Network = Network(
    validate: string -> Option<Url>,                       // the SSRF policy, parsing included
    respond: (nat, Url) -> Result<Reply, string>,          // the answer to the n-th request ever made
    resolve: (string, Url) -> Option<string>)              // a Location against the current URL

  datatype Options = Options(maxRedirects: int, requiredHostname: Option<string>)

  function CheckHop(u: Url, required: Option<string>): Option<FetchError> {
    if u.protocol != "https:" then Some(RedirectDowngrade)
    else if required.Some? && required.value != "" && u.hostname != required.value then Some(RedirectHostMismatch)
    else None
  }

  predicate IsRedirect(r: Reply) {
    300 <= r.status < 400 && r.location.Some? && r.location.value != ""
  }

  /** The outcome of a fetch and every URL it sent a request to, when `n` requests
      were made before it and `redirects` were followed already. */
  function Hops(w: Network, n: nat, url: string, redirects: nat, o: Options): (Result<Reply, FetchError>, seq<Url>)
    decreases Max(0, o.maxRedirects - redirects)
  {
    match w.validate(url)
    case None => (Err(BlockedUrl), [])
    case Some(u) =>
      if CheckHop(u, o.requiredHostname).Some? then (Err(CheckHop(u, o.requiredHostname).value), [])
      else
        match w.respond(n, u)
        case Err(reason) => (Err(Transport(reason)), [u])
        case Ok(reply) =>
          if !IsRedirect(reply) then (Ok(reply), [u])
          else if redirects + 1 > o.maxRedirects then (Err(TooManyRedirects), [u])
          else
            match w.resolve(reply.location.value, u)
            case None => (Err(Unparsable), [u])
            case Some(next) =>
              var (r, sent) := Hops(w, n + 1, next, redirects + 1, o);
              (r, [u] + sent)
  }

  function Fetch(w: Network, n: nat, url: string, o: Options): (Result<Reply, FetchError>, seq<Url>) {
    Hops(w, n, url, 0, o)
  }

  method SafeFetch(w: Network, n: nat, initialUrl: string, o: Options)
    returns (r: Result<Reply, FetchError>, sent: seq<Url>)
    ensures (r, sent) == Fetch(w, n, initialUrl, o)
  {
    var currentUrl, redirects := initialUrl, 0;
    sent := [];
    while true
      invariant redirects <= Max(0, o.maxRedirects)
      invariant Fetch(w, n, initialUrl, o).0 == Hops(w, n + |sent|, currentUrl, redirects, o).0
      invariant Fetch(w, n, initialUrl, o).1 == sent + Hops(w, n + |sent|, currentUrl, redirects, o).1
      decreases Max(0, o.maxRedirects) - redirects
    {
      assert sent + [] == sent;
      var parsed := w.validate(currentUrl);
      if parsed.None? { return Err(BlockedUrl), sent; }
      var bad := CheckHop(parsed.value, o.requiredHostname);
      if bad.Some? { return Err(bad.value), sent; }
      var result := w.respond(n + |sent|, parsed.value);
      sent := sent + [parsed.value];
      if result.Err? { return Err(Transport(result.error)), sent; }
      if !IsRedirect(result.value) { return Ok(result.value), sent; }
      redirects := redirects + 1;
      if redirects > o.maxRedirects { return Err(TooManyRedirects), sent; }
      var next := w.resolve(result.value.location.value, parsed.value);
      if next.None? { return Err(Unparsable), sent; }
      Reassociate(Front(sent), parsed.value, Hops(w, n + |sent|, next.value, redirects, o).1);
      currentUrl := next.value;
    }
  }

  ghost predicate SafeUrl(w: Network, u: Url, o: Options) {
    && u.protocol == "https:"
    && (o.requiredHostname.Some? && o.requiredHostname.value != "" ==> u.hostname == o.requiredHostname.value)
    && exists text :: w.validate(text) == Some(u)
  }

  /** However the network answers, a fetch sends at most maxRedirects + 1
      requests, each to a URL the policy accepted, over HTTPS and to the
      required host, and never returns a redirect it could have followed. */
  lemma {:induction false} FetchIsConfined(w: Network, n: nat, url: string, redirects: nat, o: Options)
    ensures var (r, sent) := Hops(w, n, url, redirects, o);
            && |sent| <= Max(0, o.maxRedirects - redirects) + 1
            && (forall i :: 0 <= i < |sent| ==> SafeUrl(w, sent[i], o))
            && (r.Ok? ==> !IsRedirect(r.value) && sent != [] && w.respond(n + |sent| - 1, Last(sent)) == Ok(r.value))
    decreases Max(0, o.maxRedirects - redirects)
  {
    var parsed := w.validate(url);
    if parsed.Some? && CheckHop(parsed.value, o.requiredHostname).None? {
      var reply := w.respond(n, parsed.value);
      if reply.Ok? && IsRedirect(reply.value) && redirects + 1 <= o.maxRedirects {
        var next := w.resolve(reply.value.location.value, parsed.value);
        if next.Some? {
          FetchIsConfined(w, n + 1, next.value, redirects + 1, o);
        }
      }
    }
  }

  /** The answer to the k-th request of a fetch. */
  function AnswerTo(w: Network, n: nat, sent: seq<Url>, k: nat): Result<Reply, string>
    requires k < |sent|
  {
    w.respond(n + k, sent[k])
  }

  /** The k-th request was answered by a redirect within the budget, to the next text. */
  ghost predicate Redirects(w: Network, n: nat, texts: seq<string>, sent: seq<Url>, k: nat, left: int)
    requires k < |sent| && k + 1 < |texts|
  {
    var a := AnswerTo(w, n, sent, k);
    && a.Ok? && 300 <= a.value.status < 400 && a.value.location.Some? && a.value.location.value != ""
    && k < left && w.resolve(a.value.location.value, sent[k]) == Some(texts[k + 1])
  }

  /** Why a URL is refused before it is requested. */
  ghost predicate Refuses(w: Network, text: string, o: Options, e: FetchError) {
    match w.validate(text)
    case None => e == BlockedUrl
    case Some(u) =>
      if u.protocol != "https:" then e == RedirectDowngrade
      else o.requiredHostname.Some? && o.requiredHostname.value != "" && u.hostname != o.requiredHostname.value
           && e == RedirectHostMismatch
  }

  /** What the answer to the last request makes of the fetch. */
  ghost predicate Ends(w: Network, n: nat, sent: seq<Url>, left: int, r: Result<Reply, FetchError>)
    requires sent != []
  {
    match AnswerTo(w, n, sent, |sent| - 1)
    case Err(reason) => r == Err(Transport(reason))
    case Ok(reply) =>
      if !(300 <= reply.status < 400 && reply.location.Some? && reply.location.value != "") then r == Ok(reply)
      else if |sent| > left then r == Err(TooManyRedirects)
      else w.resolve(reply.location.value, Last(sent)) == None && r == Err(Unparsable)
  }

  /** `texts` are the URLs a fetch came to: each but the first is the redirect
      target of the one before, resolved against it; each was requested, except a
      last one that was refused. */
  ghost predicate Followed(w: Network, n: nat, url: string, left: int, o: Options,
                           texts: seq<string>, r: Result<Reply, FetchError>, sent: seq<Url>) {
    && |sent| <= |texts| <= |sent| + 1 && texts != [] && texts[0] == url
    && (forall k :: 0 <= k < |sent| ==> w.validate(texts[k]) == Some(sent[k]))
    && (forall k :: 0 <= k < |texts| - 1 ==> Redirects(w, n, texts, sent, k, left))
    && (|texts| == |sent| ==> Ends(w, n, sent, left, r))
    && (|texts| == |sent| + 1 ==> r.Err? && Refuses(w, Last(texts), o, r.error))
  }

  /** A fetch follows every redirect within its budget, against the URL it came
      from, and reports what stopped it. */
  lemma {:induction false} FetchFollows(w: Network, n: nat, url: string, redirects: nat, o: Options) returns (texts: seq<string>)
    ensures var (r, sent) := Hops(w, n, url, redirects, o);
            Followed(w, n, url, o.maxRedirects - redirects, o, texts, r, sent)
    decreases Max(0, o.maxRedirects - redirects)
  {
    texts := [url];
    var parsed := w.validate(url);
    if parsed.Some? && CheckHop(parsed.value, o.requiredHostname).None? {
      var reply := w.respond(n, parsed.value);
      if reply.Ok? && IsRedirect(reply.value) && redirects + 1 <= o.maxRedirects {
        var next := w.resolve(reply.value.location.value, parsed.value);
        if next.Some? {
          var rest := FetchFollows(w, n + 1, next.value, redirects + 1, o);
          FollowedCons(w, n, url, o.maxRedirects - redirects, o, rest, parsed.value, Hops(w, n + 1, next.value, redirects + 1, o));
          texts := [url] + rest;
        }
      }
    }
  }

  lemma FollowedCons(w: Network, n: nat, url: string, left: int, o: Options, rest: seq<string>, u: Url,
                     later: (Result<Reply, FetchError>, seq<Url>))
    requires rest != [] && Followed(w, n + 1, rest[0], left - 1, o, rest, later.0, later.1)
    requires w.validate(url) == Some(u) && Redirects(w, n, [url] + rest, [u], 0, left)
    ensures Followed(w, n, url, left, o, [url] + rest, later.0, [u] + later.1)
  {
    var texts, sent := [url] + rest, [u] + later.1;
    forall k | 0 <= k < |texts| - 1 ensures Redirects(w, n, texts, sent, k, left) {
      if k > 0 {
        AnswerLater(w, n, u, later.1, k - 1);
        assert Redirects(w, n + 1, rest, later.1, k - 1, left - 1);
      }
    }
    if later.1 != [] { AnswerLater(w, n, u, later.1, |later.1| - 1); }
  }

  lemma AnswerLater(w: Network, n: nat, u: Url, sent: seq<Url>, k: nat)
    requires k < |sent|
    ensures AnswerTo(w, n, [u] + sent, k + 1) == AnswerTo(w, n + 1, sent, k)
  {
    assert n + (k + 1) == n + 1 + k;
  }
}
