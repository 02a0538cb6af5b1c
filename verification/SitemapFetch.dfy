/** The recursive sitemap crawl (src/services/sitemap-fetch-service.ts) over an
    arbitrary, possibly cyclic, possibly changing web. All nodes of one crawl
    share two counters. */
module SitemapFetch {
  import opened Basics
  import opened SafeHttpClient

  const MAX_INDEX_DEPTH := 3
  const MAX_NESTED_SITEMAPS := 500
  const MAX_TOTAL_URLS_PER_DOMAIN := 200_000
  const MAX_REDIRECTS := 2

  datatype Entry = Entry(loc: string, lastmod: Option<string>, priority: Option<string>, changefreq: Option<string>)

  datatype Document = Document(isIndex: bool, entries: seq<Entry>)

  datatype PageUrl = PageUrl(
    url: string, normalizedUrl: string, path: string,
    lastmod: Option<string>, priority: Option<string>, changefreq: Option<string>)

  datatype Outcome = Fetched(urls: seq<PageUrl>) | NotFetched(errorCode: string)

  datatype Node = Node(url: string, normalizedUrl: string, outcome: Outcome, children: seq<Node>)

  /** An AppError carries its own code; any other error is named by errorCodeFor. */
  datatype CrawlError = AppError(code: string) | Raw(code: string)

  const LIMIT_EXCEEDED := "SITEMAP_LIMIT_EXCEEDED"
  const FETCH_FAILED := "SITEMAP_FETCH_FAILED"

  datatype Web = Web(
    network: Network,
    hostname: string,
    decode: (string, Reply) -> Result<Document, CrawlError>,     // gunzip and XML parsing of a 200 response
    normalize: string -> Option<(string, string)>,               // normalized URL and path, on this host
    nameOf: FetchError -> string)                                // errorCodeFor of a failed fetch

  /** The shared counters, and how many documents and requests were fetched. */
  datatype State = State(nestedCount: int, remainingUrlBudget: int, fetches: nat, requests: nat)

  function FetchOptions(w: Web): Options { Options(MAX_REDIRECTS, Some(w.hostname)) }

  /** fetchAndParseOne */
  function FetchOne(w: Web, url: string, st: State): (Result<Document, CrawlError>, State) {
    var (r, sent) := Fetch(w.network, st.requests, url, FetchOptions(w));
    var st' := st.(fetches := st.fetches + 1, requests := st.requests + |sent|);
    match r
    case Err(e) => (Err(Raw(w.nameOf(e))), st')
    case Ok(reply) =>
      if reply.status != 200 then (Err(AppError(FETCH_FAILED)), st') else (w.decode(url, reply), st')
  }

  /** The page URLs taken from a urlset, and the budget left. */
  function Pages(w: Web, entries: seq<Entry>, budget: int): (seq<PageUrl>, int) {
    if entries == [] || budget <= 0 then ([], budget)
    else
      match w.normalize(entries[0].loc)
      case None => Pages(w, entries[1..], budget)
      case Some((normalizedUrl, path)) =>
        var e := entries[0];
        var (rest, left) := Pages(w, entries[1..], budget - 1);
        ([PageUrl(e.loc, normalizedUrl, path, e.lastmod, e.priority, e.changefreq)] + rest, left)
  }

  /** What a depth-0 failure is reported as. */
  function Surfaced(e: CrawlError, depth: nat): CrawlError {
    if depth == 0 && e.Raw? then AppError(FETCH_FAILED) else e
  }

  function LevelsLeft(depth: nat): nat {
    if depth > MAX_INDEX_DEPTH then 0 else MAX_INDEX_DEPTH + 1 - depth
  }

  function Build(w: Web, url: string, depth: nat, st: State): (Result<Node, CrawlError>, State)
    decreases LevelsLeft(depth), 1, 0
  {
    if depth > MAX_INDEX_DEPTH then (Err(AppError(LIMIT_EXCEEDED)), st)
    else
      var (parsed, st1) := FetchOne(w, url, st);
      if parsed.Err? then (Err(Surfaced(parsed.error, depth)), st1)
      else if parsed.value.isIndex then
        var (children, st2) := Children(w, parsed.value.entries, depth, st1);
        (Ok(Node(url, url, Fetched([]), children)), st2)
      else if st1.remainingUrlBudget <= 0 then (Err(AppError(LIMIT_EXCEEDED)), st1)
      else
        var (urls, left) := Pages(w, parsed.value.entries, st1.remainingUrlBudget);
        (Ok(Node(url, url, Fetched(urls), [])), st1.(remainingUrlBudget := left))
  }

  /** The child nodes of an index. */
  function Children(w: Web, entries: seq<Entry>, depth: nat, st: State): (seq<Node>, State)
    requires depth <= MAX_INDEX_DEPTH
    decreases LevelsLeft(depth), 0, |entries|
  {
    if entries == [] || st.nestedCount >= MAX_NESTED_SITEMAPS then ([], st)
    else
      match w.normalize(entries[0].loc)
      case None => Children(w, entries[1..], depth, st)
      case Some((normalizedUrl, _)) =>
        var (r, st1) := Build(w, normalizedUrl, depth + 1, st.(nestedCount := st.nestedCount + 1));
        var (rest, st2) := Children(w, entries[1..], depth, st1);
        ([ChildOf(entries[0], normalizedUrl, r)] + rest, st2)
  }

  /** A nested failure becomes a failed leaf. */
  function ChildOf(e: Entry, normalizedUrl: string, r: Result<Node, CrawlError>): Node {
    if r.Ok? then r.value else Node(e.loc, normalizedUrl, NotFetched(r.error.code), [])
  }

  function CountDiscoveredUrls(n: Node): nat {
    (if n.outcome.Fetched? then |n.outcome.urls| else 0) + CountAll(n.children)
  }

  function CountAll(ns: seq<Node>): nat {
    if ns == [] then 0 else CountDiscoveredUrls(ns[0]) + CountAll(ns[1..])
  }

  // ---- Reading a document by its positions ---------------------------------------

  /** An entry whose loc normalizes on this host. */
  predicate Usable(w: Web, e: Entry) { w.normalize(e.loc).Some? }

  /** How many of the first `i` entries are usable. */
  function UsableBefore(w: Web, entries: seq<Entry>, i: nat): nat
    requires i <= |entries|
  {
    if i == 0 then 0 else (if Usable(w, entries[0]) then 1 else 0) + UsableBefore(w, entries[1..], i - 1)
  }

  /** The pages listed for a urlset: the usable entries in order, each with its own
      attributes, until the budget is used up. */
  ghost predicate ListsPages(w: Web, entries: seq<Entry>, budget: int, urls: seq<PageUrl>) {
    && |urls| == Min(UsableBefore(w, entries, |entries|), Max(0, budget))
    && forall i :: 0 <= i < |entries| && Usable(w, entries[i]) && UsableBefore(w, entries, i) < budget ==>
         && UsableBefore(w, entries, i) < |urls|
         && urls[UsableBefore(w, entries, i)]
            == PageUrl(entries[i].loc, w.normalize(entries[i].loc).value.0, w.normalize(entries[i].loc).value.1,
                       entries[i].lastmod, entries[i].priority, entries[i].changefreq)
  }

  lemma {:induction false} PagesExactly(w: Web, entries: seq<Entry>, budget: int)
    ensures ListsPages(w, entries, budget, Pages(w, entries, budget).0)
  {
    if entries != [] && budget > 0 {
      var left := if Usable(w, entries[0]) then budget - 1 else budget;
      PagesExactly(w, entries[1..], left);
      forall i | 1 <= i < |entries|
        ensures UsableBefore(w, entries, i) == UsableBefore(w, entries[1..], i - 1) + budget - left && entries[i] == entries[1..][i - 1]
      {
      }
    }
  }

  /** The crawl as the source runs it: one object holding the shared counters. */
  class Crawler {
    const web: Web
    var nestedCount: int
    var remainingUrlBudget: int
    var fetches: nat
    var requests: nat

    function Now(): State
      reads this
    {
      State(nestedCount, remainingUrlBudget, fetches, requests)
    }

    constructor (web: Web, existingTotal: int)
      ensures this.web == web && Now() == Fresh(existingTotal)
    {
      this.web := web;
      nestedCount := 0;
      remainingUrlBudget := Max(0, MAX_TOTAL_URLS_PER_DOMAIN - existingTotal);
      fetches, requests := 0, 0;
    }

    method FetchAndParseOne(url: string) returns (r: Result<Document, CrawlError>)
      modifies this
      ensures (r, Now()) == FetchOne(web, url, old(Now()))
    {
      var result, sent := SafeFetch(web.network, requests, url, FetchOptions(web));
      fetches := fetches + 1;
      requests := requests + |sent|;
      if result.Err? { return Err(Raw(web.nameOf(result.error))); }
      if result.value.status != 200 { return Err(AppError(FETCH_FAILED)); }
      r := web.decode(url, result.value);
    }

    method BuildSitemapFetchTree(url: string, depth: nat) returns (r: Result<Node, CrawlError>)
      modifies this
      ensures (r, Now()) == Build(web, url, depth, old(Now()))
      decreases LevelsLeft(depth), 1
    {
      if depth > MAX_INDEX_DEPTH { return Err(AppError(LIMIT_EXCEEDED)); }
      var parsed := FetchAndParseOne(url);
      if parsed.Err? { return Err(Surfaced(parsed.error, depth)); }
      if parsed.value.isIndex {
        var children := CollectChildren(parsed.value.entries, depth);
        return Ok(Node(url, url, Fetched([]), children));
      }
      if remainingUrlBudget <= 0 { return Err(AppError(LIMIT_EXCEEDED)); }
      var urls := CollectPages(parsed.value.entries);
      r := Ok(Node(url, url, Fetched(urls), []));
    }

    method CollectChildren(entries: seq<Entry>, depth: nat) returns (children: seq<Node>)
      requires depth <= MAX_INDEX_DEPTH
      modifies this
      ensures (children, Now()) == Children(web, entries, depth, old(Now()))
      decreases LevelsLeft(depth), 0
    {
      children := [];
      ghost var whole := Children(web, entries, depth, Now());
      for i := 0 to |entries|
        invariant whole.0 == children + Children(web, entries[i..], depth, Now()).0
        invariant whole.1 == Children(web, entries[i..], depth, Now()).1
      {
        assert entries[i..][0] == entries[i] && entries[i..][1..] == entries[i + 1..];
        if nestedCount >= MAX_NESTED_SITEMAPS {
          assert children + [] == children;
          return;
        }
        var normalized := web.normalize(entries[i].loc);
        if normalized.Some? {
          nestedCount := nestedCount + 1;
          var built := BuildSitemapFetchTree(normalized.value.0, depth + 1);
          var child := ChildOf(entries[i], normalized.value.0, built);
          Reassociate(children, child, Children(web, entries[i + 1..], depth, Now()).0);
          children := children + [child];
        }
      }
      assert entries[|entries|..] == [] && children + [] == children;
    }

    method CollectPages(entries: seq<Entry>) returns (urls: seq<PageUrl>)
      modifies this`remainingUrlBudget
      ensures (urls, remainingUrlBudget) == Pages(web, entries, old(remainingUrlBudget))
      ensures ListsPages(web, entries, old(remainingUrlBudget), urls)
    {
      PagesExactly(web, entries, remainingUrlBudget);
      urls := [];
      for i := 0 to |entries|
        invariant Pages(web, entries, old(remainingUrlBudget)).0 == urls + Pages(web, entries[i..], remainingUrlBudget).0
        invariant Pages(web, entries, old(remainingUrlBudget)).1 == Pages(web, entries[i..], remainingUrlBudget).1
      {
        assert entries[i..][0] == entries[i] && entries[i..][1..] == entries[i + 1..];
        if remainingUrlBudget <= 0 {
          assert urls + [] == urls;
          return;
        }
        var e, normalized := entries[i], web.normalize(entries[i].loc);
        if normalized.Some? {
          remainingUrlBudget := remainingUrlBudget - 1;
          var page := PageUrl(e.loc, normalized.value.0, normalized.value.1, e.lastmod, e.priority, e.changefreq);
          Reassociate(urls, page, Pages(web, entries[i + 1..], remainingUrlBudget).0);
          urls := urls + [page];
        }
      }
      assert entries[|entries|..] == [] && urls + [] == urls;
    }
  }

  /** The state the route starts a crawl in. */
  function Fresh(existingTotal: int): State {
    State(0, Max(0, MAX_TOTAL_URLS_PER_DOMAIN - existingTotal), 0, 0)
  }

  // ---- Conservation -------------------------------------------------------------

  function Size(n: Node): nat { 1 + SizeAll(n.children) }

  function SizeAll(ns: seq<Node>): nat {
    if ns == [] then 0 else Size(ns[0]) + SizeAll(ns[1..])
  }

  /** The nodes of a tree rooted at `depth` that were fetched rather than cut off. */
  function FetchedNodes(n: Node, depth: nat): nat {
    (if depth <= MAX_INDEX_DEPTH then 1 else 0) + FetchedAll(n.children, depth + 1)
  }

  function FetchedAll(ns: seq<Node>, depth: nat): nat {
    if ns == [] then 0 else FetchedNodes(ns[0], depth) + FetchedAll(ns[1..], depth)
  }

  lemma {:induction false} PagesUseBudget(w: Web, entries: seq<Entry>, budget: int)
    ensures var (urls, left) := Pages(w, entries, budget);
            && left == budget - |urls|
            && (budget >= 0 ==> left >= 0)
            && (forall i :: 0 <= i < |urls| ==> w.normalize(urls[i].url) == Some((urls[i].normalizedUrl, urls[i].path)))
  {
    if entries != [] && budget > 0 {
      PagesUseBudget(w, entries[1..], if w.normalize(entries[0].loc).Some? then budget - 1 else budget);
    }
  }

  /** What every crawl of a subtree does to the shared counters. */
  ghost predicate Conserved(st: State, st': State, discovered: int, nested: int, fetched: int) {
    && st.remainingUrlBudget - st'.remainingUrlBudget == discovered
    && st'.nestedCount - st.nestedCount == nested
    && st'.fetches - st.fetches == fetched
    && st'.requests - st.requests <= (MAX_REDIRECTS + 1) * fetched
    && st'.nestedCount <= Max(st.nestedCount, MAX_NESTED_SITEMAPS)
    && (st.remainingUrlBudget >= 0 ==> st'.remainingUrlBudget >= 0)
  }

  lemma LeafCounts(leaf: Node, depth: nat)
    requires leaf.outcome.NotFetched? && leaf.children == []
    ensures Size(leaf) == 1 && CountDiscoveredUrls(leaf) == 0
    ensures FetchedNodes(leaf, depth) == if depth <= MAX_INDEX_DEPTH then 1 else 0
  {
    assert FetchedAll(leaf.children, depth + 1) == 0;
  }

  lemma {:induction false} BuildConserves(w: Web, url: string, depth: nat, st: State)
    ensures var (r, st') := Build(w, url, depth, st);
            if r.Ok? then Conserved(st, st', CountDiscoveredUrls(r.value), Size(r.value) - 1, FetchedNodes(r.value, depth))
            else Conserved(st, st', 0, 0, if depth <= MAX_INDEX_DEPTH then 1 else 0)
    decreases LevelsLeft(depth), 1, 0
  {
    if depth <= MAX_INDEX_DEPTH {
      var (parsed, st1) := FetchOne(w, url, st);
      FetchIsConfined(w.network, st.requests, url, 0, FetchOptions(w));
      if parsed.Ok? && parsed.value.isIndex {
        ChildrenConserve(w, parsed.value.entries, depth, st1);
      } else if parsed.Ok? {
        PagesUseBudget(w, parsed.value.entries, st1.remainingUrlBudget);
      }
    }
  }

  lemma {:induction false} ChildrenConserve(w: Web, entries: seq<Entry>, depth: nat, st: State)
    requires depth <= MAX_INDEX_DEPTH
    ensures var (ns, st') := Children(w, entries, depth, st);
            Conserved(st, st', CountAll(ns), SizeAll(ns), FetchedAll(ns, depth + 1))
    decreases LevelsLeft(depth), 0, |entries|
  {
    if entries != [] && st.nestedCount < MAX_NESTED_SITEMAPS {
      var normalized := w.normalize(entries[0].loc);
      if normalized.None? {
        ChildrenConserve(w, entries[1..], depth, st);
      } else {
        var counted := st.(nestedCount := st.nestedCount + 1);
        var (r, st1) := Build(w, normalized.value.0, depth + 1, counted);
        BuildConserves(w, normalized.value.0, depth + 1, counted);
        ChildrenConserve(w, entries[1..], depth, st1);
        var (rest, st2) := Children(w, entries[1..], depth, st1);
        var child := ChildOf(entries[0], normalized.value.0, r);
        var ns := [child] + rest;
        assert ns[0] == child && ns[1..] == rest;
        assert Children(w, entries, depth, st) == (ns, st2);
        if r.Err? {
          LeafCounts(child, depth + 1);
        }
      }
    }
  }

  /** On success a crawl spends exactly as much budget as it discovered URLs and
      counts exactly its non-root nodes; a crawl that throws leaves both shared
      counters as they were. Documents fetched are exactly the nodes above the
      depth limit. */
  lemma CrawlConserves(w: Web, url: string, depth: nat, st: State)
    ensures var (r, st') := Build(w, url, depth, st);
            && (r.Ok? ==> st.remainingUrlBudget - st'.remainingUrlBudget == CountDiscoveredUrls(r.value)
                          && st'.nestedCount - st.nestedCount == Size(r.value) - 1
                          && st'.fetches - st.fetches == FetchedNodes(r.value, depth))
            && (r.Err? ==> st'.remainingUrlBudget == st.remainingUrlBudget && st'.nestedCount == st.nestedCount
                           && st'.fetches - st.fetches <= 1)
  {
    BuildConserves(w, url, depth, st);
  }

  lemma {:induction false} FetchedAtMostSize(n: Node, depth: nat)
    ensures FetchedNodes(n, depth) <= Size(n)
    decreases n, 1
  {
    FetchedAllAtMostSize(n.children, depth + 1);
  }

  lemma {:induction false} FetchedAllAtMostSize(ns: seq<Node>, depth: nat)
    ensures FetchedAll(ns, depth) <= SizeAll(ns)
    decreases ns, 0
  {
    if ns != [] {
      FetchedAtMostSize(ns[0], depth);
      FetchedAllAtMostSize(ns[1..], depth);
    }
  }

  /** For every web: a crawl from a fresh state terminates after at most 501
      documents and 1503 requests, its tree has at most 501 nodes, and it
      discovers no more URLs than the domain has room for. */
  lemma FreshCrawlIsBounded(w: Web, url: string, existingTotal: int)
    ensures var (r, st) := Build(w, url, 0, Fresh(existingTotal));
            && Fresh(existingTotal).nestedCount == 0 && Fresh(existingTotal).remainingUrlBudget == Max(0, 200_000 - existingTotal)
            && st.fetches <= 501 && st.requests <= 1503 && 0 <= st.nestedCount <= 500
            && (r.Ok? ==> Size(r.value) <= 501
                          && CountDiscoveredUrls(r.value) <= Max(0, MAX_TOTAL_URLS_PER_DOMAIN - existingTotal))
  {
    BuildConserves(w, url, 0, Fresh(existingTotal));
    var (r, st) := Build(w, url, 0, Fresh(existingTotal));
    if r.Ok? {
      FetchedAtMostSize(r.value, 0);
    }
  }

  // ---- Shape --------------------------------------------------------------------

  /** A node at `depth`: cut off exactly one level past the limit, failures are
      leaves, indexes list no pages, and pages are on the crawled host. */
  predicate Shaped(w: Web, n: Node, depth: nat)
    decreases n, 1
  {
    && depth <= MAX_INDEX_DEPTH + 1
    && (depth == MAX_INDEX_DEPTH + 1 ==> n.outcome == NotFetched(LIMIT_EXCEEDED))
    && (n.outcome.NotFetched? ==> n.children == [])
    && (n.outcome.Fetched? ==> n.outcome.urls == [] || n.children == [])
    && (n.outcome.Fetched? ==> forall i :: 0 <= i < |n.outcome.urls| ==> OnHost(w, n.outcome.urls[i]))
    && ShapedAll(w, n.children, depth + 1)
  }

  predicate OnHost(w: Web, u: PageUrl) { w.normalize(u.url) == Some((u.normalizedUrl, u.path)) }

  predicate ShapedAll(w: Web, ns: seq<Node>, depth: nat)
    decreases ns, 0
  {
    ns == [] || (Shaped(w, ns[0], depth) && ShapedAll(w, ns[1..], depth))
  }

  lemma {:induction false} TreesAreShaped(w: Web, url: string, depth: nat, st: State)
    ensures var r := Build(w, url, depth, st).0;
            && (r.Ok? ==> depth <= MAX_INDEX_DEPTH && Shaped(w, r.value, depth) && r.value.outcome.Fetched?
                          && r.value.normalizedUrl == url)
            && (depth > MAX_INDEX_DEPTH ==> r == Err(AppError(LIMIT_EXCEEDED)))
    decreases LevelsLeft(depth), 1, 0
  {
    if depth <= MAX_INDEX_DEPTH {
      var (parsed, st1) := FetchOne(w, url, st);
      if parsed.Ok? && parsed.value.isIndex {
        ChildrenAreShaped(w, parsed.value.entries, depth, st1);
      } else if parsed.Ok? {
        PagesUseBudget(w, parsed.value.entries, st1.remainingUrlBudget);
      }
    }
  }

  lemma {:induction false} ChildrenAreShaped(w: Web, entries: seq<Entry>, depth: nat, st: State)
    requires depth <= MAX_INDEX_DEPTH
    ensures ShapedAll(w, Children(w, entries, depth, st).0, depth + 1)
    decreases LevelsLeft(depth), 0, |entries|
  {
    if entries != [] && st.nestedCount < MAX_NESTED_SITEMAPS {
      var normalized := w.normalize(entries[0].loc);
      if normalized.None? {
        ChildrenAreShaped(w, entries[1..], depth, st);
      } else {
        var counted := st.(nestedCount := st.nestedCount + 1);
        var (r, st1) := Build(w, normalized.value.0, depth + 1, counted);
        TreesAreShaped(w, normalized.value.0, depth + 1, counted);
        ChildrenAreShaped(w, entries[1..], depth, st1);
        var rest := Children(w, entries[1..], depth, st1).0;
        var child := ChildOf(entries[0], normalized.value.0, r);
        assert ([child] + rest)[1..] == rest;
      }
    }
  }

  // ---- What a crawl reads ---------------------------------------------------------

  /** `child` is what crawling the entry at its normalized URL, one level deeper and
      counted as nested, comes to: its tree, or a failed leaf with the error's code. */
  ghost predicate IsChild(w: Web, e: Entry, depth: nat, s: State, child: Node, s': State)
    requires Usable(w, e)
  {
    var url := w.normalize(e.loc).value.0;
    var (r, t) := Build(w, url, depth + 1, s.(nestedCount := s.nestedCount + 1));
    s' == t && child == match r case Ok(tree) => tree case Err(error) => Node(e.loc, url, NotFetched(error.code), [])
  }

  /** The children of an index: the usable entries in order, each crawled from the
      state the one before it left, until 500 nested sitemaps have been counted. */
  ghost predicate ListsChildren(w: Web, entries: seq<Entry>, depth: nat, st: State, children: seq<Node>, states: seq<State>, st': State) {
    && |states| == |children| + 1 && states[0] == st && states[|children|] == st'
    && |children| <= UsableBefore(w, entries, |entries|)
    && (|children| < UsableBefore(w, entries, |entries|) ==> st'.nestedCount >= 500)
    && (forall j :: 0 <= j < |children| ==> states[j].nestedCount < 500)
    && forall i :: 0 <= i < |entries| && Usable(w, entries[i]) && UsableBefore(w, entries, i) < |children| ==>
         var n := UsableBefore(w, entries, i);
         IsChild(w, entries[i], depth, states[n], children[n], states[n + 1])
  }

  lemma {:induction false} ChildrenExactly(w: Web, entries: seq<Entry>, depth: nat, st: State) returns (states: seq<State>)
    requires depth <= MAX_INDEX_DEPTH
    ensures var (children, st') := Children(w, entries, depth, st);
            ListsChildren(w, entries, depth, st, children, states, st')
    decreases |entries|
  {
    if entries == [] || st.nestedCount >= MAX_NESTED_SITEMAPS {
      states := [st];
    } else if !Usable(w, entries[0]) {
      states := ChildrenExactly(w, entries[1..], depth, st);
      ChildrenSkip(w, entries, depth, st, Children(w, entries, depth, st).0, states, Children(w, entries, depth, st).1);
    } else {
      var (r, st1) := Build(w, w.normalize(entries[0].loc).value.0, depth + 1, st.(nestedCount := st.nestedCount + 1));
      var (rest, st2) := Children(w, entries[1..], depth, st1);
      var later := ChildrenExactly(w, entries[1..], depth, st1);
      states := [st] + later;
      ChildrenCons(w, entries, depth, st, st1, Children(w, entries, depth, st).0, rest, later, st2);
    }
  }

  lemma ChildrenSkip(w: Web, entries: seq<Entry>, depth: nat, st: State, children: seq<Node>, states: seq<State>, st': State)
    requires entries != [] && !Usable(w, entries[0])
    requires ListsChildren(w, entries[1..], depth, st, children, states, st')
    ensures ListsChildren(w, entries, depth, st, children, states, st')
  {
    forall i | 0 <= i < |entries| && Usable(w, entries[i]) && UsableBefore(w, entries, i) < |children|
      ensures var n := UsableBefore(w, entries, i);
              IsChild(w, entries[i], depth, states[n], children[n], states[n + 1])
    {
      assert entries[i] == entries[1..][i - 1] && UsableBefore(w, entries, i) == UsableBefore(w, entries[1..], i - 1);
    }
  }

  lemma ChildrenCons(w: Web, entries: seq<Entry>, depth: nat, st: State, st1: State,
      children: seq<Node>, rest: seq<Node>, later: seq<State>, st': State)
    requires entries != [] && Usable(w, entries[0]) && st.nestedCount < 500
    requires children != [] && children[1..] == rest && IsChild(w, entries[0], depth, st, children[0], st1)
    requires ListsChildren(w, entries[1..], depth, st1, rest, later, st')
    ensures ListsChildren(w, entries, depth, st, children, [st] + later, st')
  {
    var states := [st] + later;
    forall i | 0 <= i < |entries| && Usable(w, entries[i]) && UsableBefore(w, entries, i) < |children|
      ensures var n := UsableBefore(w, entries, i);
              IsChild(w, entries[i], depth, states[n], children[n], states[n + 1])
    {
      if i > 0 {
        var n := UsableBefore(w, entries[1..], i - 1);
        assert entries[i] == entries[1..][i - 1] && UsableBefore(w, entries, i) == n + 1;
        assert IsChild(w, entries[1..][i - 1], depth, later[n], rest[n], later[n + 1]);
      }
    }
  }

  /** What a crawl of `url` answers, from what the fetch and the parser gave it:
      the code of each failure, every page of a urlset, every child of an index. */
  lemma BuildReads(w: Web, url: string, depth: nat, st: State)
    ensures var (r, st') := Build(w, url, depth, st);
            if depth > 3 then r == Err(AppError("SITEMAP_LIMIT_EXCEEDED")) && st' == st
            else
              var (fetched, sent) := Fetch(w.network, st.requests, url, Options(2, Some(w.hostname)));
              var st1 := st.(fetches := st.fetches + 1, requests := st.requests + |sent|);
              match fetched
              case Err(e) =>
                r == Err(if depth == 0 then AppError("SITEMAP_FETCH_FAILED") else Raw(w.nameOf(e))) && st' == st1
              case Ok(reply) =>
                if reply.status != 200 then r == Err(AppError("SITEMAP_FETCH_FAILED")) && st' == st1
                else
                  match w.decode(url, reply)
                  case Err(e) => r == Err(if depth == 0 && e.Raw? then AppError("SITEMAP_FETCH_FAILED") else e) && st' == st1
                  case Ok(doc) =>
                    if doc.isIndex then
                      && r.Ok? && r.value.url == url && r.value.normalizedUrl == url && r.value.outcome == Fetched([])
                      && exists states :: ListsChildren(w, doc.entries, depth, st1, r.value.children, states, st')
                    else if st1.remainingUrlBudget <= 0 then r == Err(AppError("SITEMAP_LIMIT_EXCEEDED")) && st' == st1
                    else
                      && r.Ok? && r.value.url == url && r.value.normalizedUrl == url && r.value.children == []
                      && r.value.outcome.Fetched?
                      && ListsPages(w, doc.entries, st1.remainingUrlBudget, r.value.outcome.urls)
                      && st' == st1.(remainingUrlBudget := st1.remainingUrlBudget - |r.value.outcome.urls|)
  {
    if depth <= MAX_INDEX_DEPTH {
      var (parsed, st1) := FetchOne(w, url, st);
      if parsed.Ok? && parsed.value.isIndex {
        var states := ChildrenExactly(w, parsed.value.entries, depth, st1);
        var (r, st') := Build(w, url, depth, st);
        assert ListsChildren(w, parsed.value.entries, depth, st1, r.value.children, states, st');
      } else if parsed.Ok? {
        PagesExactly(w, parsed.value.entries, st1.remainingUrlBudget);
        PagesUseBudget(w, parsed.value.entries, st1.remainingUrlBudget);
      }
    }
  }
}
