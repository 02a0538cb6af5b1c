/** What a persisted tree leaves in the rows of both tables: every column of
    every source row and of every discovered row. */
module SitemapRows {
  import opened Basics
  import opened SitemapFetch
  import opened SitemapPersistence

  // ---- Source rows -----------------------------------------------------------------

  function Preorder(n: Node): seq<Node>
    decreases n, 1
  {
    [n] + PreorderAll(n.children)
  }

  function PreorderAll(ns: seq<Node>): seq<Node>
    decreases ns, 0
  {
    if ns == [] then [] else Preorder(ns[0]) + PreorderAll(ns[1..])
  }

  /** The outcome of the last node with this normalized URL. */
  function LastOutcome(ns: seq<Node>, norm: string): Option<Outcome> {
    if ns == [] then None
    else if Last(ns).normalizedUrl == norm then Some(Last(ns).outcome)
    else LastOutcome(Front(ns), norm)
  }

  /** The error code of the last such node that failed. */
  function LastFailure(ns: seq<Node>, norm: string): Option<string> {
    if ns == [] then None
    else if Last(ns).normalizedUrl == norm && Last(ns).outcome.NotFetched? then Some(Last(ns).outcome.errorCode)
    else LastFailure(Front(ns), norm)
  }

  /** The number of pages of the last such node that was fetched. */
  function LastCount(ns: seq<Node>, norm: string): Option<nat> {
    if ns == [] then None
    else if Last(ns).normalizedUrl == norm && Last(ns).outcome.Fetched? then Some(|Last(ns).outcome.urls|)
    else LastCount(Front(ns), norm)
  }

  /** The raw URL of the first such node. */
  function FirstUrl(ns: seq<Node>, norm: string): Option<string> {
    if ns == [] then None
    else if FirstUrl(Front(ns), norm).Some? then FirstUrl(Front(ns), norm)
    else if Last(ns).normalizedUrl == norm then Some(Last(ns).url)
    else None
  }

  function Else<T>(a: Option<T>, b: Option<T>): Option<T> { if a.Some? then a else b }

  /** The nodes of a visit that concern the source `k`. */
  function At(dom: string, ns: seq<Node>, k: Key): seq<Node> { if k.0 == dom then ns else [] }

  lemma {:induction false} ScansConcat(a: seq<Node>, b: seq<Node>, norm: string)
    ensures LastOutcome(a + b, norm) == Else(LastOutcome(b, norm), LastOutcome(a, norm))
    ensures LastFailure(a + b, norm) == Else(LastFailure(b, norm), LastFailure(a, norm))
    ensures LastCount(a + b, norm) == Else(LastCount(b, norm), LastCount(a, norm))
    ensures FirstUrl(a + b, norm) == Else(FirstUrl(a, norm), FirstUrl(b, norm))
  {
    if b == [] {
      assert a + b == a;
    } else {
      assert Front(a + b) == a + Front(b) && Last(a + b) == Last(b);
      ScansConcat(a, Front(b), norm);
    }
  }

  lemma ScansOfOne(n: Node, norm: string)
    ensures var here := n.normalizedUrl == norm;
            && LastOutcome([n], norm) == (if here then Some(n.outcome) else None)
            && LastFailure([n], norm) == (if here && n.outcome.NotFetched? then Some(n.outcome.errorCode) else None)
            && LastCount([n], norm) == (if here && n.outcome.Fetched? then Some(|n.outcome.urls|) else None)
            && FirstUrl([n], norm) == (if here then Some(n.url) else None)
  {
    assert Front([n]) == [] && Last([n]) == n;
  }

  /** Which scans find something. */
  lemma {:induction false} ScansAgree(ns: seq<Node>, norm: string)
    ensures LastOutcome(ns, norm).Some? <==> FirstUrl(ns, norm).Some?
    ensures LastOutcome(ns, norm).Some? <==> LastFailure(ns, norm).Some? || LastCount(ns, norm).Some?
  {
    if ns != [] { ScansAgree(Front(ns), norm); }
  }

  /** The row of a source before the visit: a new one is inserted unfetched, with
      the raw URL it is first met under. */
  function RowBefore(t: Tables, k: Key, ns: seq<Node>): SourceRow {
    if k in t.index && t.index[k] in t.sources then t.sources[t.index[k]]
    else SourceRow(k.0, if FirstUrl(ns, k.1).Some? then FirstUrl(ns, k.1).value else "", k.1, NotFetchedYet, None, None, 0)
  }

  function StatusOf(o: Outcome): SourceStatus { if o.Fetched? then FetchSucceeded else FetchFailed }

  /** The row after the visit, column by column: the status is that of the last
      node, the error code that of the last failed one, the HTTP status and the
      page count those of the last fetched one. */
  function RowAfter(r: SourceRow, ns: seq<Node>, norm: string): SourceRow {
    SourceRow(
      r.domainId, r.url, r.normalizedUrl,
      if LastOutcome(ns, norm).Some? then StatusOf(LastOutcome(ns, norm).value) else r.status,
      Else(LastFailure(ns, norm), r.lastErrorCode),
      if LastCount(ns, norm).Some? then Some(200) else r.lastHttpStatus,
      if LastCount(ns, norm).Some? then LastCount(ns, norm).value else r.discoveredUrlCount)
  }

  ghost predicate SourceReflects(t: Tables, t': Tables, k: Key, ns: seq<Node>) {
    && (k in t'.index <==> k in t.index || LastOutcome(ns, k.1).Some?)
    && (k in t.index ==> k in t'.index && t'.index[k] == t.index[k])
    && (k in t'.index ==> t'.index[k] in t'.sources
                          && t'.sources[t'.index[k]] == RowAfter(RowBefore(t, k, ns), ns, k.1))
  }

  /** Going from `t` to `t'` did to the source rows what visiting `nodes` in
      order does. */
  ghost predicate Reflects(t: Tables, t': Tables, dom: string, nodes: seq<Node>) {
    Valid(t) && Valid(t') && forall k: Key :: SourceReflects(t, t', k, At(dom, nodes, k))
  }

  lemma KeyReflectsCompose(t: Tables, u: Tables, v: Tables, k: Key, a: seq<Node>, b: seq<Node>)
    requires Valid(t) && Valid(u)
    requires SourceReflects(t, u, k, a) && SourceReflects(u, v, k, b)
    ensures SourceReflects(t, v, k, a + b)
  {
    ScansConcat(a, b, k.1);
    ScansAgree(a, k.1);
    ScansAgree(b, k.1);
  }

  lemma ReflectsCompose(t: Tables, u: Tables, v: Tables, dom: string, a: seq<Node>, b: seq<Node>)
    requires Reflects(t, u, dom, a) && Reflects(u, v, dom, b)
    ensures Reflects(t, v, dom, a + b)
  {
    forall k: Key ensures SourceReflects(t, v, k, At(dom, a + b, k)) {
      assert SourceReflects(t, u, k, At(dom, a, k)) && SourceReflects(u, v, k, At(dom, b, k));
      KeyReflectsCompose(t, u, v, k, At(dom, a, k), At(dom, b, k));
    }
  }

  lemma {:induction false} UpsertUrlsKeepSources(t: Tables, dom: string, id: nat, urls: seq<PageUrl>)
    ensures UpsertUrls(t, dom, id, urls) == t.(discovered := UpsertUrls(t, dom, id, urls).discovered)
    decreases urls
  {
    if urls != [] {
      UpsertUrlsKeepSources(UpsertUrl(t, dom, id, urls[0]), dom, id, urls[1..]);
    }
  }

  ghost predicate IsSourceOf(t: Tables, dom: string, id: nat, n: Node) {
    id in t.sources && t.sources[id].domainId == dom && t.sources[id].normalizedUrl == n.normalizedUrl
  }

  /** Marking its source row is what visiting one node does to the sources. */
  lemma MarkReflects(t: Tables, dom: string, id: nat, n: Node, k: Key)
    requires Valid(t) && IsSourceOf(t, dom, id, n)
    ensures SourceReflects(t, MarkSource(t, id, n.outcome), k, At(dom, [n], k))
  {
    ScansOfOne(n, k.1);
    assert t.index[(dom, n.normalizedUrl)] == id;
    if k == (dom, n.normalizedUrl) {
      assert RowAfter(t.sources[id], [n], k.1) == Marked(t.sources[id], n.outcome);
    }
  }

  lemma PersistOwnReflects(t: Tables, dom: string, id: nat, n: Node)
    requires Valid(t) && IsSourceOf(t, dom, id, n)
    ensures Reflects(t, PersistOwn(t, dom, id, n), dom, [n])
  {
    var m := MarkSource(t, id, n.outcome);
    var t' := PersistOwn(t, dom, id, n);
    if n.outcome.Fetched? {
      UpsertUrlsKeepSources(m, dom, id, n.outcome.urls);
    }
    assert t'.sources == m.sources && t'.index == t.index && t'.nextId == t.nextId;
    forall k: Key ensures SourceReflects(t, t', k, At(dom, [n], k)) {
      MarkReflects(t, dom, id, n, k);
    }
  }

  /** Visiting a nested sitemap: its row is found or created, then visited. */
  lemma UpsertThenPersist(t: Tables, t1: Tables, t': Tables, dom: string, id: nat, n: Node)
    requires Valid(t) && (id, t1) == UpsertSource(t, dom, n)
    requires Reflects(t1, t', dom, Preorder(n))
    ensures Reflects(t, t', dom, Preorder(n))
  {
    forall k: Key ensures SourceReflects(t, t', k, At(dom, Preorder(n), k)) {
      assert SourceReflects(t1, t', k, At(dom, Preorder(n), k));
      ScansConcat([n], PreorderAll(n.children), k.1);
      ScansOfOne(n, k.1);
      if k == (dom, n.normalizedUrl) && k !in t.index {
        assert RowBefore(t1, k, Preorder(n)) == RowBefore(t, k, Preorder(n));
      }
    }
  }

  lemma {:induction false} PersistReflects(t: Tables, dom: string, id: nat, n: Node)
    requires Valid(t) && IsSourceOf(t, dom, id, n)
    ensures Reflects(t, PersistNode(t, dom, id, n), dom, Preorder(n))
    decreases n, 1
  {
    var own := PersistOwn(t, dom, id, n);
    PersistOwnReflects(t, dom, id, n);
    PersistChildrenReflects(own, dom, n.children);
    ReflectsCompose(t, own, PersistChildren(own, dom, n.children), dom, [n], PreorderAll(n.children));
  }

  lemma {:induction false} PersistChildrenReflects(t: Tables, dom: string, ns: seq<Node>)
    requires Valid(t)
    ensures Reflects(t, PersistChildren(t, dom, ns), dom, PreorderAll(ns))
    decreases ns, 0
  {
    if ns != [] {
      var (id, t1) := UpsertSource(t, dom, ns[0]);
      var t2 := PersistNode(t1, dom, id, ns[0]);
      assert Valid(t1) && IsSourceOf(t1, dom, id, ns[0]);
      PersistReflects(t1, dom, id, ns[0]);
      UpsertThenPersist(t, t1, t2, dom, id, ns[0]);
      PersistChildrenReflects(t2, dom, ns[1..]);
      ReflectsCompose(t, t2, PersistChildren(t2, dom, ns[1..]), dom, Preorder(ns[0]), PreorderAll(ns[1..]));
    }
  }

  /** After persisting a tree under its own source row there are just the old
      sources and those the tree visits, under their old ids, and every column of
      every row is what the preorder of the tree makes of its old value. */
  lemma SourcesSayTheirVisits(t: Tables, dom: string, id: nat, tree: Node)
    requires Valid(t) && IsSourceOf(t, dom, id, tree)
    ensures var t' := PersistNode(t, dom, id, tree);
            && Valid(t')
            && forall k: Key :: SourceReflects(t, t', k, At(dom, Preorder(tree), k))
  {
    PersistReflects(t, dom, id, tree);
  }

  // ---- Stale error codes ---------------------------------------------------------------

  /** No node with this URL failed. */
  ghost predicate NeverFailed(ns: seq<Node>, norm: string) {
    forall i :: 0 <= i < |ns| && ns[i].normalizedUrl == norm ==> ns[i].outcome.Fetched?
  }

  lemma {:induction false} LastFailureMeans(ns: seq<Node>, norm: string)
    ensures LastFailure(ns, norm) == None <==> NeverFailed(ns, norm)
  {
    if ns != [] {
      LastFailureMeans(Front(ns), norm);
      assert ns == Front(ns) + [Last(ns)];
    }
  }

  /** A row is left without an error code exactly when it had none before and no
      node of its URL failed; how its last fetch ended does not matter. */
  lemma NoErrorCodeExactly(t: Tables, dom: string, id: nat, tree: Node, norm: string)
    requires Valid(t) && IsSourceOf(t, dom, id, tree)
    requires (dom, norm) in PersistNode(t, dom, id, tree).index
    ensures var t', k := PersistNode(t, dom, id, tree), (dom, norm);
            && t'.index[k] in t'.sources
            && (t'.sources[t'.index[k]].lastErrorCode == None <==>
                  NeverFailed(Preorder(tree), norm)
                  && (k in t.index && t.index[k] in t.sources ==> t.sources[t.index[k]].lastErrorCode == None))
  {
    var t', k, ns := PersistNode(t, dom, id, tree), (dom, norm), Preorder(tree);
    PersistReflects(t, dom, id, tree);
    LastFailureMeans(ns, norm);
    assert SourceReflects(t, t', k, At(dom, ns, k)) && At(dom, ns, k) == ns;
  }

  /** A source whose last fetch failed, fetched again with success: its row says
      success and still carries the error code. */
  lemma SuccessKeepsTheErrorCode(dom: string, url: string, code: string, pages: seq<PageUrl>)
    returns (t: Tables, tree: Node)
    ensures Valid(t) && IsSourceOf(t, dom, 0, tree) && tree.outcome == Fetched(pages)
    ensures var row := t.sources[0];
            row.status == FetchFailed && row.lastErrorCode == Some(code)
    ensures var t' := PersistNode(t, dom, 0, tree);
            && 0 in t'.sources && t'.sources[0].status == FetchSucceeded && t'.sources[0].lastErrorCode == Some(code)
  {
    tree := Node(url, url, Fetched(pages), []);
    t := Tables(map[0 := SourceRow(dom, url, url, FetchFailed, Some(code), None, 0)], map[(dom, url) := 0], map[], 1);
    PersistReflects(t, dom, 0, tree);
    assert Preorder(tree) == [tree];
    ScansOfOne(tree, url);
    assert SourceReflects(t, PersistNode(t, dom, 0, tree), (dom, url), At(dom, [tree], (dom, url)));
  }

  // ---- Discovered rows -----------------------------------------------------------------

  /** A page, and the normalized URL of the sitemap that listed it. */
  datatype Listing = Listing(page: PageUrl, source: string)

  function ListingsOf(source: string, urls: seq<PageUrl>): seq<Listing> {
    if urls == [] then [] else [Listing(urls[0], source)] + ListingsOf(source, urls[1..])
  }

  function Listings(n: Node): seq<Listing>
    decreases n, 1
  {
    (if n.outcome.Fetched? then ListingsOf(n.normalizedUrl, n.outcome.urls) else []) + ListingsAll(n.children)
  }

  function ListingsAll(ns: seq<Node>): seq<Listing>
    decreases ns, 0
  {
    if ns == [] then [] else Listings(ns[0]) + ListingsAll(ns[1..])
  }

  /** The first and the last listing of a page. */
  function Ends(ls: seq<Listing>, norm: string): Option<(Listing, Listing)> {
    if ls == [] then None
    else if ls[0].page.normalizedUrl == norm then
      Some((ls[0], if Ends(ls[1..], norm).Some? then Ends(ls[1..], norm).value.1 else ls[0]))
    else Ends(ls[1..], norm)
  }

  lemma {:induction false} EndsConcat(a: seq<Listing>, b: seq<Listing>, norm: string)
    ensures Ends(a + b, norm) ==
      if Ends(a, norm).None? then Ends(b, norm)
      else if Ends(b, norm).None? then Ends(a, norm)
      else Some((Ends(a, norm).value.0, Ends(b, norm).value.1))
  {
    if a == [] {
      assert a + b == b;
    } else {
      assert (a + b)[1..] == a[1..] + b;
      EndsConcat(a[1..], b, norm);
    }
  }

  function ListedEnds(dom: string, ls: seq<Listing>, k: Key): Option<(Listing, Listing)> {
    if k.0 == dom then Ends(ls, k.1) else None
  }

  /** A row that was listed takes its attributes and its source from the last
      listing, and its raw URL and path from the first, unless it had them. */
  ghost predicate RowReflects(t: Tables, t': Tables, k: Key, ends: Option<(Listing, Listing)>) {
    if ends.None? then
      (k in t.discovered <==> k in t'.discovered) && (k in t.discovered ==> t'.discovered[k] == t.discovered[k])
    else
      var (first, last) := ends.value;
      && k in t'.discovered
      && var r := t'.discovered[k];
      && r.lastmod == last.page.lastmod && r.priority == last.page.priority && r.changefreq == last.page.changefreq
      && (k.0, last.source) in t'.index && r.sitemapSourceId == t'.index[(k.0, last.source)]
      && (if k in t.discovered then r.url == t.discovered[k].url && r.path == t.discovered[k].path
          else r.url == first.page.url && r.path == first.page.path)
  }

  ghost predicate IndexGrows(t: Tables, t': Tables) {
    forall k: Key :: k in t.index ==> k in t'.index && t'.index[k] == t.index[k]
  }

  ghost predicate Lists(t: Tables, t': Tables, dom: string, ls: seq<Listing>) {
    IndexGrows(t, t') && forall k: Key :: RowReflects(t, t', k, ListedEnds(dom, ls, k))
  }

  lemma ListsCompose(t: Tables, u: Tables, v: Tables, dom: string, a: seq<Listing>, b: seq<Listing>)
    requires Lists(t, u, dom, a) && Lists(u, v, dom, b)
    ensures Lists(t, v, dom, a + b)
  {
    forall k: Key ensures RowReflects(t, v, k, ListedEnds(dom, a + b, k)) {
      EndsConcat(a, b, k.1);
      assert RowReflects(t, u, k, ListedEnds(dom, a, k));
      assert RowReflects(u, v, k, ListedEnds(dom, b, k));
    }
  }

  lemma UpsertUrlLists(t: Tables, dom: string, id: nat, u: PageUrl, source: string)
    requires (dom, source) in t.index && t.index[(dom, source)] == id
    ensures Lists(t, UpsertUrl(t, dom, id, u), dom, [Listing(u, source)])
  {
    var ls := [Listing(u, source)];
    forall k: Key ensures RowReflects(t, UpsertUrl(t, dom, id, u), k, ListedEnds(dom, ls, k)) {
      assert ls[1..] == [] && Ends([], k.1) == None;
      assert k.0 == dom && k.1 == u.normalizedUrl <==> k == (dom, u.normalizedUrl);
    }
  }

  lemma {:induction false} UpsertUrlsList(t: Tables, dom: string, id: nat, urls: seq<PageUrl>, source: string)
    requires (dom, source) in t.index && t.index[(dom, source)] == id
    ensures Lists(t, UpsertUrls(t, dom, id, urls), dom, ListingsOf(source, urls))
    decreases urls
  {
    if urls != [] {
      var u := UpsertUrl(t, dom, id, urls[0]);
      UpsertUrlLists(t, dom, id, urls[0], source);
      UpsertUrlsList(u, dom, id, urls[1..], source);
      ListsCompose(t, u, UpsertUrls(u, dom, id, urls[1..]), dom, [Listing(urls[0], source)], ListingsOf(source, urls[1..]));
    }
  }

  /** Changing source rows only lists nothing. */
  lemma NothingListed(t: Tables, t': Tables, dom: string)
    requires t'.discovered == t.discovered && IndexGrows(t, t')
    ensures Lists(t, t', dom, [])
  {
    forall k: Key ensures RowReflects(t, t', k, ListedEnds(dom, [], k)) {
      assert Ends([], k.1) == None;
    }
  }

  lemma PersistOwnLists(t: Tables, dom: string, id: nat, n: Node)
    requires Valid(t) && IsSourceOf(t, dom, id, n)
    ensures Lists(t, PersistOwn(t, dom, id, n), dom,
                  if n.outcome.Fetched? then ListingsOf(n.normalizedUrl, n.outcome.urls) else [])
  {
    var m := MarkSource(t, id, n.outcome);
    NothingListed(t, m, dom);
    assert t.index[(t.sources[id].domainId, t.sources[id].normalizedUrl)] == id;
    if n.outcome.Fetched? {
      var ls := ListingsOf(n.normalizedUrl, n.outcome.urls);
      UpsertUrlsList(m, dom, id, n.outcome.urls, n.normalizedUrl);
      ListsCompose(t, m, PersistOwn(t, dom, id, n), dom, [], ls);
      assert [] + ls == ls;
    }
  }

  lemma {:induction false} PersistLists(t: Tables, dom: string, id: nat, n: Node)
    requires Valid(t) && IsSourceOf(t, dom, id, n)
    ensures Lists(t, PersistNode(t, dom, id, n), dom, Listings(n))
    decreases n, 1
  {
    var own := PersistOwn(t, dom, id, n);
    var ls := if n.outcome.Fetched? then ListingsOf(n.normalizedUrl, n.outcome.urls) else [];
    PersistOwnLists(t, dom, id, n);
    PersistOwnReflects(t, dom, id, n);
    PersistChildrenList(own, dom, n.children);
    ListsCompose(t, own, PersistChildren(own, dom, n.children), dom, ls, ListingsAll(n.children));
  }

  lemma {:induction false} PersistChildrenList(t: Tables, dom: string, ns: seq<Node>)
    requires Valid(t)
    ensures Lists(t, PersistChildren(t, dom, ns), dom, ListingsAll(ns))
    decreases ns, 0
  {
    if ns == [] {
      NothingListed(t, t, dom);
    } else {
      var (id, t1) := UpsertSource(t, dom, ns[0]);
      var t2 := PersistNode(t1, dom, id, ns[0]);
      assert Valid(t1) && IsSourceOf(t1, dom, id, ns[0]);
      NothingListed(t, t1, dom);
      PersistLists(t1, dom, id, ns[0]);
      PersistReflects(t1, dom, id, ns[0]);
      PersistChildrenList(t2, dom, ns[1..]);
      ListsCompose(t, t1, t2, dom, [], Listings(ns[0]));
      assert [] + Listings(ns[0]) == Listings(ns[0]);
      ListsCompose(t, t2, PersistChildren(t2, dom, ns[1..]), dom, Listings(ns[0]), ListingsAll(ns[1..]));
    }
  }

  /** After persisting a tree, every discovered URL it lists carries the
      attributes of its last listing in preorder and points at the source row of
      the sitemap that made it, keeping the raw URL it was first seen with; every
      other row is as before. */
  lemma RowsSayTheLastListing(t: Tables, dom: string, id: nat, tree: Node)
    requires Valid(t) && IsSourceOf(t, dom, id, tree)
    ensures var t' := PersistNode(t, dom, id, tree);
            forall k: Key :: RowReflects(t, t', k, ListedEnds(dom, Listings(tree), k))
  {
    PersistLists(t, dom, id, tree);
  }
}
