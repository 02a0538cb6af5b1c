/** Persisting a crawled tree (src/repositories/postgres/
    sitemap-persistence-repository.ts): a recursive walk that updates and upserts
    rows of sitemap_sources and discovered_urls inside one transaction. */
module SitemapPersistence {
  import opened Basics
  import opened AuditedTransactions
  import opened SitemapFetch

  datatype SourceStatus = NotFetchedYet | FetchSucceeded | FetchFailed

  datatype SourceRow = SourceRow(
    domainId: string, url: string, normalizedUrl: string,
    status: SourceStatus, lastErrorCode: Option<string>, lastHttpStatus: Option<int>, discoveredUrlCount: nat)

  datatype UrlRow = UrlRow(
    sitemapSourceId: nat, url: string, path: string,
    lastmod: Option<string>, priority: Option<string>, changefreq: Option<string>)

  /** (domain, normalized URL): the unique index of both tables. */
  type Key = (string, string)

  datatype Tables = Tables(
    sources: map<nat, SourceRow>,     // by primary key
    index: map<Key, nat>,             // the unique index over sources
    discovered: map<Key, UrlRow>,
    nextId: nat)                      // every primary key handed out so far is smaller

  ghost predicate Valid(t: Tables) {
    && (forall id :: id in t.sources ==>
          id < t.nextId && (t.sources[id].domainId, t.sources[id].normalizedUrl) in t.index
          && t.index[(t.sources[id].domainId, t.sources[id].normalizedUrl)] == id)
    && (forall k :: k in t.index ==>
          t.index[k] in t.sources && (t.sources[t.index[k]].domainId, t.sources[t.index[k]].normalizedUrl) == k)
  }

  function Marked(r: SourceRow, o: Outcome): SourceRow {
    match o
    case Fetched(urls) => r.(status := FetchSucceeded, lastHttpStatus := Some(200), discoveredUrlCount := |urls|)
    case NotFetched(code) => r.(status := FetchFailed, lastErrorCode := Some(code))
  }

  /** UPDATE sitemap_sources ... WHERE id = ... */
  function MarkSource(t: Tables, id: nat, o: Outcome): Tables {
    if id in t.sources then t.(sources := t.sources[id := Marked(t.sources[id], o)]) else t
  }

  function UpsertUrl(t: Tables, dom: string, sourceId: nat, u: PageUrl): Tables {
    var k := (dom, u.normalizedUrl);
    var row :=
      if k in t.discovered then
        t.discovered[k].(sitemapSourceId := sourceId, lastmod := u.lastmod, priority := u.priority, changefreq := u.changefreq)
      else UrlRow(sourceId, u.url, u.path, u.lastmod, u.priority, u.changefreq);
    t.(discovered := t.discovered[k := row])
  }

  /** INSERT ... ON CONFLICT DO UPDATE ... RETURNING id, for a nested sitemap. */
  function UpsertSource(t: Tables, dom: string, n: Node): (nat, Tables) {
    var k := (dom, n.normalizedUrl);
    if k in t.index then (t.index[k], t)
    else
      var row := SourceRow(dom, n.url, n.normalizedUrl, NotFetchedYet, None, None, 0);
      (t.nextId, t.(sources := t.sources[t.nextId := row], index := t.index[k := t.nextId], nextId := t.nextId + 1))
  }

  function UpsertUrls(t: Tables, dom: string, sourceId: nat, urls: seq<PageUrl>): Tables
    decreases urls
  {
    if urls == [] then t else UpsertUrls(UpsertUrl(t, dom, sourceId, urls[0]), dom, sourceId, urls[1..])
  }

  function PersistOwn(t: Tables, dom: string, id: nat, n: Node): Tables {
    var t := MarkSource(t, id, n.outcome);
    if n.outcome.Fetched? then UpsertUrls(t, dom, id, n.outcome.urls) else t
  }

  function PersistNode(t: Tables, dom: string, id: nat, n: Node): Tables
    decreases n, 1
  {
    PersistChildren(PersistOwn(t, dom, id, n), dom, n.children)
  }

  function PersistChildren(t: Tables, dom: string, ns: seq<Node>): Tables
    decreases ns, 0
  {
    if ns == [] then t
    else
      var (id, t1) := UpsertSource(t, dom, ns[0]);
      PersistChildren(PersistNode(t1, dom, id, ns[0]), dom, ns[1..])
  }

  datatype FetchAction = FetchCompleted | FetchFailedAudit

  /** An audit row: its metadata is the discovered count or the reason. */
  datatype FetchAudit = FetchAudit(action: FetchAction, targetId: nat, discoveredCount: Option<nat>, reasonCode: Option<string>)

  function AuditOf(sourceId: nat, tree: Node): FetchAudit {
    match tree.outcome
    case Fetched(_) => FetchAudit(FetchCompleted, sourceId, Some(CountDiscoveredUrls(tree)), None)
    case NotFetched(code) => FetchAudit(FetchFailedAudit, sourceId, None, Some(code))
  }

  /** Where the transaction fails: at an upsert, the tables being left half
      written, at its audit row, or at its commit. */
  datatype Fault = NoFault | DuringUpserts(left: Tables) | AtAuditRow | AtCommit

  /** The tables as the transaction changes them, and what the audit metric counted. */
  class Database {
    var sources: map<nat, SourceRow>
    var index: map<Key, nat>
    var discovered: map<Key, UrlRow>
    var nextId: nat
    var audits: seq<FetchAudit>
    var counters: multiset<(FetchAction, bool)>

    function Contents(): Tables
      reads this
    {
      Tables(sources, index, discovered, nextId)
    }

    method UpdateSource(id: nat, o: Outcome)
      modifies `sources, `index, `discovered, `nextId
      ensures Contents() == MarkSource(old(Contents()), id, o)
    {
      if id in sources {
        sources := sources[id := Marked(sources[id], o)];
      }
    }

    method UpsertDiscoveredUrl(dom: string, sourceId: nat, u: PageUrl)
      modifies `sources, `index, `discovered, `nextId
      ensures Contents() == UpsertUrl(old(Contents()), dom, sourceId, u)
    {
      var k := (dom, u.normalizedUrl);
      if k in discovered {
        discovered := discovered[k := discovered[k].(sitemapSourceId := sourceId, lastmod := u.lastmod,
                                                     priority := u.priority, changefreq := u.changefreq)];
      } else {
        discovered := discovered[k := UrlRow(sourceId, u.url, u.path, u.lastmod, u.priority, u.changefreq)];
      }
    }

    method UpsertNestedSource(dom: string, n: Node) returns (id: nat)
      modifies `sources, `index, `discovered, `nextId
      ensures (id, Contents()) == UpsertSource(old(Contents()), dom, n)
    {
      var k := (dom, n.normalizedUrl);
      if k in index { return index[k]; }
      id := nextId;
      sources := sources[id := SourceRow(dom, n.url, n.normalizedUrl, NotFetchedYet, None, None, 0)];
      index := index[k := id];
      nextId := nextId + 1;
    }

    method Persist(dom: string, sourceId: nat, n: Node)
      modifies `sources, `index, `discovered, `nextId
      ensures Contents() == PersistNode(old(Contents()), dom, sourceId, n)
      decreases n
    {
      UpdateSource(sourceId, n.outcome);
      if n.outcome.Fetched? {
        var urls := n.outcome.urls;
        ghost var marked := Contents();
        for i := 0 to |urls|
          invariant UpsertUrls(Contents(), dom, sourceId, urls[i..]) == UpsertUrls(marked, dom, sourceId, urls)
        {
          assert urls[i..][0] == urls[i] && urls[i..][1..] == urls[i + 1..];
          UpsertDiscoveredUrl(dom, sourceId, urls[i]);
        }
      }
      ghost var own := Contents();
      for i := 0 to |n.children|
        invariant PersistChildren(Contents(), dom, n.children[i..]) == PersistChildren(own, dom, n.children)
      {
        assert n.children[i..][0] == n.children[i] && n.children[i..][1..] == n.children[i + 1..];
        var id := UpsertNestedSource(dom, n.children[i]);
        Persist(dom, id, n.children[i]);
      }
    }

    method Restore(t: Tables)
      modifies `sources, `index, `discovered, `nextId
      ensures Contents() == t
    {
      sources, index, discovered, nextId := t.sources, t.index, t.discovered, t.nextId;
    }

    /** The tree and its audit row are persisted together and counted as a success;
        or the tables are as before, and a failure is counted if the audit row was
        reached. */
    method PersistSitemapFetch(dom: string, sourceId: nat, tree: Node, fault: Fault) returns (r: Result<nat, Failure>)
      modifies this
      ensures r == if fault.NoFault? then Ok(CountDiscoveredUrls(tree)) else Err(Failure)
      ensures r.Ok? ==>
        && Contents() == PersistNode(old(Contents()), dom, sourceId, tree)
        && audits == old(audits) +
             [match tree.outcome
              case Fetched(_) => FetchAudit(FetchCompleted, sourceId, Some(CountDiscoveredUrls(tree)), None)
              case NotFetched(code) => FetchAudit(FetchFailedAudit, sourceId, None, Some(code))]
        && counters == old(counters) + multiset{(if tree.outcome.Fetched? then FetchCompleted else FetchFailedAudit, true)}
      ensures r.Err? ==>
        && Contents() == old(Contents()) && audits == old(audits)
        && counters == old(counters) +
             if fault.DuringUpserts? then multiset{}
             else multiset{(if tree.outcome.Fetched? then FetchCompleted else FetchFailedAudit, false)}
    {
      var saved := (Contents(), audits);
      var audited, result := None, Err(Failure);
      if fault.DuringUpserts? {
        Restore(fault.left);
      } else {
        Persist(dom, sourceId, tree);
        audited := Some(if tree.outcome.Fetched? then FetchCompleted else FetchFailedAudit);
        if !fault.AtAuditRow? {
          audits := audits + [AuditOf(sourceId, tree)];
          if !fault.AtCommit? {
            result := Ok(CountDiscoveredUrls(tree));
          }
        }
      }
      var (kept, counted) := Audited(saved, counters, Attempt((Contents(), audits), audited, result));
      Restore(kept.0);
      audits, counters := kept.1, counted;
      r := result;
    }
  }

  // ---- Which URLs a domain has discovered ------------------------------------------

  function DomainUrls(t: Tables, dom: string): set<string> {
    set k | k in t.discovered && k.0 == dom :: k.1
  }

  function PageSet(urls: seq<PageUrl>): set<string> {
    if urls == [] then {} else {urls[0].normalizedUrl} + PageSet(urls[1..])
  }

  function TreeUrls(n: Node): set<string>
    decreases n, 1
  {
    (if n.outcome.Fetched? then PageSet(n.outcome.urls) else {}) + TreesUrls(n.children)
  }

  function TreesUrls(ns: seq<Node>): set<string>
    decreases ns, 0
  {
    if ns == [] then {} else TreeUrls(ns[0]) + TreesUrls(ns[1..])
  }

  lemma {:induction false} PageSetSize(urls: seq<PageUrl>)
    ensures |PageSet(urls)| <= |urls|
  {
    if urls != [] {
      PageSetSize(urls[1..]);
      UnionSize({urls[0].normalizedUrl}, PageSet(urls[1..]));
    }
  }

  lemma UnionSize<T>(a: set<T>, b: set<T>)
    ensures |a + b| <= |a| + |b|
  {
    assert a + b == a + (b - a);
    assert a !! (b - a);
    assert |b| == |b - a| + |b * a| by {
      assert b == (b - a) + (b * a) && (b - a) !! (b * a);
    }
  }

  lemma {:induction false} TreeUrlsSize(n: Node)
    ensures |TreeUrls(n)| <= CountDiscoveredUrls(n)
    decreases n, 1
  {
    var own := if n.outcome.Fetched? then PageSet(n.outcome.urls) else {};
    if n.outcome.Fetched? {
      PageSetSize(n.outcome.urls);
    }
    TreesUrlsSize(n.children);
    UnionSize(own, TreesUrls(n.children));
  }

  lemma {:induction false} TreesUrlsSize(ns: seq<Node>)
    ensures |TreesUrls(ns)| <= CountAll(ns)
    decreases ns, 0
  {
    if ns != [] {
      TreeUrlsSize(ns[0]);
      TreesUrlsSize(ns[1..]);
      UnionSize(TreeUrls(ns[0]), TreesUrls(ns[1..]));
    }
  }

  /** `t'` has the URLs of `t`, plus `added` in this domain. */
  ghost predicate UrlsAdded(t: Tables, t': Tables, dom: string, added: set<string>) {
    forall k :: k in t'.discovered <==> k in t.discovered || (k.0 == dom && k.1 in added)
  }

  lemma {:induction false} UpsertUrlsAdds(t: Tables, dom: string, id: nat, urls: seq<PageUrl>)
    ensures UrlsAdded(t, UpsertUrls(t, dom, id, urls), dom, PageSet(urls))
    decreases urls
  {
    if urls != [] {
      UpsertUrlsAdds(UpsertUrl(t, dom, id, urls[0]), dom, id, urls[1..]);
    }
  }

  lemma {:induction false} PersistNodeAdds(t: Tables, dom: string, id: nat, n: Node)
    ensures UrlsAdded(t, PersistNode(t, dom, id, n), dom, TreeUrls(n))
    decreases n, 1
  {
    if n.outcome.Fetched? {
      UpsertUrlsAdds(MarkSource(t, id, n.outcome), dom, id, n.outcome.urls);
    }
    PersistChildrenAdds(PersistOwn(t, dom, id, n), dom, n.children);
  }

  lemma {:induction false} PersistChildrenAdds(t: Tables, dom: string, ns: seq<Node>)
    ensures UrlsAdded(t, PersistChildren(t, dom, ns), dom, TreesUrls(ns))
    decreases ns, 0
  {
    if ns != [] {
      var (id, t1) := UpsertSource(t, dom, ns[0]);
      PersistNodeAdds(t1, dom, id, ns[0]);
      PersistChildrenAdds(PersistNode(t1, dom, id, ns[0]), dom, ns[1..]);
    }
  }

  lemma AddedUrls(t: Tables, t': Tables, dom: string, added: set<string>, d: string)
    requires UrlsAdded(t, t', dom, added)
    ensures DomainUrls(t', d) == DomainUrls(t, d) + if d == dom then added else {}
  {
    forall x ensures x in DomainUrls(t', d) <==> x in DomainUrls(t, d) || (d == dom && x in added) {
      var k: Key := (d, x);
      assert k in t'.discovered <==> x in DomainUrls(t', d);
      assert k in t.discovered <==> x in DomainUrls(t, d);
    }
  }

  /** After persisting any tree, a domain has discovered exactly its old URLs and
      the tree's, at most CountDiscoveredUrls(tree) of them new; other domains
      are untouched. */
  lemma PersistAddsTheTree(t: Tables, dom: string, id: nat, tree: Node)
    ensures var t' := PersistNode(t, dom, id, tree);
            && DomainUrls(t', dom) == DomainUrls(t, dom) + TreeUrls(tree)
            && |DomainUrls(t', dom)| <= |DomainUrls(t, dom)| + CountDiscoveredUrls(tree)
            && (forall other :: other != dom ==> DomainUrls(t', other) == DomainUrls(t, other))
  {
    var t' := PersistNode(t, dom, id, tree);
    PersistNodeAdds(t, dom, id, tree);
    AddedUrls(t, t', dom, TreeUrls(tree), dom);
    UnionSize(DomainUrls(t, dom), TreeUrls(tree));
    TreeUrlsSize(tree);
    forall other | other != dom ensures DomainUrls(t', other) == DomainUrls(t, other) {
      AddedUrls(t, t', dom, TreeUrls(tree), other);
    }
  }

  /** A serial fetch-and-persist of any source against any web never takes a
      domain past 200000 discovered URLs, unless it was past them already, and
      then it adds nothing. */
  lemma SerialFetchKeepsTableBound(w: Web, url: string, t: Tables, dom: string, id: nat)
    requires Build(w, url, 0, Fresh(|DomainUrls(t, dom)|)).0.Ok?
    ensures var tree := Build(w, url, 0, Fresh(|DomainUrls(t, dom)|)).0.value;
            var t' := PersistNode(t, dom, id, tree);
            && DomainUrls(t', dom) == DomainUrls(t, dom) + TreeUrls(tree)
            && |DomainUrls(t', dom)| <= Max(|DomainUrls(t, dom)|, MAX_TOTAL_URLS_PER_DOMAIN)
  {
    var tree := Build(w, url, 0, Fresh(|DomainUrls(t, dom)|)).0.value;
    FreshCrawlIsBounded(w, url, |DomainUrls(t, dom)|);
    PersistAddsTheTree(t, dom, id, tree);
  }
}
