/**
 * The crawl of `Crawler.process`: a recursive depth-first closure over the
 * pages' links. The page fetcher is the parameter `links`, which maps a page
 * to the hrefs `get_urls` returns for it; a finite `universe` bounds every
 * link, which is what makes the recursion terminate.
 */
module Crawling {
  import opened Seqs
  import opened Classifier

  /**
   * The state of one run: `visited` is `sitemap_urls`, the discovered URLs
   * in discovery order; `loaded` logs the pages handed to the fetcher.
   */
  datatype Run = Run(visited: seq<string>, loaded: seq<string>)

  /** `Crawler.__init__`: only the root is known and nothing is loaded yet. */
  function Init(domain: string): (r: Run)
    ensures NoDups(r.visited) && Elems(r.visited) == {domain}
    ensures r.loaded == []
  {
    Run([domain], [])
  }

  /** Every link of every page lies in `universe`. */
  ghost predicate Bounded(links: string -> seq<string>, universe: set<string>)
  {
    forall page, i :: 0 <= i < |links(page)| ==> links(page)[i] in universe
  }

  /** What `get_urls` promises: every link passes `is_url`, and none repeats. */
  ghost predicate Filtered(links: string -> seq<string>)
  {
    forall page :: NoDups(links(page)) && AllUrls(links(page))
  }

  ghost predicate AllIn(s: seq<string>, universe: set<string>)
  {
    forall i :: 0 <= i < |s| ==> s[i] in universe
  }

  predicate AllUrls(s: seq<string>)
  {
    forall i :: 0 <= i < |s| ==> IsUrl(s[i])
  }

  /**
   * `Crawler.process(url)`: load `url` and handle its links in order.
   * Entries are only ever appended, each new one is a link taken from the
   * universe, no entry is listed twice, and every page loaded during the call
   * is `url` followed by the entries the call appended, in that order.
   */
  function Process(links: string -> seq<string>, universe: set<string>, url: string, run: Run): (r: Run)
    requires Bounded(links, universe)
    ensures run.visited <= r.visited
    ensures r.loaded == run.loaded + [url] + r.visited[|run.visited|..]
    decreases Unvisited(universe, run.visited), 1, 0
  {
    ProcessLinks(links, universe, links(url), Run(run.visited, run.loaded + [url]))
  }

  /**
   * The loop of `Crawler.process` over the links still to handle: a link not
   * yet visited is appended and expanded before the next one is looked at.
   */
  function ProcessLinks(links: string -> seq<string>, universe: set<string>, todo: seq<string>, run: Run): (r: Run)
    requires Bounded(links, universe)
    requires AllIn(todo, universe)
    ensures run.visited <= r.visited
    ensures r.loaded == run.loaded + r.visited[|run.visited|..]
    decreases Unvisited(universe, run.visited), 0, |todo|
  {
    if todo == [] then run
    else
      var link := todo[0];
      if link in run.visited then ProcessLinks(links, universe, todo[1..], run)
      else
        assert link in universe;
        AppendFreshShrinks(universe, run.visited, link);
        var child := Process(links, universe, link, Run(run.visited + [link], run.loaded));
        DescendShrinks(universe, run.visited, link, child.visited);
        assert AllIn(todo[1..], universe);
        var r := ProcessLinks(links, universe, todo[1..], child);
        SpliceLog(run.visited, link, child.visited, r.visited, run.loaded, child.loaded, r.loaded);
        r
  }

  /** Expanding a fresh link leaves fewer universe members unlisted. */
  lemma DescendShrinks(universe: set<string>, v: seq<string>, link: string, child: seq<string>)
    requires link in universe && link !in v
    requires v + [link] <= child
    ensures v <= child
    ensures Unvisited(universe, child) < Unvisited(universe, v)
  {
    AppendFreshShrinks(universe, v, link);
    PrefixNoGrow(universe, v + [link], child);
  }

  /** The pages a fresh link's subtree loads, then those of its later siblings. */
  lemma SpliceLog(v: seq<string>, link: string, child: seq<string>, after: seq<string>,
                  log0: seq<string>, log1: seq<string>, log2: seq<string>)
    requires v + [link] <= child <= after
    requires log1 == log0 + [link] + child[|v| + 1..]
    requires log2 == log1 + after[|child|..]
    ensures v <= after
    ensures log2 == log0 + after[|v|..]
  {
    assert after[|v|] == link;
    assert after[|v|..] == [link] + after[|v| + 1..|child|] + after[|child|..];
    assert child[|v| + 1..] == after[|v| + 1..|child|];
  }

  /**
   * What a call may append to `before`: links from the universe (that passed
   * the classifier, when `urls` holds), without creating a duplicate.
   */
  ghost predicate AppendsFresh(universe: set<string>, urls: bool, before: seq<string>, after: seq<string>)
    requires before <= after
  {
    && (forall i :: |before| <= i < |after| ==> after[i] in universe)
    && (urls ==> forall i :: |before| <= i < |after| ==> IsUrl(after[i]))
    && (NoDups(before) ==> NoDups(after))
  }

  lemma AppendsFreshStep(universe: set<string>, urls: bool, v: seq<string>, link: string)
    requires link in universe && link !in v
    requires urls ==> IsUrl(link)
    ensures AppendsFresh(universe, urls, v, v + [link])
  {
  }

  lemma AppendsFreshTrans(universe: set<string>, urls: bool, urls1: bool, urls2: bool, a: seq<string>, b: seq<string>, c: seq<string>)
    requires a <= b <= c
    requires urls ==> urls1 && urls2
    requires AppendsFresh(universe, urls1, a, b) && AppendsFresh(universe, urls2, b, c)
    ensures AppendsFresh(universe, urls, a, c)
  {
    assert forall i :: |a| <= i < |b| ==> c[i] == b[i];
  }

  lemma {:induction false} ProcessAppendsFresh(links: string -> seq<string>, universe: set<string>, url: string, run: Run)
    requires Bounded(links, universe)
    ensures AppendsFresh(universe, Filtered(links), run.visited, Process(links, universe, url, run).visited)
    decreases Unvisited(universe, run.visited), 1, 0
  {
    assert Filtered(links) ==> AllUrls(links(url));
    ProcessLinksAppendsFresh(links, universe, links(url), Run(run.visited, run.loaded + [url]));
  }

  lemma {:induction false} ProcessLinksAppendsFresh(links: string -> seq<string>, universe: set<string>, todo: seq<string>, run: Run)
    requires Bounded(links, universe)
    requires AllIn(todo, universe)
    ensures AppendsFresh(universe, Filtered(links) && AllUrls(todo), run.visited, ProcessLinks(links, universe, todo, run).visited)
    decreases Unvisited(universe, run.visited), 0, |todo|
  {
    var urls := Filtered(links) && AllUrls(todo);
    if todo == [] {
    } else if todo[0] in run.visited {
      ProcessLinksAppendsFresh(links, universe, todo[1..], run);
      AppendsFreshTrans(universe, urls, urls, Filtered(links) && AllUrls(todo[1..]), run.visited, run.visited,
        ProcessLinks(links, universe, todo[1..], run).visited);
    } else {
      var link := todo[0];
      var v := run.visited;
      AppendFreshShrinks(universe, v, link);
      var start := Run(v + [link], run.loaded);
      var child := Process(links, universe, link, start);
      assert urls ==> IsUrl(link);
      assert AllIn(todo[1..], universe);
      assert urls ==> AllUrls(todo[1..]);
      AppendsFreshStep(universe, urls, v, link);
      ProcessAppendsFresh(links, universe, link, start);
      AppendsFreshTrans(universe, urls, urls, Filtered(links), v, v + [link], child.visited);
      PrefixNoGrow(universe, v, child.visited);
      ProcessLinksAppendsFresh(links, universe, todo[1..], child);
      var r := ProcessLinks(links, universe, todo[1..], child);
      assert r == ProcessLinks(links, universe, todo, run);
      AppendsFreshTrans(universe, urls, urls, Filtered(links) && AllUrls(todo[1..]), v, child.visited, r.visited);
    }
  }

  /**
   * `crawler(domain)`: the list of discovered URLs. The root stays first, no
   * URL is listed twice, and every other entry is a link that passed the
   * classifier.
   */
  function CrawlDomain(links: string -> seq<string>, universe: set<string>, domain: string): (urls: seq<string>)
    requires Bounded(links, universe)
    ensures |urls| >= 1 && urls[0] == domain
    ensures NoDups(urls)
    ensures forall i :: 1 <= i < |urls| ==> urls[i] in universe
    ensures Filtered(links) ==> forall i :: 1 <= i < |urls| ==> IsUrl(urls[i])
  {
    ProcessAppendsFresh(links, universe, domain, Init(domain));
    Process(links, universe, domain, Init(domain)).visited
  }

  /** Each link of `page` is listed in `s`. */
  ghost predicate LinksListed(links: string -> seq<string>, page: string, s: seq<string>)
  {
    forall i :: 0 <= i < |links(page)| ==> links(page)[i] in s
  }

  /** Every entry of `s` from index `from` on has all its links listed in `s`. */
  ghost predicate ExpandedFrom(links: string -> seq<string>, s: seq<string>, from: nat)
  {
    forall i :: from <= i < |s| ==> LinksListed(links, s[i], s)
  }

  /** A set that holds every link of each of its members. */
  ghost predicate Closed(links: string -> seq<string>, pages: set<string>)
  {
    forall page, i :: page in pages && 0 <= i < |links(page)| ==> links(page)[i] in pages
  }

  lemma ExpandedJoin(links: string -> seq<string>, a: seq<string>, b: seq<string>, from: nat)
    requires a <= b && from <= |a|
    requires ExpandedFrom(links, a, from) && ExpandedFrom(links, b, |a|)
    ensures ExpandedFrom(links, b, from)
  {
    forall i | from <= i < |a|
      ensures LinksListed(links, b[i], b)
    {
      assert b[i] == a[i];
      assert forall x :: x in a ==> x in b;
    }
  }

  /**
   * On return from `process(url)`, every link of `url`, and every link of
   * each URL the call discovered, is in the visited list.
   */
  lemma {:induction false} ProcessCloses(links: string -> seq<string>, universe: set<string>, url: string, run: Run)
    requires Bounded(links, universe)
    ensures var r := Process(links, universe, url, run).visited;
      LinksListed(links, url, r) && ExpandedFrom(links, r, |run.visited|)
    decreases Unvisited(universe, run.visited), 1, 0
  {
    ProcessLinksCloses(links, universe, links(url), Run(run.visited, run.loaded + [url]));
  }

  lemma {:induction false} ProcessLinksCloses(links: string -> seq<string>, universe: set<string>, todo: seq<string>, run: Run)
    requires Bounded(links, universe)
    requires AllIn(todo, universe)
    ensures var r := ProcessLinks(links, universe, todo, run).visited;
      (forall i :: 0 <= i < |todo| ==> todo[i] in r) && ExpandedFrom(links, r, |run.visited|)
    decreases Unvisited(universe, run.visited), 0, |todo|
  {
    if todo == [] {
    } else if todo[0] in run.visited {
      ProcessLinksCloses(links, universe, todo[1..], run);
      var r := ProcessLinks(links, universe, todo[1..], run).visited;
      assert todo[0] in r;
    } else {
      var link := todo[0];
      var v := run.visited;
      AppendFreshShrinks(universe, v, link);
      var start := Run(v + [link], run.loaded);
      var child := Process(links, universe, link, start);
      ProcessCloses(links, universe, link, start);
      PrefixNoGrow(universe, v, child.visited);
      ProcessLinksCloses(links, universe, todo[1..], child);
      var r := ProcessLinks(links, universe, todo[1..], child);
      assert r == ProcessLinks(links, universe, todo, run);
      assert child.visited[|v|] == link;
      assert ExpandedFrom(links, child.visited, |v|);
      ExpandedJoin(links, child.visited, r.visited, |v|);
      assert link in r.visited by {
        assert r.visited[|v|] == link;
      }
    }
  }

  /**
   * A crawl that starts inside a closed set never leaves it: everything
   * discovered is reachable from the URLs already listed.
   */
  lemma {:induction false} ProcessStaysWithin(links: string -> seq<string>, universe: set<string>, url: string, run: Run, pages: set<string>)
    requires Bounded(links, universe)
    requires Closed(links, pages) && url in pages && AllIn(run.visited, pages)
    ensures AllIn(Process(links, universe, url, run).visited, pages)
    decreases Unvisited(universe, run.visited), 1, 0
  {
    ProcessLinksStaysWithin(links, universe, links(url), Run(run.visited, run.loaded + [url]), pages);
  }

  lemma {:induction false} ProcessLinksStaysWithin(links: string -> seq<string>, universe: set<string>, todo: seq<string>, run: Run, pages: set<string>)
    requires Bounded(links, universe)
    requires AllIn(todo, universe)
    requires Closed(links, pages) && AllIn(todo, pages) && AllIn(run.visited, pages)
    ensures AllIn(ProcessLinks(links, universe, todo, run).visited, pages)
    decreases Unvisited(universe, run.visited), 0, |todo|
  {
    if todo == [] {
    } else if todo[0] in run.visited {
      ProcessLinksStaysWithin(links, universe, todo[1..], run, pages);
    } else {
      var link := todo[0];
      var v := run.visited;
      AppendFreshShrinks(universe, v, link);
      var start := Run(v + [link], run.loaded);
      ProcessStaysWithin(links, universe, link, start, pages);
      var child := Process(links, universe, link, start);
      PrefixNoGrow(universe, v, child.visited);
      ProcessLinksStaysWithin(links, universe, todo[1..], child, pages);
    }
  }

  /** The crawl lists every link of every URL it lists. */
  lemma CrawlIsClosed(links: string -> seq<string>, universe: set<string>, domain: string)
    requires Bounded(links, universe)
    ensures Closed(links, Elems(CrawlDomain(links, universe, domain)))
  {
    ProcessCloses(links, universe, domain, Init(domain));
    var urls := CrawlDomain(links, universe, domain);
    assert ExpandedFrom(links, urls, 0);
  }

  /**
   * The crawl lists nothing outside any closed set that holds the root; with
   * `CrawlIsClosed`, its URLs are exactly the pages reachable from the root.
   */
  lemma CrawlIsLeast(links: string -> seq<string>, universe: set<string>, domain: string, pages: set<string>)
    requires Bounded(links, universe)
    requires domain in pages && Closed(links, pages)
    ensures Elems(CrawlDomain(links, universe, domain)) <= pages
  {
    ProcessStaysWithin(links, universe, domain, Init(domain), pages);
  }

  /**
   * Each page is loaded exactly once, and pages are loaded in the order they
   * were discovered.
   */
  lemma EachPageLoadedOnce(links: string -> seq<string>, universe: set<string>, domain: string)
    requires Bounded(links, universe)
    ensures Process(links, universe, domain, Init(domain)).loaded == CrawlDomain(links, universe, domain)
    ensures NoDups(Process(links, universe, domain, Init(domain)).loaded)
  {
    var urls := CrawlDomain(links, universe, domain);
    assert urls == [domain] + urls[1..];
  }

  /** Links that are all visited already leave the state as it was. */
  lemma {:induction false} ProcessLinksAllSeen(links: string -> seq<string>, universe: set<string>, todo: seq<string>, run: Run)
    requires Bounded(links, universe)
    requires AllIn(todo, universe)
    requires forall i :: 0 <= i < |todo| ==> todo[i] in run.visited
    ensures ProcessLinks(links, universe, todo, run) == run
    decreases |todo|
  {
    if todo != [] {
      ProcessLinksAllSeen(links, universe, todo[1..], run);
    }
  }

  /** A page whose links are all visited already adds nothing and recurses no further. */
  lemma ProcessAddsNothing(links: string -> seq<string>, universe: set<string>, url: string, run: Run)
    requires Bounded(links, universe)
    requires LinksListed(links, url, run.visited)
    ensures Process(links, universe, url, run) == Run(run.visited, run.loaded + [url])
  {
    ProcessLinksAllSeen(links, universe, links(url), Run(run.visited, run.loaded + [url]));
  }

  /** A root that links only to itself, or to nothing, yields just the root. */
  lemma RootOnly(links: string -> seq<string>, universe: set<string>, domain: string)
    requires Bounded(links, universe)
    requires forall i :: 0 <= i < |links(domain)| ==> links(domain)[i] == domain
    ensures CrawlDomain(links, universe, domain) == [domain]
  {
    ProcessAddsNothing(links, universe, domain, Init(domain));
  }

  /** Two pages linking to each other are each listed and loaded once. */
  lemma TwoPageCycle(links: string -> seq<string>, universe: set<string>, a: string, b: string)
    requires Bounded(links, universe)
    requires a != b && links(a) == [b] && links(b) == [a]
    ensures CrawlDomain(links, universe, a) == [a, b]
    ensures Process(links, universe, a, Init(a)).loaded == [a, b]
  {
    assert b in universe;
    ProcessAddsNothing(links, universe, b, Run([a, b], [a]));
    assert Process(links, universe, b, Run([a, b], [a])) == Run([a, b], [a, b]);
    assert ProcessLinks(links, universe, [b], Run([a], [a])) == Run([a, b], [a, b]);
    assert Init(a).loaded + [a] == [a];
    assert Process(links, universe, a, Init(a)) == ProcessLinks(links, universe, [b], Run([a], [a]));
  }

  /**
   * `get_urls` after the page is loaded: keeps the hrefs that pass the
   * classifier and drops repeats. The source collects them into a set whose
   * order is unspecified; this model keeps first occurrences in page order.
   */
  function GetUrls(hrefs: seq<string>): (urls: seq<string>)
    ensures NoDups(urls)
    ensures forall u :: u in urls <==> u in hrefs && IsUrl(u)
  {
    if hrefs == [] then []
    else
      var kept := GetUrls(hrefs[..|hrefs| - 1]);
      var last := hrefs[|hrefs| - 1];
      assert hrefs == hrefs[..|hrefs| - 1] + [last];
      if IsUrl(last) && last !in kept then kept + [last] else kept
  }

  /** A fetcher filtered through `GetUrls` meets the contract the crawl relies on. */
  lemma GetUrlsFiltered(anchors: string -> seq<string>)
    ensures Filtered(page => GetUrls(anchors(page)))
  {
    var links := page => GetUrls(anchors(page));
    forall page
      ensures NoDups(links(page)) && AllUrls(links(page))
    {
      var urls := GetUrls(anchors(page));
      assert forall i :: 0 <= i < |urls| ==> urls[i] in urls;
    }
  }

  /** Links failing the classifier are dropped and a repeated link is kept once. */
  lemma GetUrlsDropsAndCollapses(a: string, b: string, c: string)
    requires IsUrl(a) && !IsUrl(b) && !IsUrl(c)
    ensures GetUrls([a, b, c, a]) == [a]
  {
    assert [a, b, c, a][..3] == [a, b, c];
    assert [a, b, c][..2] == [a, b];
    assert [a, b][..1] == [a];
    assert [a][..0] == [];
    assert GetUrls([a]) == [a];
    assert GetUrls([a, b]) == [a];
    assert GetUrls([a, b, c]) == [a];
  }

  /**
   * One page's hrefs: the fragment link and the script link are dropped and
   * the repeated link is kept once.
   */
  lemma GetUrlsExample()
    ensures GetUrls(["http://example.com/a", "http://example.com/a#frag", "javascript:void(0)", "http://example.com/a"])
      == ["http://example.com/a"]
  {
    AcceptsPlainHttp();
    RejectsFragment();
    RejectsJavascript();
    GetUrlsDropsAndCollapses("http://example.com/a", "http://example.com/a#frag", "javascript:void(0)");
  }
}
