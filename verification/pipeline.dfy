/** `sitemap(domain)`: crawl from the root, then serialize what was found. */
module SitemapPipeline {
  import opened Results
  import opened Seqs
  import opened Crawling
  import opened SitemapXml

  /**
   * The document with the declaration first, for a crawl from `domain`, with
   * the default change frequency and priority, dated `today`.
   */
  function CorrectedSitemap(links: string -> seq<string>, universe: set<string>, domain: string, today: string): string
    requires Bounded(links, universe)
  {
    Document(Urlset(CrawlDomain(links, universe, domain), today, DefaultChangefreq, DefaultPriority))
  }

  /**
   * The text `sitemap(domain)` writes: the sitemap of the crawl from `domain`
   * behind the template's leading line break and indentation.
   */
  function SitemapFor(links: string -> seq<string>, universe: set<string>, domain: string, today: string): (doc: string)
    requires Bounded(links, universe)
    ensures doc == Indent + CorrectedSitemap(links, universe, domain, today)
  {
    DocumentAsWritten(Urlset(CrawlDomain(links, universe, domain), today, DefaultChangefreq, DefaultPriority))
  }

  /** With a universe and a date free of `<`, every crawled URL is free of it too. */
  lemma CrawlNoMarkup(links: string -> seq<string>, universe: set<string>, domain: string, today: string)
    requires Bounded(links, universe)
    requires forall u :: u in universe ==> NoMarkup(u)
    requires NoMarkup(domain) && NoMarkup(today)
    ensures var urls := CrawlDomain(links, universe, domain);
      forall i :: 0 <= i < |urls| ==> NoMarkup(urls[i])
  {
    var urls := CrawlDomain(links, universe, domain);
    forall i | 0 <= i < |urls|
      ensures NoMarkup(urls[i])
    {
      if i > 0 {
        assert urls[i] in universe;
      }
    }
  }

  /**
   * The written sitemap, read past its leading indentation, lists each crawled
   * URL once, root first, in discovery order, each dated `today` with the
   * default change frequency and priority.
   */
  lemma SitemapListsCrawl(links: string -> seq<string>, universe: set<string>, domain: string, today: string)
    requires Bounded(links, universe)
    requires forall u :: u in universe ==> NoMarkup(u)
    requires NoMarkup(domain) && NoMarkup(today)
    ensures var urls := CrawlDomain(links, universe, domain);
      ParseWritten(SitemapFor(links, universe, domain, today))
        == Some(Entries(urls, today, DefaultChangefreq, DefaultPriority))
  {
    var urls := CrawlDomain(links, universe, domain);
    CrawlNoMarkup(links, universe, domain, today);
    assert NoMarkup(DefaultChangefreq) && NoMarkup(DefaultPriority);
    WrittenRoundTrip(urls, today, DefaultChangefreq, DefaultPriority);
  }

  /** The corrected sitemap decodes to the same entries with no whitespace skipped. */
  lemma CorrectedSitemapListsCrawl(links: string -> seq<string>, universe: set<string>, domain: string, today: string)
    requires Bounded(links, universe)
    requires forall u :: u in universe ==> NoMarkup(u)
    requires NoMarkup(domain) && NoMarkup(today)
    ensures var urls := CrawlDomain(links, universe, domain);
      ParseDocument(CorrectedSitemap(links, universe, domain, today))
        == Some(Entries(urls, today, DefaultChangefreq, DefaultPriority))
  {
    var urls := CrawlDomain(links, universe, domain);
    CrawlNoMarkup(links, universe, domain, today);
    assert NoMarkup(DefaultChangefreq) && NoMarkup(DefaultPriority);
    DocumentRoundTrip(urls, today, DefaultChangefreq, DefaultPriority);
  }
}
