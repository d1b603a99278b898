# Sitemap crawler, modelled in Dafny

This project models the core of a small Python sitemap generator
(`sitemap.py`). The generator starts at a root URL and loads each page in a
browser. It follows every anchor whose href passes a URL classifier, visiting
pages depth-first and each at most once. It then writes the list of
discovered URLs as a Sitemaps protocol 0.9 XML document.

The model has four parts, one Dafny module each:

- **`Classifier`**: `Crawler.is_url`. This is a total predicate on strings. A
  string is accepted when it parses, has a non-empty scheme and a non-empty
  network location (the scheme and authority components of section 3 of
  RFC 3986), and contains no `#` anywhere. The parse is a simplified model of
  CPython's `urlsplit`, which `urlparse` runs first. The scheme is the text
  before the first `:`, when that text is an ASCII letter followed by letters,
  digits, `+`, `-` or `.`. The network location follows a leading `//` and runs
  up to the first `/`, `?` or `#`. A network location with exactly one of `[`
  and `]` is the `ValueError` that `is_url` turns into `false`.
- **`Crawling`**: `Crawler.__init__`, `Crawler.process` and `crawler()`. The
  browser is replaced by a parameter `links: string -> seq<string>`, which
  gives, for each page, the list `get_urls` returns. A finite `universe` holds
  every link, and the recursion decreases the number of universe members not
  yet visited. The state `Run` pairs the visited list (`sitemap_urls`) with a
  log of the pages handed to the browser. That log lets "each page is loaded
  once" be stated. `GetUrls` models the filter-and-deduplicate step of
  `get_urls`. It keeps first occurrences in page order. The Python set's
  order is unspecified, so the crawl lemmas hold for any link source.
- **`Worklist`**: the same crawl with an explicit stack of frames instead of
  native recursion. It is proved to discover and load pages in exactly the
  order of the recursive crawl.
- **`SitemapXml`** and **`SitemapPipeline`**: `Sitemap.url`, `Sitemap.urlset`,
  the text of `Sitemap.process`, and `sitemap(domain)`. The whitespace of
  the templates is kept exactly. The date is a parameter instead of the
  clock. A decoder for the same layout shows what the serializer produces:
  decoding gives back one entry per URL, in order, with `loc` unchanged and
  the shared date, change frequency and priority. This holds whenever no
  field contains `<`. The document as `Sitemap.process` writes it decodes
  only once its leading whitespace is skipped (see Findings); the model of
  `sitemap(domain)` is built on that text as written. The serializer does not escape markup, so a URL
  containing `<` or `&` yields a document that is not well-formed XML.

Two details of the source the model keeps:

- The root URL is never passed through the classifier. Only links found on
  pages are.
- `get_urls` returns a list built from a set, not a set.

`Seqs` and `Results` are shared helpers.

## Model

| member | source | states |
|---|---|---|
| Classifier.IsUrl | sitemap.py:26-43 | an accepted href parses, has a well-formed scheme and a `//` authority, and contains no `#` |
| Classifier.Parse | sitemap.py:35 | the parse yields a scheme that is absent or well formed, a network location only after `//` and free of `/?#`, and fails exactly when the network location holds one square bracket without the other |
| Classifier.IsUrlIffShape | sitemap.py:26-43 | `is_url` accepts a string exactly when it has no `#` and is a scheme, then `://`, then a non-empty network location free of `/?#` that holds both `[` and `]` or neither, then the end or a delimiter |
| Classifier.HashNeverFollowed | sitemap.py:33-40 | a `#` at any position makes `is_url` false, even when scheme and host are present |
| Classifier.SchemeAndNetlocRequired | sitemap.py:35-37 | a parse with an empty scheme or an empty network location makes `is_url` false |
| Classifier.ParseErrorRejected | sitemap.py:34-43 | a parse error yields false rather than an exception |
| Classifier.UnsplitParse | sitemap.py:35 | the parsed scheme, network location and remainder reassemble into the original string |
| Classifier.SchemeWithoutAuthorityRejected | sitemap.py:35-37 | a scheme not followed by `//` (`javascript:`, `mailto:`) is rejected for lack of a network location |
| Classifier.UnclosedBracketRejected | sitemap.py:34-43 | a network location with `[` but no `]` is a parse error, and the href is rejected |
| Classifier.AcceptsPlainHttp | sitemap.py:26-43 | `http://example.com/a` is accepted |
| Classifier.RejectsFragment | sitemap.py:38-40 | `http://example.com/a#frag` is rejected |
| Classifier.RejectsJavascript | sitemap.py:35-37 | `javascript:void(0)` is rejected |
| Crawling.Init | sitemap.py:8-11 | a new crawler lists only its root, without repeats, and has loaded no page yet |
| Crawling.Process | sitemap.py:13-24 | `process(url)` only appends to the visited list. The pages it loads are `url` and then each URL it appended, in order |
| Crawling.ProcessLinks | sitemap.py:21-24 | the loop over a page's links only appends, and loads exactly the pages it appended, in order |
| Crawling.ProcessAppendsFresh | sitemap.py:21-23 | every URL `process` appends is a link from the universe that passed `is_url` when the link source filters, and no URL is listed twice |
| Crawling.ProcessLinksAppendsFresh | sitemap.py:21-23 | the same for the loop over a page's links: a link is appended only if it is not already listed |
| Crawling.ProcessCloses | sitemap.py:21-24 | on return from `process(url)`, every link of `url` and of every URL it discovered is in the visited list, so each subtree is fully expanded before the next sibling |
| Crawling.ProcessLinksCloses | sitemap.py:21-24 | after the loop, every link it was given and every link of every URL it appended is listed |
| Crawling.ProcessStaysWithin | sitemap.py:21-24 | a crawl started inside a set closed under links never lists anything outside it |
| Crawling.ProcessLinksStaysWithin | sitemap.py:21-24 | the same for the loop over a page's links |
| Crawling.CrawlDomain | sitemap.py:111-121 | `crawler(domain)` returns a list that starts with the root, has no duplicates, and whose other entries are links from the universe that passed `is_url` |
| Crawling.CrawlIsClosed | sitemap.py:111-121 | every link of every crawled URL is in the crawl result |
| Crawling.CrawlIsLeast | sitemap.py:111-121 | the crawl result lies inside every link-closed set holding the root; with `CrawlIsClosed`, it is exactly the set of pages reachable from the root |
| Crawling.EachPageLoadedOnce | sitemap.py:21-24 | the pages loaded during a crawl are exactly the crawl result in discovery order, so no page is loaded twice |
| Crawling.ProcessLinksAllSeen | sitemap.py:21-22 | links that are all listed already leave the state unchanged |
| Crawling.ProcessAddsNothing | sitemap.py:20-24 | a page whose links are all visited adds nothing and recurses no further |
| Crawling.RootOnly | sitemap.py:10-24 | a root that links only to itself, or to nothing, yields just `[root]` |
| Crawling.TwoPageCycle | sitemap.py:21-24 | pages A and B linking to each other are each listed and loaded once, A first, and the crawl stops |
| Crawling.GetUrls | sitemap.py:52-66 | `get_urls` returns no duplicates, and a string is in its result exactly when it is an href of the page and passes `is_url` |
| Crawling.GetUrlsFiltered | sitemap.py:52-66 | a link source built with `get_urls` meets the contract the crawl assumes: classified links without repeats |
| Crawling.GetUrlsDropsAndCollapses | sitemap.py:59-62 | among hrefs `a, b, c, a` with only `a` accepted, the result is `[a]` |
| Crawling.GetUrlsExample | sitemap.py:59-62 | hrefs `http://example.com/a`, `http://example.com/a#frag`, `javascript:void(0)`, `http://example.com/a` reduce to `[http://example.com/a]` |
| Worklist.Step | sitemap.py:21-24 | one stack step keeps the outcome of the crawl and lowers the pair (unvisited URLs, pending work) |
| Worklist.CrawlWithStack | sitemap.py:13-24 | the explicit-stack crawl returns the same visited list and page-load order as recursive `process` |
| SitemapXml.UrlElement | sitemap.py:85-95 | one `<url>` element, placed in a urlset, decodes to exactly the `loc`, `lastmod`, `changefreq` and `priority` it was given, when none contains `<` |
| SitemapXml.UrlBlocks | sitemap.py:106-107 | appending one `url` element per URL in order gives the elements of the entries, one entry per URL with the shared metadata |
| SitemapXml.Urlset | sitemap.py:97-109 | the urlset is the namespaced `<urlset>` wrapper around exactly one `<url>` element per URL, in order |
| SitemapXml.FieldsRoundTrip | sitemap.py:85-93 | the fields inserted into the `url` template are read back unchanged, as long as none contains `<` |
| SitemapXml.ElementRoundTrip | sitemap.py:85-95 | one `<url>` element decodes to the `loc`, `lastmod`, `changefreq` and `priority` it was built from, when none of them contains `<` |
| SitemapXml.ElementsRoundTrip | sitemap.py:106-107 | the concatenated elements decode to the entries, in order, one element per entry, when no field of any entry contains `<` |
| SitemapXml.UrlsetRoundTrip | sitemap.py:97-109 | the `<urlset>` text decodes to exactly one entry per input URL, in input order, with `loc` verbatim and shared metadata |
| SitemapXml.DocumentAsWritten | sitemap.py:76-80 | the written document is the corrected document behind a line break and eight spaces, and a reader that requires the declaration first rejects it |
| SitemapXml.DeclarationNotFirst | sitemap.py:76-80 | the document as written does not start with its XML declaration |
| SitemapXml.Document | sitemap.py:76-80 | the corrected document starts with the XML declaration and holds the urlset after it |
| SitemapXml.DocumentRoundTrip | sitemap.py:76-80 | the corrected document decodes to one entry per URL, in order, when no URL and no metadata value contains `<` |
| SitemapXml.WrittenRoundTrip | sitemap.py:76-80 | the document as written, read past its leading whitespace, decodes to one entry per URL, in order |
| SitemapPipeline.SitemapFor | sitemap.py:123-127 | the text `sitemap(domain)` writes is the corrected sitemap of the crawl behind the template's leading line break and indentation |
| SitemapPipeline.SitemapListsCrawl | sitemap.py:123-127 | the text `sitemap(domain)` writes, read past its leading whitespace, lists each crawled URL once, root first, in discovery order, dated today with change frequency `monthly` and priority `0.8` |
| SitemapPipeline.CorrectedSitemapListsCrawl | sitemap.py:123-127 | with the declaration first, the sitemap decodes to the same entries with no whitespace skipped, when no URL of the universe, the root or the date contains `<` |

## Left out

- Browser I/O: loading the page in Chrome, the 2-second settle delay, the anchor query and closing the browser (sitemap.py:54-64). The parameter `links` stands for all of it.
- Fetch failures: an exception in the browser layer aborts the whole run in the source. The model's link source is total, so this path does not exist.
- The order of the set that `get_urls` returns is unspecified in Python. `GetUrls` picks first-occurrence order, and no crawl lemma depends on the order.
- An anchor without `href` gives `None`, which `urlparse` treats as empty and `is_url` rejects. Hrefs are modelled as strings only.
- `urlparse` details that cannot change the classifier's result, or that depend on the Python version, are not modelled. These are: lower-casing the scheme; stripping leading control characters and spaces and removing tab, CR and LF (recent CPython); validation of bracketed IPv6 hosts (CPython 3.11.4 and later).
- `process(domain=None)` falls back to the root when its argument is missing or empty. The model always passes the page explicitly. `crawler()` calls `process()` without an argument, so its first call handles the root through that fallback; the recursive calls pass links, which are never empty because they pass the classifier.
- Termination assumes a finite universe that holds every link (`Bounded`). `Bounded` asks for one finite set holding the links of every page, reachable or not, so link sources with finitely many reachable pages but infinitely many links overall are not covered. The source terminates exactly when the pages reachable from the root are finitely many, and does not on an infinite reachable set (a crawler trap). Python's recursion limit is not modelled.
- Classifier.IsUrl: the NFKC check that `urlsplit` applies to a non-ASCII network location is not modelled. It raises `ValueError` when normalisation introduces a character such as `/`, `?`, `#`, `@` or `:` (for example a host containing U+2100), so `is_url` rejects such hosts while the model's `IsUrl` accepts some of them.
- Writing the file in append mode, the default path `sitemap.xml` and the `__main__` entry point (sitemap.py:82-83, 130-132) are I/O.
- Reading the clock (sitemap.py:104): the date is the parameter `today`.
- Float formatting of `priority`: it is kept as its printed text, with default `"0.8"`.
- SitemapXml.UrlsetRoundTrip: stated only for field values without `<`. The serializer does no escaping, so with `<` in a value the layout is ambiguous and no decoder can recover the entries.
- SitemapPipeline.SitemapListsCrawl: stated only for a universe and a date without `<`, for the same reason. It also reads the written text past its leading whitespace, because the text as written puts whitespace before the XML declaration (see Findings) and a reader that requires the declaration first rejects it.
- SitemapXml.ElementRoundTrip: stated only for fields without `<`, for the same reason as `UrlsetRoundTrip`.
- SitemapXml.ElementsRoundTrip: stated only for entries whose fields contain no `<`, for the same reason.
- SitemapXml.DocumentRoundTrip: stated only for URLs and metadata without `<`, for the same reason.
- SitemapPipeline.CorrectedSitemapListsCrawl: stated only for a universe, a root and a date without `<`, for the same reason.
- SitemapXml.WrittenRoundTrip: stated only for field values without `<`, and it reads the written text past its leading whitespace, because a reader that requires the declaration first rejects the text as written.

## Findings

| source | as written | input that shows it | evidently intended | confidence | as-written member | corrected member |
|---|---|---|---|---|---|---|
| sitemap.py:77-80 | the template starts with a line break and eight spaces before `<?xml version="1.0" encoding="UTF-8"?>` | any urlset, for example the empty string: the document's first character is a line break | the XML declaration is the first text of the document, as section 2.8 of XML 1.0 requires | high (not executed) | SitemapXml.DeclarationNotFirst | SitemapXml.Document |

`SitemapXml.DocumentAsWritten` keeps the source's text, and `SitemapPipeline.SitemapFor`, the model of `sitemap(domain)`, is built on it. `SitemapPipeline.CorrectedSitemap` is the same pipeline with the corrected `SitemapXml.Document`.
