/**
 * The sitemap serializer, `Sitemap.url` and `Sitemap.urlset`: string
 * templating into the XML format of the Sitemaps protocol 0.9, with one
 * `<url>` element per URL and the same date, change frequency and priority
 * on every entry. A decoder for the same layout recovers the entries.
 */
module SitemapXml {
  import opened Results
  import opened Seqs

  /** One `<url>` element's data; `priority` is kept as its printed text. */
  datatype Entry = Entry(loc: string, lastmod: string, changefreq: string, priority: string)

  /** Defaults of `Sitemap.__init__`. */
  const DefaultChangefreq: string := "monthly"
  const DefaultPriority: string := "0.8"

  const Namespace: string := "http://www.sitemaps.org/schemas/sitemap/0.9"

  /**
   * The fixed text of the `Sitemap.url` template: `open` comes before the
   * first field and `closers[i]` right after field `i`; the fields are `loc`,
   * `lastmod`, `changefreq` and `priority`, in that order.
   */
  datatype UrlTemplate = UrlTemplate(open: string, closers: seq<string>)

  const UrlText: UrlTemplate := UrlTemplate(
    "\n            <url>\n                <loc>",
    [ "</loc>\n                <lastmod>",
      "</lastmod>\n                <changefreq>",
      "</changefreq>\n                <priority>",
      "</priority>\n            </url>\n        " ])

  /** The fixed text of the `Sitemap.urlset` template around the entries. */
  const UrlsetOpen: string := "\n        <urlset xmlns=\"" + Namespace + "\">\n            "
  const UrlsetClose: string := "\n        </urlset>\n        "

  /** Four fields, each followed by markup that starts with `<`. */
  predicate Delimited(t: UrlTemplate)
  {
    && |t.open| > 0
    && |t.closers| == 4
    && forall i :: 0 <= i < |t.closers| ==> |t.closers[i]| > 0 && t.closers[i][0] == '<'
  }

  function Fields(e: Entry): seq<string>
  {
    [e.loc, e.lastmod, e.changefreq, e.priority]
  }

  /** Each field followed by its closing text. */
  function Fill(closers: seq<string>, fields: seq<string>): string
    requires |fields| == |closers|
  {
    if closers == [] then "" else fields[0] + closers[0] + Fill(closers[1..], fields[1..])
  }

  function Render(t: UrlTemplate, e: Entry): string
    requires |t.closers| == 4
  {
    t.open + Fill(t.closers, Fields(e))
  }

  /** The `<url>` elements of `entries`, concatenated in order. */
  function UrlElements(t: UrlTemplate, entries: seq<Entry>): string
    requires |t.closers| == 4
  {
    if entries == [] then "" else Render(t, entries[0]) + UrlElements(t, entries[1..])
  }

  /** One entry per URL, in order, each with the run's shared metadata. */
  function Entries(urls: seq<string>, today: string, changefreq: string, priority: string): seq<Entry>
  {
    seq(|urls|, i requires 0 <= i < |urls| => Entry(urls[i], today, changefreq, priority))
  }

  /** A field value that cannot be mistaken for the markup after it. */
  predicate NoMarkup(v: string)
  {
    '<' !in v
  }

  predicate EntryNoMarkup(e: Entry)
  {
    NoMarkup(e.loc) && NoMarkup(e.lastmod) && NoMarkup(e.changefreq) && NoMarkup(e.priority)
  }

  /** Reads a field up to the next `<` and then the expected closing text. */
  function Field(s: string, close: string): (r: Option<(string, string)>)
    ensures r.Some? ==> |r.value.1| + |close| <= |s|
  {
    var k := IndexOf(s, '<');
    if StartsWith(s[k..], close) then Some((s[..k], s[k + |close|..])) else None
  }

  /** Reads one field per closing text, in order. */
  function ReadFields(closers: seq<string>, s: string): (r: Option<(seq<string>, string)>)
    ensures r.Some? ==> |r.value.0| == |closers| && |r.value.1| <= |s|
  {
    if closers == [] then Some(([], s))
    else
      match Field(s, closers[0])
      case None => None
      case Some((v, rest)) =>
        match ReadFields(closers[1..], rest)
        case None => None
        case Some((vs, tail)) => Some(([v] + vs, tail))
  }

  /** Reads one `<url>` element from the front of `s`. */
  function ParseElement(t: UrlTemplate, s: string): (r: Option<(Entry, string)>)
    requires Delimited(t)
    ensures r.Some? ==> |r.value.1| < |s|
  {
    if !StartsWith(s, t.open) then None
    else
      match ReadFields(t.closers, s[|t.open|..])
      case None => None
      case Some((vs, rest)) => Some((Entry(vs[0], vs[1], vs[2], vs[3]), rest))
  }

  /** Reads consecutive `<url>` elements until the text is used up. */
  function ParseElements(t: UrlTemplate, s: string): Option<seq<Entry>>
    requires Delimited(t)
    decreases |s|
  {
    if s == [] then Some([])
    else
      match ParseElement(t, s)
      case None => None
      case Some((e, rest)) =>
        match ParseElements(t, rest)
        case None => None
        case Some(es) => Some([e] + es)
  }

  /** Strips a known prefix and suffix. */
  function Unwrap(doc: string, open: string, close: string): Option<string>
  {
    if |open| + |close| <= |doc| && StartsWith(doc, open) && EndsWith(doc, close)
    then Some(doc[|open|..|doc| - |close|])
    else None
  }

  /** Reads a `<urlset>` document back into its entries. */
  function ParseUrlset(doc: string): Option<seq<Entry>>
  {
    assert Delimited(UrlText);
    match Unwrap(doc, UrlsetOpen, UrlsetClose)
    case None => None
    case Some(body) => ParseElements(UrlText, body)
  }

  /**
   * `Sitemap.url`: one `<url>` element with the fields inserted verbatim.
   * Wrapped in a urlset, it decodes to exactly those four fields, provided
   * none of them contains `<`.
   */
  function UrlElement(loc: string, lastmod: string, changefreq: string, priority: string): (r: string)
    ensures EntryNoMarkup(Entry(loc, lastmod, changefreq, priority))
      ==> ParseUrlset(UrlsetOpen + r + UrlsetClose) == Some([Entry(loc, lastmod, changefreq, priority)])
  {
    var e := Entry(loc, lastmod, changefreq, priority);
    var r := Render(UrlText, e);
    if EntryNoMarkup(e) then
      assert Delimited(UrlText);
      ElementsRoundTrip(UrlText, [e]);
      assert UrlElements(UrlText, [e]) == r;
      UnwrapWrap(UrlsetOpen, r, UrlsetClose);
      r
    else r
  }

  /**
   * The loop of `Sitemap.urlset`: one `Sitemap.url` call per URL, appended in
   * order; the result is the elements of the entries, one per URL.
   */
  function UrlBlocks(urls: seq<string>, today: string, changefreq: string, priority: string): (r: string)
    ensures r == UrlElements(UrlText, Entries(urls, today, changefreq, priority))
  {
    if urls == [] then ""
    else
      assert Entries(urls, today, changefreq, priority)[1..] == Entries(urls[1..], today, changefreq, priority);
      UrlElement(urls[0], today, changefreq, priority) + UrlBlocks(urls[1..], today, changefreq, priority)
  }

  /**
   * `Sitemap.urlset`, with the date passed in instead of read from the clock:
   * the `<urlset>` wrapper around one `<url>` element per URL, in order.
   */
  function Urlset(urls: seq<string>, today: string, changefreq: string, priority: string): (r: string)
    ensures Unwrap(r, UrlsetOpen, UrlsetClose) == Some(UrlElements(UrlText, Entries(urls, today, changefreq, priority)))
  {
    var body := UrlBlocks(urls, today, changefreq, priority);
    UnwrapWrap(UrlsetOpen, body, UrlsetClose);
    UrlsetOpen + body + UrlsetClose
  }

  lemma FieldRoundTrip(v: string, close: string, rest: string)
    requires NoMarkup(v) && |close| > 0 && close[0] == '<'
    ensures Field(v + close + rest, close) == Some((v, rest))
  {
    var s := v + close + rest;
    assert forall j :: 0 <= j < |v| ==> s[j] == v[j];
    IndexOfFirst(s, '<', |v|);
    assert s[|v|..][..|close|] == close;
    assert s[..|v|] == v;
    assert s[|v| + |close|..] == rest;
  }

  lemma {:induction false} FieldsRoundTrip(closers: seq<string>, fields: seq<string>, rest: string)
    requires |fields| == |closers|
    requires forall i :: 0 <= i < |closers| ==> |closers[i]| > 0 && closers[i][0] == '<'
    requires forall i :: 0 <= i < |fields| ==> NoMarkup(fields[i])
    ensures ReadFields(closers, Fill(closers, fields) + rest) == Some((fields, rest))
    decreases |closers|
  {
    if closers == [] {
      assert Fill(closers, fields) + rest == rest;
    } else {
      var tail := Fill(closers[1..], fields[1..]) + rest;
      assert Fill(closers, fields) + rest == fields[0] + closers[0] + tail;
      FieldRoundTrip(fields[0], closers[0], tail);
      FieldsRoundTrip(closers[1..], fields[1..], rest);
      assert [fields[0]] + fields[1..] == fields;
    }
  }

  lemma ElementRoundTrip(t: UrlTemplate, e: Entry, rest: string)
    requires Delimited(t) && EntryNoMarkup(e)
    ensures ParseElement(t, Render(t, e) + rest) == Some((e, rest))
  {
    var body := Fill(t.closers, Fields(e)) + rest;
    var s := Render(t, e) + rest;
    assert s == t.open + body;
    assert s[..|t.open|] == t.open;
    assert s[|t.open|..] == body;
    FieldsRoundTrip(t.closers, Fields(e), rest);
  }

  lemma {:induction false} ElementsRoundTrip(t: UrlTemplate, entries: seq<Entry>)
    requires Delimited(t)
    requires forall i :: 0 <= i < |entries| ==> EntryNoMarkup(entries[i])
    ensures ParseElements(t, UrlElements(t, entries)) == Some(entries)
    decreases |entries|
  {
    if entries != [] {
      var rest := UrlElements(t, entries[1..]);
      assert UrlElements(t, entries) == Render(t, entries[0]) + rest;
      ElementRoundTrip(t, entries[0], rest);
      ElementsRoundTrip(t, entries[1..]);
      assert [entries[0]] + entries[1..] == entries;
    }
  }

  lemma UnwrapWrap(open: string, body: string, close: string)
    ensures Unwrap(open + body + close, open, close) == Some(body)
  {
    var doc := open + body + close;
    assert doc[..|open|] == open;
    assert doc[|doc| - |close|..] == close;
    assert doc[|open|..|doc| - |close|] == body;
  }

  /**
   * Decoding a `<urlset>` gives back one entry per input URL, in input order,
   * with `loc` unchanged and the same date, change frequency and priority on
   * every entry, as long as no field contains `<`.
   */
  lemma UrlsetRoundTrip(urls: seq<string>, today: string, changefreq: string, priority: string)
    requires forall i :: 0 <= i < |urls| ==> NoMarkup(urls[i])
    requires NoMarkup(today) && NoMarkup(changefreq) && NoMarkup(priority)
    ensures ParseUrlset(Urlset(urls, today, changefreq, priority)) == Some(Entries(urls, today, changefreq, priority))
  {
    var es := Entries(urls, today, changefreq, priority);
    assert Delimited(UrlText);
    ElementsRoundTrip(UrlText, es);
  }

  const XmlDeclaration: string := "<?xml version=\"1.0\" encoding=\"UTF-8\"?>"

  /** The line break and indentation around each line of the document template. */
  const Indent: string := "\n        "

  /**
   * The text `Sitemap.process` writes, with the indentation of its template:
   * the corrected document below, preceded by a line break and indentation.
   * A reader that insists on the declaration first rejects it.
   */
  function DocumentAsWritten(urlset: string): (doc: string)
    ensures doc == Indent + Document(urlset)
    ensures ParseDocument(doc) == None
  {
    var doc := Indent + XmlDeclaration + Indent + urlset + Indent;
    assert doc == Indent + Document(urlset);
    assert doc[0] != (XmlDeclaration + Indent)[0];
    doc
  }

  /**
   * As written, the document opens with a line break and indentation, so the
   * XML declaration is not at its very start, where section 2.8 of XML 1.0
   * requires it; conforming parsers reject such a document.
   */
  lemma DeclarationNotFirst(urlset: string)
    ensures !StartsWith(DocumentAsWritten(urlset), XmlDeclaration)
  {
    var doc := DocumentAsWritten(urlset);
    assert doc[0] == '\n';
    assert XmlDeclaration[0] == '<';
  }

  /** The document with the XML declaration first and the urlset after it. */
  function Document(urlset: string): (doc: string)
    ensures StartsWith(doc, XmlDeclaration)
    ensures Unwrap(doc, XmlDeclaration + Indent, Indent) == Some(urlset)
  {
    var doc := XmlDeclaration + Indent + urlset + Indent;
    UnwrapWrap(XmlDeclaration + Indent, urlset, Indent);
    assert doc[..|XmlDeclaration|] == XmlDeclaration;
    doc
  }

  /** Reads a document that starts with its declaration back into its entries. */
  function ParseDocument(doc: string): Option<seq<Entry>>
  {
    match Unwrap(doc, XmlDeclaration + Indent, Indent)
    case None => None
    case Some(urlset) => ParseUrlset(urlset)
  }

  /** The corrected document decodes to one entry per URL, in order. */
  lemma DocumentRoundTrip(urls: seq<string>, today: string, changefreq: string, priority: string)
    requires forall i :: 0 <= i < |urls| ==> NoMarkup(urls[i])
    requires NoMarkup(today) && NoMarkup(changefreq) && NoMarkup(priority)
    ensures ParseDocument(Document(Urlset(urls, today, changefreq, priority))) == Some(Entries(urls, today, changefreq, priority))
  {
    UrlsetRoundTrip(urls, today, changefreq, priority);
  }

  predicate IsSpace(c: char)
  {
    c == ' ' || c == '\n' || c == '\r' || c == '\t'
  }

  /** Drops leading whitespace, as a reader that tolerates it before the declaration does. */
  function SkipSpace(s: string): (r: string)
    ensures |r| <= |s| && r == s[|s| - |r|..]
    ensures forall j :: 0 <= j < |s| - |r| ==> IsSpace(s[j])
    ensures r == [] || !IsSpace(r[0])
  {
    if s != [] && IsSpace(s[0]) then SkipSpace(s[1..]) else s
  }

  /** Whitespace in front of text that does not start with whitespace is skipped exactly. */
  lemma {:induction false} SkipSpacePrefix(w: string, t: string)
    requires forall j :: 0 <= j < |w| ==> IsSpace(w[j])
    requires t == [] || !IsSpace(t[0])
    ensures SkipSpace(w + t) == t
    decreases |w|
  {
    if w == [] {
      assert w + t == t;
    } else {
      assert (w + t)[1..] == w[1..] + t;
      SkipSpacePrefix(w[1..], t);
    }
  }

  /** Skipping the written indentation leaves the corrected document. */
  lemma SkipIndent(urlset: string)
    ensures SkipSpace(DocumentAsWritten(urlset)) == Document(urlset)
  {
    var doc := Document(urlset);
    assert doc[0] == XmlDeclaration[0] == '<';
    assert forall j :: 0 <= j < |Indent| ==> IsSpace(Indent[j]);
    SkipSpacePrefix(Indent, doc);
  }

  /** Reads a document after any leading whitespace. */
  function ParseWritten(doc: string): Option<seq<Entry>>
  {
    ParseDocument(SkipSpace(doc))
  }

  /**
   * The text `Sitemap.process` writes decodes, once its leading indentation
   * is skipped, to one entry per URL, in order.
   */
  lemma WrittenRoundTrip(urls: seq<string>, today: string, changefreq: string, priority: string)
    requires forall i :: 0 <= i < |urls| ==> NoMarkup(urls[i])
    requires NoMarkup(today) && NoMarkup(changefreq) && NoMarkup(priority)
    ensures ParseWritten(DocumentAsWritten(Urlset(urls, today, changefreq, priority))) == Some(Entries(urls, today, changefreq, priority))
  {
    SkipIndent(Urlset(urls, today, changefreq, priority));
    DocumentRoundTrip(urls, today, changefreq, priority);
  }
}
