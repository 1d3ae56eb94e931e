/** The sitemap route (`GET` of `app/api/sitemap/route.js`): every static
    page in both languages, as one XML document. The generation time, which
    the route reads from the clock, is a parameter. */
module Sitemap {
  import opened Strings
  import Lists

  const BaseUrl := "https://neomholding.com"

  /** A static page; every page carries the same `lastmod`. */
  datatype Page = Page(url: string, changefreq: string, priority: string)

  const StaticPages: seq<Page> := [
    Page("", "daily", "1.0"),
    Page("/about", "weekly", "0.9"),
    Page("/strategy", "monthly", "0.8"),
    Page("/chairman", "monthly", "0.7"),
    Page("/board", "monthly", "0.7"),
    Page("/sectors", "weekly", "0.8"),
    Page("/governance", "monthly", "0.6"),
    Page("/esg", "monthly", "0.6"),
    Page("/investor-relations", "monthly", "0.6"),
    Page("/news", "daily", "0.7"),
    Page("/blog", "daily", "0.7"),
    Page("/contact", "monthly", "0.8"),
    Page("/compliance", "monthly", "0.5"),
    Page("/privacy", "yearly", "0.3"),
    Page("/terms", "yearly", "0.3"),
    Page("/supply", "monthly", "0.5")
  ]

  const LanguageVariants: seq<string> := ["en", "ar"]

  datatype Alternate = Alternate(hreflang: string, href: string)

  /** The content of one `<url>` element. */
  datatype UrlEntry = UrlEntry(
    loc: string,
    lastmod: string,
    changefreq: string,
    priority: string,
    alternates: seq<Alternate>)

  /** The path of a page in a language: the page's own for "en", under
      `/<lang>` for any other. */
  function LangUrl(page: Page, lang: string): string {
    if lang == "en" then page.url else "/" + lang + page.url
  }

  /** The `<url>` entry of a page in a language: the page's own metadata and
      the generation time, and the alternates in English, Arabic and, as
      the default, English again. */
  function EntryFor(page: Page, lang: string, lastmod: string): (e: UrlEntry)
    ensures e.lastmod == lastmod && e.changefreq == page.changefreq && e.priority == page.priority
    ensures |e.alternates| == 3 && e.alternates[2].href == e.alternates[0].href
    ensures lang == "en" ==> e.loc == e.alternates[0].href
  {
    UrlEntry(
      BaseUrl + LangUrl(page, lang),
      lastmod,
      page.changefreq,
      page.priority,
      [ Alternate("en", BaseUrl + page.url),
        Alternate("ar", BaseUrl + "/ar" + page.url),
        Alternate("x-default", BaseUrl + page.url) ])
  }

  /** The entries of one page, one per language in `LanguageVariants` order. */
  function PageEntries(page: Page, lastmod: string): seq<UrlEntry> {
    seq(|LanguageVariants|, l requires 0 <= l < |LanguageVariants| =>
      EntryFor(page, LanguageVariants[l], lastmod))
  }

  /** The entries of a list of pages, page by page. */
  function EntriesOf(pages: seq<Page>, lastmod: string): seq<UrlEntry> {
    Lists.Flatten(seq(|pages|, p requires 0 <= p < |pages| => PageEntries(pages[p], lastmod)))
  }

  /** Every entry of the sitemap. */
  function Entries(lastmod: string): seq<UrlEntry> {
    EntriesOf(StaticPages, lastmod)
  }

  /** There are two entries per page, in page order, "en" before "ar". */
  lemma EntriesOfOrder(pages: seq<Page>, lastmod: string)
    ensures |EntriesOf(pages, lastmod)| == 2 * |pages|
    ensures forall p, l :: 0 <= p < |pages| && 0 <= l < 2 ==>
              EntriesOf(pages, lastmod)[2 * p + l] == EntryFor(pages[p], LanguageVariants[l], lastmod)
  {
    var groups := seq(|pages|, p requires 0 <= p < |pages| => PageEntries(pages[p], lastmod));
    Lists.FlattenLength(groups, 2);
    forall p, l | 0 <= p < |pages| && 0 <= l < 2
      ensures EntriesOf(pages, lastmod)[2 * p + l] == EntryFor(pages[p], LanguageVariants[l], lastmod)
    {
      Lists.FlattenAt(groups, 2, p, l);
    }
  }

  /** The sitemap has 32 entries: the 16 pages, each in "en" and then "ar". */
  lemma EntriesOrder(lastmod: string)
    ensures |Entries(lastmod)| == 2 * |StaticPages| == 32
    ensures forall p, l :: 0 <= p < |StaticPages| && 0 <= l < 2 ==>
              Entries(lastmod)[2 * p + l] == EntryFor(StaticPages[p], LanguageVariants[l], lastmod)
  {
    EntriesOfOrder(StaticPages, lastmod);
  }

  /** The location of an entry: the base URL and the page's path for "en",
      the base URL, "/ar" and the path for "ar"; the home page's English
      location is the bare base URL. */
  lemma EntryLoc(page: Page, lastmod: string)
    ensures EntryFor(page, "en", lastmod).loc == BaseUrl + page.url
    ensures EntryFor(page, "ar", lastmod).loc == BaseUrl + "/ar" + page.url
    ensures EntryFor(StaticPages[0], "en", lastmod).loc == BaseUrl
  {
    assert "/" + "ar" == "/ar";
    assert BaseUrl + "" == BaseUrl;
  }

  /** The alternate links do not depend on the entry's language; they name
      "en", "ar" and "x-default" in that order, "x-default" points where
      "en" does, and each entry's own location is the alternate of its
      language. */
  lemma EntryAlternates(page: Page, lang: string, lastmod: string)
    requires lang in LanguageVariants
    ensures EntryFor(page, lang, lastmod).alternates == EntryFor(page, "en", lastmod).alternates
    ensures var alts := EntryFor(page, lang, lastmod).alternates;
      |alts| == 3
      && alts[0].hreflang == "en" && alts[1].hreflang == "ar" && alts[2].hreflang == "x-default"
      && alts[2].href == alts[0].href
      && EntryFor(page, lang, lastmod).loc == alts[if lang == "en" then 0 else 1].href
  {
    EntryLoc(page, lastmod);
  }

  /** Every entry carries the same `lastmod`, the generation time. */
  lemma SameLastmod(pages: seq<Page>, lastmod: string)
    ensures forall i :: 0 <= i < |EntriesOf(pages, lastmod)| ==> EntriesOf(pages, lastmod)[i].lastmod == lastmod
  {
    EntriesOfOrder(pages, lastmod);
    forall i | 0 <= i < |EntriesOf(pages, lastmod)| ensures EntriesOf(pages, lastmod)[i].lastmod == lastmod {
      var p, l := i / 2, i % 2;
      assert EntriesOf(pages, lastmod)[2 * p + l] == EntryFor(pages[p], LanguageVariants[l], lastmod);
    }
  }

  // ---------------------------------------------------------------------
  // XML serialisation

  const XmlHeader :=
    "<?xml version=\"1.0\" encoding=\"UTF-8\"?>\n"
    + "<urlset xmlns=\"http://www.sitemaps.org/schemas/sitemap/0.9\" \n"
    + "        xmlns:xhtml=\"http://www.w3.org/1999/xhtml\"\n"
    + "        xmlns:image=\"http://www.google.com/schemas/sitemap-image/1.1\">\n"

  const XmlFooter := "\n</urlset>"

  function AlternatesXml(alts: seq<Alternate>): string {
    if alts == [] then ""
    else "    <xhtml:link rel=\"alternate\" hreflang=\"" + alts[0].hreflang
         + "\" href=\"" + alts[0].href + "\" />\n" + AlternatesXml(alts[1..])
  }

  /** One `<url>` element: opened, the location first, and closed. */
  function UrlXml(e: UrlEntry): (x: string)
    ensures "  <url>\n    <loc>" + e.loc + "</loc>\n" <= x
    ensures |x| >= 8 && x[|x| - 8..] == "  </url>"
  {
    var head := "  <url>\n    <loc>" + e.loc + "</loc>\n";
    var body := "    <lastmod>" + e.lastmod + "</lastmod>\n"
      + "    <changefreq>" + e.changefreq + "</changefreq>\n"
      + "    <priority>" + e.priority + "</priority>\n"
      + AlternatesXml(e.alternates);
    Enclosed(head, body, "  </url>");
    head + body + "  </url>"
  }

  /** The `<url>` elements of a page, one per language. */
  function PageXml(page: Page, lastmod: string): seq<string> {
    seq(|LanguageVariants|, l requires 0 <= l < |LanguageVariants| =>
      UrlXml(EntryFor(page, LanguageVariants[l], lastmod)))
  }

  /** The body of the document for a list of pages, as the route assembles
      it: per page, the language variants joined by newlines, and the pages
      joined by newlines. */
  function UrlsXml(pages: seq<Page>, lastmod: string): string {
    Join(seq(|pages|, p requires 0 <= p < |pages| => Join(PageXml(pages[p], lastmod), "\n")), "\n")
  }

  /** The whole document: the XML declaration and the opening `urlset`,
      the body, and the closing `urlset`. */
  function SitemapXml(lastmod: string): (x: string)
    ensures XmlHeader <= x
    ensures |x| >= |XmlFooter| && x[|x| - |XmlFooter|..] == XmlFooter
  {
    Enclosed(XmlHeader, UrlsXml(StaticPages, lastmod), XmlFooter);
    XmlHeader + UrlsXml(StaticPages, lastmod) + XmlFooter
  }

  /** A text between an opening and a closing part starts with the one and
      ends with the other. */
  lemma Enclosed(open: string, body: string, close: string)
    ensures open <= open + body + close
    ensures (open + body + close)[|open + body + close| - |close|..] == close
  {
    assert (open + body + close)[..|open|] == open;
  }

  /** The `<url>` elements of the entries, in order. */
  function EntryBlocks(entries: seq<UrlEntry>): seq<string> {
    seq(|entries|, i requires 0 <= i < |entries| => UrlXml(entries[i]))
  }

  /** The `<url>` elements of each page. */
  function PageXmlGroups(pages: seq<Page>, lastmod: string): seq<seq<string>> {
    seq(|pages|, p requires 0 <= p < |pages| => PageXml(pages[p], lastmod))
  }

  /** Taken page by page, the `<url>` elements are those of the entries. */
  lemma {:induction false} PageXmlGroupsFlatten(pages: seq<Page>, lastmod: string)
    ensures Lists.Flatten(PageXmlGroups(pages, lastmod)) == EntryBlocks(EntriesOf(pages, lastmod))
  {
    var groups := PageXmlGroups(pages, lastmod);
    var blocks := EntryBlocks(EntriesOf(pages, lastmod));
    EntriesOfOrder(pages, lastmod);
    Lists.FlattenLength(groups, 2);
    forall i | 0 <= i < |blocks| ensures Lists.Flatten(groups)[i] == blocks[i] {
      var p, l := i / 2, i % 2;
      Lists.FlattenAt(groups, 2, p, l);
      assert EntriesOf(pages, lastmod)[2 * p + l] == EntryFor(pages[p], LanguageVariants[l], lastmod);
    }
  }

  /** The body is the `<url>` element of every entry, in order, one per
      line. */
  lemma {:induction false} UrlsAreEntries(pages: seq<Page>, lastmod: string)
    ensures UrlsXml(pages, lastmod) == Join(EntryBlocks(EntriesOf(pages, lastmod)), "\n")
  {
    var n := |pages|;
    var outer := seq(n, p requires 0 <= p < n => Join(PageXml(pages[p], lastmod), "\n"));
    Strings.JoinFlatten(outer, PageXmlGroups(pages, lastmod), "\n");
    PageXmlGroupsFlatten(pages, lastmod);
  }

  /** The sitemap is the header, the `<url>` element of each of its 32
      entries in order, one per line, and the footer. */
  lemma SitemapIsEntries(lastmod: string)
    ensures SitemapXml(lastmod) == XmlHeader + Join(EntryBlocks(Entries(lastmod)), "\n") + XmlFooter
    ensures |EntryBlocks(Entries(lastmod))| == 32
  {
    UrlsAreEntries(StaticPages, lastmod);
    EntriesOrder(lastmod);
  }

  /** The route's response. */
  datatype Response = Response(body: string, contentType: string, cacheControl: string)

  /** `GET`: the document, served as XML and cacheable for a day. */
  function Get(lastmod: string): (r: Response)
    ensures r.body == SitemapXml(lastmod)
    ensures r.contentType == "application/xml"
    ensures r.cacheControl == "public, max-age=86400, s-maxage=86400"
  {
    Response(SitemapXml(lastmod), "application/xml", "public, max-age=86400, s-maxage=86400")
  }
}
