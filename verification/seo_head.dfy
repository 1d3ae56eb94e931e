/** The page head of `components/SEOHead.jsx`: the title, description,
    keywords, canonical address, Open Graph and Twitter tags it writes for
    the props it is given and the translation instance's language. An absent
    prop is `None`. */
module SeoHead {
  import opened Wrappers
  import opened Strings

  /** The site's address in the head's links. */
  const SiteUrl := "https://neomholding.com"

  /** The suffix a given title receives. */
  const TitleSuffix := " | Neom Holding"

  /** The title of a page that gives none. */
  const DefaultTitle := "Neom Holding | شركة نيوم القابضة"

  /** The description of a page that gives none. */
  const DefaultDescription := "A world-class Saudi-Syrian holding company investing in Syria's future through agriculture, industry, infrastructure, tourism, contracting, and international trade with robust governance and ESG standards."

  /** The keywords every page carries, before its own. */
  const DefaultKeywords: seq<string> := [
    "Neom Holding",
    "Saudi-Syrian investment",
    "Syria reconstruction",
    "holding company",
    "agriculture investment",
    "infrastructure development",
    "tourism investment",
    "ESG standards",
    "corporate governance",
    "sustainable investment"
  ]

  /** The image of a page that gives none. */
  const DefaultImage := "/og-image.jpg"

  /** `title ? `${title} | Neom Holding` : DefaultTitle`. */
  function FullTitle(title: Option<string>): (r: string)
    ensures Truthy(title) ==> r == title.value + TitleSuffix
    ensures !Truthy(title) ==> r == DefaultTitle
  {
    if Truthy(title) then title.value + TitleSuffix else DefaultTitle
  }

  /** A given title is never mistaken for the default, and it can be read
      back from the full title: distinct titles give distinct full titles. */
  lemma FullTitleInjective(a: Option<string>, b: Option<string>)
    requires Truthy(a)
    ensures FullTitle(a) != DefaultTitle
    ensures FullTitle(a) == FullTitle(b) <==> b == a
  {
    var r := FullTitle(a);
    assert r[|r| - 1] == 'g';
    assert DefaultTitle[|DefaultTitle| - 1] != 'g';
    if Truthy(b) && FullTitle(b) == r {
      assert b.value == r[..|r| - |TitleSuffix|] == a.value;
    }
  }

  /** `description || DefaultDescription`: never empty. */
  function FullDescription(description: Option<string>): (r: string)
    ensures Truthy(description) ==> r == description.value
    ensures !Truthy(description) ==> r == DefaultDescription
    ensures r != ""
  {
    if Truthy(description) then description.value else DefaultDescription
  }

  /** `url ? SiteUrl + url : SiteUrl`. */
  function FullUrl(url: Option<string>): (r: string)
    ensures Truthy(url) ==> r == SiteUrl + url.value
    ensures !Truthy(url) ==> r == SiteUrl
  {
    if Truthy(url) then SiteUrl + url.value else SiteUrl
  }

  /** The canonical address is the site's address followed by the page's
      path, or by nothing; so two pages with different paths have different
      canonical addresses. */
  lemma FullUrlPath(url: Option<string>)
    ensures |FullUrl(url)| >= |SiteUrl| && FullUrl(url)[..|SiteUrl|] == SiteUrl
    ensures FullUrl(url)[|SiteUrl|..] == if Truthy(url) then url.value else ""
  {
    var r := FullUrl(url);
    if Truthy(url) {
      assert r[..|SiteUrl|] == SiteUrl && r[|SiteUrl|..] == url.value;
    } else {
      assert r[|SiteUrl|..] == [];
    }
  }

  /** `[...defaultKeywords, ...keywords].join(", ")`, the keywords defaulting
      to none. The page's own keywords follow the defaults, after one more ", ";
      without any, the keywords are the defaults alone. */
  function AllKeywords(keywords: Option<seq<string>>): (r: string)
    ensures keywords.GetOr([]) == [] ==> r == Join(DefaultKeywords, ", ")
    ensures keywords.GetOr([]) != [] ==>
              r == Join(DefaultKeywords, ", ") + ", " + Join(keywords.value, ", ")
  {
    var own := keywords.GetOr([]);
    if own == [] then
      assert DefaultKeywords + own == DefaultKeywords;
      Join(DefaultKeywords + own, ", ")
    else
      JoinAppend(DefaultKeywords, own, ", ");
      Join(DefaultKeywords + own, ", ")
  }

  /** `og:locale`: Saudi Arabic exactly when the language is Arabic. */
  function Locale(language: Option<string>): (r: string)
    ensures r == "ar_SA" <==> language == Some("ar")
    ensures r == "en_US" <==> language != Some("ar")
  {
    if language == Some("ar") then "ar_SA" else "en_US"
  }

  /** The props of the head; `type` defaults to "website" and `keywords` to
      none. The structured data is not part of this model. */
  datatype Props = Props(title: Option<string>, description: Option<string>,
                         keywords: Option<seq<string>>, image: Option<string>,
                         url: Option<string>, pageType: Option<string>)

  /** The values the head writes. */
  datatype Head = Head(
    title: string, description: string, keywords: string, language: Option<string>,
    canonical: string, ogType: string, ogTitle: string, ogDescription: string,
    ogUrl: string, ogImage: string, ogImageAlt: string, ogLocale: string,
    twitterTitle: string, twitterDescription: string, twitterImage: string)

  /** The head for `props` in `language`. The page's title, description,
      address and image are written once and repeated verbatim wherever
      the Open Graph and Twitter tags name them; a default applies only to
      an absent image or type, while a falsy title, description or address
      is replaced. */
  function Render(props: Props, language: Option<string>): (h: Head)
    ensures h.title == FullTitle(props.title)
    ensures h.ogTitle == h.title && h.twitterTitle == h.title && h.ogImageAlt == h.title
    ensures h.description == FullDescription(props.description)
    ensures h.ogDescription == h.description && h.twitterDescription == h.description
    ensures h.canonical == FullUrl(props.url) && h.ogUrl == h.canonical
    ensures h.ogImage == SiteUrl + props.image.GetOr(DefaultImage) && h.twitterImage == h.ogImage
    ensures h.ogType == props.pageType.GetOr("website")
    ensures h.keywords == AllKeywords(props.keywords)
    ensures h.ogLocale == "ar_SA" <==> language == Some("ar")
  {
    var title := FullTitle(props.title);
    var description := FullDescription(props.description);
    var url := FullUrl(props.url);
    var image := SiteUrl + props.image.GetOr(DefaultImage);
    Head(title, description, AllKeywords(props.keywords), language,
         url, props.pageType.GetOr("website"), title, description,
         url, image, title, Locale(language),
         title, description, image)
  }
}
