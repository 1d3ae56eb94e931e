/** The on-page audit of `SEOAudit.jsx`. Each check reads a few facts of the
    rendered document (the model receives them as a `Document` value instead
    of querying the DOM), and `calculateOverallScore` weighs the results into a
    score out of 100. */
module SeoAudit {
  import opened Wrappers
  import opened Strings
  import Lists

  /** What the checks read from the document. `Option` stands for an element
      that `querySelector` may not find; an inner `Option` for an attribute
      that `getAttribute` may return as `null`. */
  datatype Document = Document(
    title: Option<string>,                // text of <title>
    description: Option<Option<string>>,  // content of <meta name="description">
    h1Texts: seq<string>,                 // text of every <h1>
    h2Count: nat,
    h3Count: nat,
    imageAlts: seq<string>,               // `alt` of every <img> ("" when absent)
    hrefs: seq<string>,                   // resolved href of every <a href>
    origin: string,                       // window.location.origin
    hasLang: bool,                        // <html lang> present
    hasDir: bool,                         // <html dir> present
    viewport: Option<Option<string>>,     // content of <meta name="viewport">
    ldJsonCount: nat)                     // <script type="application/ld+json"> count

  datatype TitleCheck = TitleCheck(present: bool, length: nat, isValid: bool, text: string)
  datatype MetaCheck = MetaCheck(present: bool, length: nat, isValid: bool, content: string)
  datatype HeadingsCheck = HeadingsCheck(h1Count: nat, h2Count: nat, h3Count: nat, hasH1: bool, isValid: bool)
  datatype ImagesCheck = ImagesCheck(total: nat, withAlt: nat, withoutAlt: int, isValid: bool)
  datatype LinksCheck = LinksCheck(total: nat, internal: nat, external: nat, hasInternalLinks: bool)
  datatype AccessibilityCheck = AccessibilityCheck(hasLang: bool, hasDir: bool, imagesAccessible: bool)
  datatype MobileCheck = MobileCheck(hasViewport: bool, isResponsive: bool, isValid: bool)
  datatype StructuredDataCheck = StructuredDataCheck(count: nat, hasStructuredData: bool)

  /** The result object of `runSEOAudit`, without the performance timings. */
  datatype AuditResults = AuditResults(
    title: TitleCheck,
    metaDescription: MetaCheck,
    headings: HeadingsCheck,
    images: ImagesCheck,
    links: LinksCheck,
    accessibility: AccessibilityCheck,
    mobile: MobileCheck,
    structuredData: StructuredDataCheck)

  /** `checkTitle`: a title is valid when its text is 30 to 60 characters
      long; a missing title reads as "". */
  function CheckTitle(title: Option<string>): (r: TitleCheck)
    ensures r.present <==> title.Some?
    ensures r.text == title.GetOr("") && r.length == |r.text|
    ensures r.isValid <==> 30 <= |r.text| <= 60
    ensures !r.present ==> !r.isValid
  {
    var text := title.GetOr("");
    TitleCheck(title.Some?, |text|, 30 <= |text| <= 60, text)
  }

  /** `checkMetaDescription`: valid when the content is 120 to 160
      characters long; a missing tag or attribute reads as "". */
  function CheckMetaDescription(meta: Option<Option<string>>): (r: MetaCheck)
    ensures r.present <==> meta.Some?
    ensures r.content == (if meta.Some? then meta.value.GetOr("") else "")
    ensures r.length == |r.content|
    ensures r.isValid <==> 120 <= |r.content| <= 160
    ensures r.isValid ==> meta.Some? && meta.value.Some?
  {
    var content := if meta.Some? then meta.value.GetOr("") else "";
    MetaCheck(meta.Some?, |content|, 120 <= |content| <= 160, content)
  }

  /** `checkHeadings`: valid when there is exactly one `h1` and its text is
      not empty. */
  function CheckHeadings(h1Texts: seq<string>, h2Count: nat, h3Count: nat): (r: HeadingsCheck)
    ensures r.h1Count == |h1Texts| && r.h2Count == h2Count && r.h3Count == h3Count
    ensures r.hasH1 <==> |h1Texts| > 0
    ensures r.isValid <==> |h1Texts| == 1 && h1Texts[0] != ""
    ensures r.isValid ==> r.hasH1
  {
    HeadingsCheck(|h1Texts|, h2Count, h3Count, |h1Texts| > 0,
      |h1Texts| == 1 && |h1Texts[0]| > 0)
  }

  /** `img.alt` is truthy. */
  predicate HasAlt(alt: string) { alt != "" }

  /** `checkImages`: the images with and without alt text partition all the
      images, and the check passes when every image has alt text (which holds
      in particular when there are none). */
  function CheckImages(alts: seq<string>): (r: ImagesCheck)
    ensures r.total == |alts|
    ensures 0 <= r.withoutAlt && r.withAlt + r.withoutAlt == r.total
    ensures r.isValid <==> forall i :: 0 <= i < |alts| ==> HasAlt(alts[i])
    ensures r.total == 0 ==> r.isValid
  {
    var withAlt := |Lists.Filter(alts, HasAlt)|;
    Lists.FilterKeepsAll(alts, HasAlt);
    ImagesCheck(|alts|, withAlt, |alts| - withAlt, |alts| == 0 || withAlt == |alts|)
  }

  /** The link points into the site: `link.href.startsWith(origin)`. */
  predicate IsInternal(origin: string, href: string) { origin <= href }

  /** `checkLinks`: every link is either internal or external. */
  function CheckLinks(hrefs: seq<string>, origin: string): (r: LinksCheck)
    ensures r.total == |hrefs|
    ensures r.internal + r.external == r.total
    ensures r.hasInternalLinks <==> exists i :: 0 <= i < |hrefs| && IsInternal(origin, hrefs[i])
  {
    var internal := Lists.Filter(hrefs, href => IsInternal(origin, href));
    var external := Lists.Filter(hrefs, href => !IsInternal(origin, href));
    Lists.FilterComplement(hrefs, href => IsInternal(origin, href), href => !IsInternal(origin, href));
    assert internal != [] ==> IsInternal(origin, internal[0]);
    LinksCheck(|hrefs|, |internal|, |external|, |internal| > 0)
  }

  /** `checkAccessibility`. */
  function CheckAccessibility(hasLang: bool, hasDir: bool, alts: seq<string>): (r: AccessibilityCheck)
    ensures r.hasLang == hasLang && r.hasDir == hasDir
    ensures r.imagesAccessible <==> forall i :: 0 <= i < |alts| ==> HasAlt(alts[i])
  {
    Lists.FilterKeepsAll(alts, HasAlt);
    AccessibilityCheck(hasLang, hasDir,
      |alts| == 0 || |Lists.Filter(alts, HasAlt)| == |alts|)
  }

  const ResponsiveViewport := "width=device-width"

  /** `checkMobile`: valid when a viewport tag exists and its content
      includes "width=device-width" (an `undefined` `isResponsive` is
      false). */
  function CheckMobile(viewport: Option<Option<string>>): (r: MobileCheck)
    ensures r.hasViewport <==> viewport.Some?
    ensures r.isResponsive <==> viewport.Some? && viewport.value.Some?
                                && Contains(viewport.value.value, ResponsiveViewport)
    ensures r.isValid <==> r.hasViewport && r.isResponsive
  {
    var responsive := viewport.Some? && viewport.value.Some?
                      && Includes(viewport.value.value, ResponsiveViewport);
    MobileCheck(viewport.Some?, responsive, viewport.Some? && responsive)
  }

  /** `checkStructuredData`. */
  function CheckStructuredData(count: nat): (r: StructuredDataCheck)
    ensures r.count == count
    ensures r.hasStructuredData <==> count > 0
  {
    StructuredDataCheck(count, count > 0)
  }

  /** `runSEOAudit`'s result for a document. The accessibility check's
      image test is the image check itself, and an empty image list
      passes. */
  function Audit(doc: Document): (r: AuditResults)
    ensures r.accessibility.imagesAccessible == r.images.isValid
    ensures r.images.total == 0 ==> r.images.isValid
  {
    AuditResults(
      CheckTitle(doc.title),
      CheckMetaDescription(doc.description),
      CheckHeadings(doc.h1Texts, doc.h2Count, doc.h3Count),
      CheckImages(doc.imageAlts),
      CheckLinks(doc.hrefs, doc.origin),
      CheckAccessibility(doc.hasLang, doc.hasDir, doc.imageAlts),
      CheckMobile(doc.viewport),
      CheckStructuredData(doc.ldJsonCount))
  }

  // ---------------------------------------------------------------------
  // calculateOverallScore

  /** Points each component earns, by the weights of
      `calculateOverallScore`. */
  function TitlePoints(t: TitleCheck): (p: nat)
    ensures p <= 20 && (p == 20 <==> t.present && t.isValid)
  {
    if t.present && t.isValid then 20 else if t.present then 10 else 0
  }

  function MetaPoints(m: MetaCheck): (p: nat)
    ensures p <= 20 && (p == 20 <==> m.present && m.isValid)
  {
    if m.present && m.isValid then 20 else if m.present then 10 else 0
  }

  function HeadingsPoints(h: HeadingsCheck): (p: nat)
    ensures p <= 15 && (p == 15 <==> h.isValid)
  {
    if h.isValid then 15 else if h.hasH1 then 10 else 0
  }

  /** Images never earn fewer than 5 points. */
  function ImagesPoints(i: ImagesCheck): (p: nat)
    ensures 5 <= p <= 15 && (p == 15 <==> i.isValid || i.total == 0)
  {
    if i.isValid then 15 else if i.total == 0 then 15 else 5
  }

  function MobilePoints(m: MobileCheck): (p: nat)
    ensures p <= 15 && (p == 15 <==> m.isValid)
  {
    if m.isValid then 15 else if m.hasViewport then 10 else 0
  }

  function AccessibilityPoints(a: AccessibilityCheck): (p: nat)
    ensures p <= 10 && (p == 10 <==> a.hasLang && a.imagesAccessible)
  {
    if a.hasLang && a.imagesAccessible then 10 else if a.hasLang then 5 else 0
  }

  function StructuredDataPoints(s: StructuredDataCheck): (p: nat)
    ensures p <= 5 && (p == 5 <==> s.hasStructuredData)
  {
    if s.hasStructuredData then 5 else 0
  }

  /** The points of all seven scored components: between 5 (images always
      earn 5) and 100. */
  function Score(r: AuditResults): (s: nat)
    ensures 5 <= s <= 100
  {
    TitlePoints(r.title) + MetaPoints(r.metaDescription) + HeadingsPoints(r.headings)
    + ImagesPoints(r.images) + MobilePoints(r.mobile)
    + AccessibilityPoints(r.accessibility) + StructuredDataPoints(r.structuredData)
  }

  /** `Math.round(score / total * 100)` on exact rationals:
      `floor(100 * score / total + 1/2)`. */
  function RoundPercent(score: nat, total: nat): (r: nat)
    requires total > 0
    ensures total * (2 * r) <= 200 * score + total < total * (2 * r + 2)
  {
    (200 * score + total) / (2 * total)
  }

  /** Out of a total of 100 the rounded percentage is the score itself. */
  lemma RoundPercentOfHundred(score: nat)
    ensures RoundPercent(score, 100) == score
  {
    var r := RoundPercent(score, 100);
    assert 200 * r <= 200 * score + 100 < 200 * r + 200;
  }

  /** `calculateOverallScore`: adds each component's weight to `total` and
      the points it earns to `score`, then rounds `score / total` to a
      percentage. The weights add up to 100, so the result is the number of
      points earned. */
  method OverallScore(results: AuditResults) returns (percent: nat)
    ensures percent == Score(results)
  {
    var score: nat, total: nat := 0, 0;
    // After each component, `score` holds the points of the components so far.

    total := total + 20;
    if results.title.present && results.title.isValid {
      score := score + 20;
    } else if results.title.present {
      score := score + 10;
    }
    assert score == TitlePoints(results.title);

    total := total + 20;
    if results.metaDescription.present && results.metaDescription.isValid {
      score := score + 20;
    } else if results.metaDescription.present {
      score := score + 10;
    }
    assert score == TitlePoints(results.title) + MetaPoints(results.metaDescription);

    total := total + 15;
    if results.headings.isValid {
      score := score + 15;
    } else if results.headings.hasH1 {
      score := score + 10;
    }
    assert score == TitlePoints(results.title) + MetaPoints(results.metaDescription) + HeadingsPoints(results.headings);

    total := total + 15;
    if results.images.isValid {
      score := score + 15;
    } else if results.images.total == 0 {
      score := score + 15;
    } else {
      score := score + 5;
    }
    assert score == TitlePoints(results.title) + MetaPoints(results.metaDescription) + HeadingsPoints(results.headings) + ImagesPoints(results.images);

    total := total + 15;
    if results.mobile.isValid {
      score := score + 15;
    } else if results.mobile.hasViewport {
      score := score + 10;
    }
    assert score == TitlePoints(results.title) + MetaPoints(results.metaDescription) + HeadingsPoints(results.headings) + ImagesPoints(results.images) + MobilePoints(results.mobile);

    total := total + 10;
    if results.accessibility.hasLang && results.accessibility.imagesAccessible {
      score := score + 10;
    } else if results.accessibility.hasLang {
      score := score + 5;
    }
    assert score == TitlePoints(results.title) + MetaPoints(results.metaDescription) + HeadingsPoints(results.headings) + ImagesPoints(results.images) + MobilePoints(results.mobile) + AccessibilityPoints(results.accessibility);

    total := total + 5;
    if results.structuredData.hasStructuredData {
      score := score + 5;
    }
    assert score == Score(results);

    assert total == 100;
    RoundPercentOfHundred(score);
    percent := RoundPercent(score, total);
  }

  /** A score of 100 means every component earned its full weight. */
  lemma ScorePerfect(r: AuditResults)
    ensures Score(r) == 100 <==>
      r.title.present && r.title.isValid
      && r.metaDescription.present && r.metaDescription.isValid
      && r.headings.isValid
      && (r.images.isValid || r.images.total == 0)
      && r.mobile.isValid
      && r.accessibility.hasLang && r.accessibility.imagesAccessible
      && r.structuredData.hasStructuredData
  {
  }

  /** For an audited document the `total === 0` branch of the images
      component is never reached: an empty image list already passes. */
  lemma ImagesEmptyBranchUnreachable(doc: Document)
    ensures Audit(doc).images.total == 0 ==> Audit(doc).images.isValid
    ensures ImagesPoints(Audit(doc).images) == if Audit(doc).images.isValid then 15 else 5
  {
  }

  /** A document scores 100 exactly when it has a 30-60 character title, a
      120-160 character description, one non-empty `h1`, alt text on every
      image, a responsive viewport, a `lang` attribute and structured data. */
  lemma {:induction false} PerfectDocument(doc: Document)
    ensures Score(Audit(doc)) == 100 <==>
      doc.title.Some? && 30 <= |doc.title.value| <= 60
      && doc.description.Some? && doc.description.value.Some?
      && 120 <= |doc.description.value.value| <= 160
      && |doc.h1Texts| == 1 && doc.h1Texts[0] != ""
      && (forall i :: 0 <= i < |doc.imageAlts| ==> HasAlt(doc.imageAlts[i]))
      && doc.viewport.Some? && doc.viewport.value.Some?
      && Contains(doc.viewport.value.value, ResponsiveViewport)
      && doc.hasLang
      && doc.ldJsonCount > 0
  {
    ScorePerfect(Audit(doc));
  }

  datatype ScoreColor = Green | Yellow | Red

  /** The colour of the overall score: green from 80, yellow from 60, red
      below. */
  function ColorOf(score: int): (c: ScoreColor)
    ensures c == Green <==> score >= 80
    ensures c == Yellow <==> 60 <= score < 80
    ensures c == Red <==> score < 60
  {
    if score >= 80 then Green else if score >= 60 then Yellow else Red
  }
}
