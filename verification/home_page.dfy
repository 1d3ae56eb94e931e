/** The home page of `app/page.js`, beyond its markup: the company name
    shown in the header, and the anchors that tie each company's link to
    the section rendered for it. Its contact form keeps the same state and
    handlers as `components/ContactForm.jsx` and is modelled by
    `ContactForm.ContactFormState`. */
module HomePage {
  import opened Wrappers
  import opened Strings
  import JsObject

  /** The name shown for the company: in Arabic the settings' Arabic brand
      name, otherwise the English one; a missing or empty brand name falls
      back to the translation of "site.companyName", given as `fallback`.
      Absent settings count as having no brand names. */
  function CompanyName(language: Option<string>, settings: Option<JsObject.Object<string>>,
                       fallback: string): (name: string)
    ensures settings.None? ==> name == fallback
    ensures settings.Some? && language == Some("ar") ==>
              name == if Truthy(JsObject.Get(settings.value, "brand_name_ar"))
                      then JsObject.Get(settings.value, "brand_name_ar").value else fallback
    ensures settings.Some? && language != Some("ar") ==>
              name == if Truthy(JsObject.Get(settings.value, "brand_name_en"))
                      then JsObject.Get(settings.value, "brand_name_en").value else fallback
  {
    var key := if language == Some("ar") then "brand_name_ar" else "brand_name_en";
    var brand := if settings.Some? then JsObject.Get(settings.value, key) else None;
    if Truthy(brand) then brand.value else fallback
  }

  /** The other language's brand name never shows: two settings that agree
      on the brand name of the page's language give the same name. */
  lemma CompanyNameIgnoresOtherLanguage(language: Option<string>, s1: JsObject.Object<string>,
                                        s2: JsObject.Object<string>, fallback: string)
    requires language == Some("ar") ==> JsObject.Get(s1, "brand_name_ar") == JsObject.Get(s2, "brand_name_ar")
    requires language != Some("ar") ==> JsObject.Get(s1, "brand_name_en") == JsObject.Get(s2, "brand_name_en")
    ensures CompanyName(language, Some(s1), fallback) == CompanyName(language, Some(s2), fallback)
  {
  }

  /** A company from the content: its `key`, and its numeric `id`. */
  datatype Company = Company(key: Option<string>, id: Option<nat>)

  /** `company.key || company.id`, as a template string shows it: the key
      if it is non-empty, else the id in decimal, else "undefined". */
  function AnchorKey(c: Company): (k: string)
    ensures Truthy(c.key) ==> k == c.key.value
    ensures !Truthy(c.key) && c.id.Some? ==> k == NatToString(c.id.value)
    ensures k != ""
  {
    if Truthy(c.key) then c.key.value
    else match c.id
         case Some(n) => NatToString(n)
         case None => "undefined"
  }

  /** The `href` of the company's link in the sectors grid. */
  function CompanyLink(c: Company): string {
    "#company-" + AnchorKey(c)
  }

  /** The `id` of the section rendered for the company. */
  function SectionId(c: Company): string {
    "company-" + AnchorKey(c)
  }

  /** Each company's link points at its own section: the link is "#"
      followed by the section's id, so the id is the link without its "#". */
  lemma LinkTargetsSection(c: Company)
    ensures CompanyLink(c) == "#" + SectionId(c)
    ensures RemoveFirst(CompanyLink(c), '#') == SectionId(c)
  {
    var link := CompanyLink(c);
    assert link[0] == '#';
    assert IndexOf(link, '#') == 0;
    assert link[..0] + link[1..] == SectionId(c);
  }

  /** The links in the grid and the sections below it, one per company in
      the content's order; with no companies neither is rendered (the grid
      shows the translated fallback sectors instead). */
  function CompanyAnchors(companies: Option<seq<Company>>): (r: (seq<string>, seq<string>))
    ensures companies.None? || companies.value == [] ==> r.0 == [] && r.1 == []
    ensures companies.Some? ==> |r.0| == |r.1| == |companies.value|
    ensures forall i :: 0 <= i < |r.0| ==>
              r.0[i] == CompanyLink(companies.value[i]) && r.1[i] == SectionId(companies.value[i])
  {
    if companies.None? then ([], [])
    else
      var cs := companies.value;
      (seq(|cs|, i requires 0 <= i < |cs| => CompanyLink(cs[i])),
       seq(|cs|, i requires 0 <= i < |cs| => SectionId(cs[i])))
  }

  /** Decimal numerals of at least two digits are at least two long. */
  lemma NatToStringLong(n: nat)
    requires n >= 10
    ensures |NatToString(n)| >= 2
  {
  }

  /** Different numbers have different decimal numerals. */
  lemma {:induction false} NatToStringInjective(a: nat, b: nat)
    requires NatToString(a) == NatToString(b)
    ensures a == b
  {
    var s := NatToString(a);
    if a < 10 && b >= 10 {
      NatToStringLong(b);
    } else if a >= 10 && b < 10 {
      NatToStringLong(a);
    } else if a >= 10 && b >= 10 {
      var p := NatToString(a / 10);
      var q := NatToString(b / 10);
      assert s == p + [('0' as int + a % 10) as char] == q + [('0' as int + b % 10) as char];
      assert s[..|s| - 1] == p == q;
      assert s[|s| - 1] == ('0' as int + a % 10) as char == ('0' as int + b % 10) as char;
      NatToStringInjective(a / 10, b / 10);
    }
  }

  /** Companies that have no key and different ids get different sections,
      and so do companies whose keys differ. */
  lemma DistinctSections(c: Company, d: Company)
    requires (!Truthy(c.key) && !Truthy(d.key) && c.id.Some? && d.id.Some? && c.id != d.id)
             || (Truthy(c.key) && Truthy(d.key) && c.key != d.key)
    ensures SectionId(c) != SectionId(d)
  {
    var pre := "company-";
    if SectionId(c) == SectionId(d) {
      assert AnchorKey(c) == SectionId(c)[|pre|..] == SectionId(d)[|pre|..] == AnchorKey(d);
      if !Truthy(c.key) {
        NatToStringInjective(c.id.value, d.id.value);
      }
    }
  }
}
