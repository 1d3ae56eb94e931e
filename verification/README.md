# Neom Holding web site: a Dafny model of its client-side core

The Neom Holding site is a bilingual (Arabic and English) Next.js site. Its pages come from a REST content
API. This project models the logic behind those pages in Dafny and proves what that logic promises:

- the service layer that builds the API requests and wraps their errors;
- the data hooks' cache keys and refresh options;
- the home page provider, which merges loading and error states, sorts feeds, submits the contact form,
  handles search and menu state and scrolls to a section;
- the SEO helpers (meta description, keyword extraction, validation, canonical and hreflang URLs, breadcrumb
  data), the head tags of `SEOHead`, and the audit with its score;
- the sitemap route;
- the theme provider, the language switcher and the language initializer;
- both navigation bars, the grouped mobile menu, and the contact form.

Pure code is modelled as functions over datatypes. Components whose state changes step by step are classes
whose fields are that state:

- the form's data;
- the provider's flags;
- the theme and its stored copy;
- the translation instance's language;
- the `<html>` attributes and the body class.

Three kinds of code are modelled with arrays and loops:

- the in-place sorts of the feeds;
- the word-count loop;
- the scroll-spy loop.

Some JavaScript semantics are modelled explicitly:

- Plain objects are insertion-ordered property lists (`JsObject`). `Object.entries` lists integer-like keys
  first, in ascending order, then the other keys in insertion order.
- `a || b` replaces every falsy value (`Wrappers.Truthy`). A default parameter replaces only a missing one
  (`Option.GetOr`).
- `Array.prototype.sort` with a comparator is a stable insertion sort on a rank.
- A DOM token list splits on ASCII whitespace; the regular expression class `\s` is the full JavaScript whitespace set.

The clock, local storage, the media query and the HTTP client's result are parameters or fields. The document
is modelled as the few values each function reads.

## Model

| member | source | states |
|---|---|---|
| ApiServices.Endpoint | src/lib/api/config.js:5-24 | every configured resource gets its configured path; every path starts and ends with "/" |
| ApiServices.EndpointInjective | src/lib/api/config.js:5-24 | no two resources share an endpoint |
| ApiServices.Call | src/lib/api/services.js:7-46 | a delivered response yields its data; a failure yields the verb's wrapped message naming the endpoint and the cause |
| ApiServices.OriginalMessage | src/lib/api/services.js:12-14 | partner of Call: whatever message it recovers, wraps back to the given error text |
| ApiServices.OriginalMessageRoundTrip | src/lib/api/services.js:7-46 | unwrapping a wrapped failure gives back the client's message |
| ApiServices.FailureNamesVerb | src/lib/api/services.js:7-46 | two wrapped messages for the same endpoint are equal only for the same verb |
| ApiServices.Lang | src/lib/api/services.js:52 | a missing language defaults to "en"; a given one, even "", is kept |
| ApiServices.LangParams | src/lib/api/services.js:52 | the query parameters hold exactly one key, `lang`, with the effective language |
| ApiServices.GetAllCall | src/lib/api/services.js:52 | `getAll` is a GET of the resource's endpoint carrying the language |
| ApiServices.GetByIdCall | src/lib/api/services.js:69-132 | `getById` is a GET of `endpoint + id + "/"` carrying the language |
| ApiServices.ByIdPathAsWritten | src/lib/api/services.js:69-132 | as written, every resource's by-id path is the intended one except the KPIs', which starts with "undefined" |
| ApiServices.KpisByIdPathAsWritten | src/lib/api/services.js:81-85 | as written, the KPI path is "undefined" + id + "/", not under any endpoint; every other resource's path is as intended |
| ApiServices.IdUnder | src/lib/api/services.js:69-132 | any id it reads back rebuilds the path |
| ApiServices.IdUnderRoundTrip | src/lib/api/services.js:69-132 | the id is read back from `e + id + "/"` |
| ApiServices.IdOf | src/lib/api/services.js:69-132 | any id it reads back rebuilds the resource's by-id path |
| ApiServices.ByIdPathRoundTrip | src/lib/api/services.js:69-132 | the by-id path determines the id |
| ApiServices.GetByKeyCall | src/lib/api/services.js:55-56 | a setting by key is a GET of `/settings/?key=<key>` with the language |
| ApiServices.KeyOf | src/lib/api/services.js:55-56 | any key it reads back rebuilds the by-key path |
| ApiServices.ByKeyPathRoundTrip | src/lib/api/services.js:55-56 | the by-key path determines the key |
| ApiServices.SubmitCall | src/lib/api/services.js:133-134 | a submission is a POST to the contact endpoint with a well-formed body |
| ApiServices.SubmitBody | src/lib/api/services.js:133-134 | the body is the form's fields plus `lang`, and `lang` overrides a field of that name |
| ApiServices.SearchCall | src/lib/api/services.js:137-140 | a search is a GET of the search endpoint with well-formed parameters |
| ApiServices.SearchParams | src/lib/api/services.js:137-140 | `q` is the query unless the extra parameters give their own `q`; every other parameter passes through |
| ApiServices.SettingsObject | src/lib/api/services.js:61-64 | the loop's result is the object built by assigning each setting in order |
| ApiServices.SetAllStep | src/lib/api/services.js:62-64 | one iteration of the loop assigns one more key |
| ApiServices.SettingsObjectGet | src/lib/api/services.js:59-66 | each key maps to the value of its last setting; keys never listed are absent |
| ApiServices.MissingResultsNotWrapped | src/lib/api/services.js:60-62 | a payload without `results` throws a bare TypeError, never one of the service's wrapped GET messages |
| ApiServices.GetAsObject | src/lib/api/services.js:59-66 | a failed fetch passes on the wrapped GET error; a payload without `results` throws the TypeError; otherwise every key maps to its last setting's value |
| ApiHooks.ResourceKey | src/lib/api/hooks.js:28 | the effective language, "en" when none is passed, reads back from the key under the hook's prefix |
| ApiHooks.KeyLang | src/lib/api/hooks.js:28 | a language read back from a key is what follows the hook's prefix and "-"; none exactly when the key does not start with them |
| ApiHooks.ResourceKeyRoundTrip | src/lib/api/hooks.js:28 | every key that reads back a language is that language's key, and every explicit language reads back from its key |
| ApiHooks.ResourceKeysDistinct | src/lib/api/hooks.js:26-380 | for "en" and "ar", different hooks or different languages never share a cache key |
| ApiHooks.PostKey | src/lib/api/hooks.js:306 | there is no key (no request) exactly when the slug is falsy; otherwise it is "post-<slug>-<lang>" |
| ApiHooks.SearchKey | src/lib/api/hooks.js:386 | there is no key exactly when the query is falsy; an empty option language falls back to "en" |
| ApiHooks.EmptyLanguageKeys | src/lib/api/hooks.js:28 | an explicit empty language keeps "" in resource keys but becomes "en" in search keys |
| ApiHooks.Options | src/lib/api/hooks.js:30-34 | every hook revalidates on reconnect; only news and posts revalidate on focus |
| ApiHooks.DedupingBounds | src/lib/api/hooks.js:33 | hooks that refresh on focus dedupe for at most a minute; every interval lies between 30 s and 5 min |
| ApiHooks.DashboardData | src/lib/api/hooks.js:404-422 | loading if any of the five sources loads; the error is absent exactly when all are, and settings' error comes first |
| ApiHooks.DashboardLoadingIsAny | src/lib/api/hooks.js:411-416 | the dashboard's loading flag is the generic any-loading of its sources |
| ApiHooks.DashboardErrorIsFirst | src/lib/api/hooks.js:417-422 | the dashboard's error is the first error in source order |
| Aggregate.AnyLoading | src/contexts/HomeContext.jsx:108-120 | true exactly when some flag is set |
| Aggregate.FirstError | src/contexts/HomeContext.jsx:123-135 | none exactly when there is no error; otherwise the earliest error |
| Aggregate.FirstErrorCons | src/contexts/HomeContext.jsx:123-135 | the or-chain: a leading error wins, otherwise the rest decides |
| Aggregate.AnyLoadingCons | src/contexts/HomeContext.jsx:108-120 | the or-chain unfolded one operand at a time |
| HomeContext.Normalise | src/contexts/HomeContext.jsx:138 | an array is used as is, a paged object gives its results, anything else gives [] |
| HomeContext.NormaliseIdempotent | src/contexts/HomeContext.jsx:138 | normalising an already normalised list changes nothing |
| HomeContext.SortFeeds | src/contexts/HomeContext.jsx:139-159 | each of the four arrays is sorted in place into exactly its stable sort by the source's comparator |
| HomeContext.ArticlesNewestFirst | src/contexts/HomeContext.jsx:139-147 | posts and news end newest first, are a permutation, and keep the order of equal dates |
| HomeContext.BoardAscending | src/contexts/HomeContext.jsx:151 | board members end by ascending `order`, are a permutation, and keep the order of equal ranks |
| HomeContext.SpeechesNewestFirst | src/contexts/HomeContext.jsx:157-159 | speeches end newest first, are a permutation, and keep the order of equal dates |
| HomeContext.IsLoading | src/contexts/HomeContext.jsx:108-120 | the provider is loading exactly when one of its hooks is |
| HomeContext.IsError | src/contexts/HomeContext.jsx:123-135 | no error exactly when no hook failed; otherwise the first failing hook's error |
| HomeContext.ScreenOf | src/contexts/HomeContext.jsx:250-257 | the loading screen if anything loads, else the error screen if anything failed, else the content |
| HomeContext.ScrollTarget | src/contexts/HomeContext.jsx:267-299 | 90 px above the element on the first or the retry lookup, else the bottom of the page |
| HomeContext.BlankIffAllSpace | src/contexts/HomeContext.jsx:261 | an href is ignored exactly when it is missing or only whitespace |
| HomeContext.SubmitToast | src/contexts/HomeContext.jsx:170-184 | the toast is the success toast exactly when the submission succeeded |
| HomeContext.FailureReason | src/contexts/HomeContext.jsx:177 | the server's message if it has one, else the fixed text; never empty |
| HomeContext.SubmitOutcome | src/contexts/HomeContext.jsx:165-190 | success exactly when the server answered with success; every failure carries a non-empty reason (the server's message, or the wrapped transport error) |
| HomeContext.HomeProvider.constructor | src/contexts/HomeContext.jsx:38-43 | the provider starts idle, with menu and search closed and an empty query |
| HomeContext.HomeProvider.SubmitContactForm | src/contexts/HomeContext.jsx:165-190 | sends the form without a language, reports the outcome and its toast, and always clears the submitting flag |
| HomeContext.HomeProvider.PerformSearch | src/contexts/HomeContext.jsx:193-211 | results end empty; a non-blank query ends not searching, and a blank one leaves the flag alone |
| HomeContext.HomeProvider.HandleSearchChange | src/contexts/HomeContext.jsx:214-221 | the query is stored, results are empty, and an idle provider stays idle |
| HomeContext.HomeProvider.ToggleMenu | src/contexts/HomeContext.jsx:224-226 | the menu flag flips |
| HomeContext.HomeProvider.ToggleSearch | src/contexts/HomeContext.jsx:229-235 | the search flag flips; opening it clears query and results, closing it keeps them |
| HomeContext.HomeProvider.CloseMenu | src/contexts/HomeContext.jsx:238-240 | the menu is closed |
| HomeContext.HomeProvider.CloseSearch | src/contexts/HomeContext.jsx:243-247 | search is closed with an empty query and no results |
| HomeContext.HomeProvider.ScrollToSection | src/contexts/HomeContext.jsx:260-302 | a blank href scrolls nowhere, any other scrolls to the target; the menu is closed either way |
| HomeContext.SubmissionLanguage | src/contexts/HomeContext.jsx:168 | every contact submission is sent with `lang` "en", and every other field unchanged |
| HomePage.CompanyName | src/app/page.js:75-78 | in Arabic the Arabic brand name, otherwise the English one, each only when set; else the translated fallback |
| HomePage.CompanyNameIgnoresOtherLanguage | src/app/page.js:75-78 | the other language's brand name never affects the name shown |
| HomePage.AnchorKey | src/app/page.js:467 | the company's key if set, else its id in decimal; never empty |
| HomePage.LinkTargetsSection | src/app/page.js:467 | each company link is "#" followed by the id of its section, so the link leads to it |
| HomePage.CompanyAnchors | src/app/page.js:467 | one link and one section id per company, in order; none without companies |
| HomePage.NatToStringInjective | src/app/page.js:501 | different ids give different numerals |
| HomePage.DistinctSections | src/app/page.js:501 | companies with different keys, or with no key and different ids, get different section ids |
| ContactForm.EmptyForm | src/components/ContactForm.jsx:10-15 | exactly the four fields, in order, all empty |
| AppContext.ConsumedKeysMissing | src/contexts/AppContext.jsx:17-38 | none of the fields the contact form, the home page and the mobile menu read is among the three the provider offers |
| ContactForm.EmailCheckSound | src/components/ContactForm.jsx:38 | the scan accepts only strings matching `^[^\s@]+@[^\s@]+\.[^\s@]+$` |
| ContactForm.EmailCheckComplete | src/components/ContactForm.jsx:38 | every string matching the pattern passes the scan |
| ContactForm.EmailCheckIsPattern | src/components/ContactForm.jsx:38-41 | the scan and the pattern agree on every string |
| ContactForm.ContactFormState.constructor | src/components/ContactForm.jsx:10-15 | the form starts empty |
| ContactForm.ContactFormState.HandleInputChange | src/components/ContactForm.jsx:17-22 | the named field takes the value; every other field is unchanged |
| ContactForm.ContactFormState.HandleSubmit | src/components/ContactForm.jsx:24-50 | wired to the home provider: nothing is sent exactly when a field is empty or the email is invalid, and then the submitting flag is untouched; the form is cleared exactly when the submission succeeded |
| ContactForm.SubmitAsWritten | src/components/ContactForm.jsx:8-50 | as wired to `AppContext`: stops exactly when a field is empty or the email is invalid, otherwise throws because `submitContactForm` is undefined; never sends |
| ContactForm.SubmitAsWrittenSendsNothing | src/components/ContactForm.jsx:8-50 | a complete, valid form still sends nothing as written: the submission throws |
| ContactForm.SampleEmailValid | src/components/ContactForm.jsx:38 | "a@b.co" passes the email check |
| ContactForm.ContactFormState.HandleSubmitAsWritten | src/components/ContactForm.jsx:8-50 | the wired handler stops or throws as above, and sends nothing |
| ThemeContext.SystemTheme | src/contexts/ThemeContext.jsx:22-25 | dark exactly when the system prefers dark |
| ThemeContext.InitialTheme | src/contexts/ThemeContext.jsx:27 | a non-empty stored theme wins, whatever it is; else the system's; never empty |
| ThemeContext.Toggled | src/contexts/ThemeContext.jsx:43-45 | the result is dark or light, and light exactly when the theme was dark |
| ThemeContext.ToggleTwice | src/contexts/ThemeContext.jsx:43-45 | two toggles restore dark or light; any other stored value becomes light |
| ThemeContext.ThemeProvider.constructor | src/contexts/ThemeContext.jsx:16-17 | dark and loading at first, consistently |
| ThemeContext.ThemeProvider.Initialize | src/contexts/ThemeContext.jsx:20-33 | the theme becomes the initial one, loading ends and the document shows it |
| ThemeContext.ThemeProvider.PersistTheme | src/contexts/ThemeContext.jsx:36-41 | while loading nothing is written; afterwards storage and document agree with the theme |
| ThemeContext.ThemeProvider.ToggleTheme | src/contexts/ThemeContext.jsx:43-45 | the theme is toggled |
| ThemeContext.ThemeProvider.Mount | src/contexts/ThemeContext.jsx:20-41 | after mounting, the stored or system theme is shown and stored |
| ThemeContext.ThemeProvider.ToggleAndPersist | src/contexts/ThemeContext.jsx:36-45 | a toggle after loading is stored and shown |
| LanguageSwitcher.Codes | src/components/LanguageSwitcher.jsx:10-13 | the switcher offers English then Arabic |
| LanguageSwitcher.I18n.ChangeLanguage | src/components/LanguageSwitcher.jsx:16 | the translation instance takes the new language |
| LanguageSwitcher.InitialLang | src/components/LanguageSwitcher.jsx:25 | a stored choice wins, then the instance's language, then Arabic |
| LanguageSwitcher.Switcher.constructor | src/components/LanguageSwitcher.jsx:8 | the first render shows Arabic |
| LanguageSwitcher.Switcher.ChangeLanguage | src/components/LanguageSwitcher.jsx:15-20 | instance, selection and stored choice all become the code |
| LanguageSwitcher.Switcher.Initialize | src/components/LanguageSwitcher.jsx:22-33 | selects the initial language; switches the instance only for a stored choice that differs |
| LanguageSwitcher.Switcher.OnLanguageChanged | src/components/LanguageSwitcher.jsx:36-46 | the selection follows the instance's language changes |
| LanguageSwitcher.InitAgreement | src/components/LanguageSwitcher.jsx:22-33 | after mounting, the switcher and the instance agree unless neither had a language |
| LanguageInitializer.LangOf | src/components/LanguageInitializer.jsx:12 | the instance's language, or Arabic when it is unset or empty |
| LanguageInitializer.DirOf | src/components/LanguageInitializer.jsx:13 | right-to-left exactly for Arabic |
| LanguageInitializer.Tokens | src/components/LanguageInitializer.jsx:19-20 | a class attribute's tokens are non-empty and free of whitespace |
| LanguageInitializer.TokensOfJoin | src/components/LanguageInitializer.jsx:19-20 | splitting a space-joined token list gives it back |
| LanguageInitializer.AddToken | src/components/LanguageInitializer.jsx:20 | `classList.add` keeps every token and includes the new one |
| LanguageInitializer.RemoveDirSubstrings | src/components/LanguageInitializer.jsx:19 | the global replace shortens the class by whole three-letter matches only |
| LanguageInitializer.RemoveDirSubstringsIdentity | src/components/LanguageInitializer.jsx:19 | a class holding neither "rtl" nor "ltr" anywhere is left as it is |
| LanguageInitializer.BodyClassAsWritten | src/components/LanguageInitializer.jsx:19-20 | as written: the direction is a token, the tokens are exactly the direction and the tokens left after the substring removal, without repeats |
| LanguageInitializer.AsWrittenManglesOtherClasses | src/components/LanguageInitializer.jsx:19 | as written, the body class "ultra" becomes "ua rtl": an unrelated class is destroyed |
| LanguageInitializer.KeptTokens | src/components/LanguageInitializer.jsx:19 | the body's own classes are distinct tokens, none of them a direction |
| LanguageInitializer.DirectionTokens | src/components/LanguageInitializer.jsx:19-20 | the intended class list: the kept classes followed by the direction, without repeats |
| LanguageInitializer.BodyClass | src/components/LanguageInitializer.jsx:19-20 | the new class attribute splits into exactly that list |
| LanguageInitializer.BodyClassReplacesDirection | src/components/LanguageInitializer.jsx:19-20 | the new body holds the direction, no other direction, and every other class it had |
| LanguageInitializer.BodyClassLastWins | src/components/LanguageInitializer.jsx:27 | updating twice is updating once with the later direction |
| LanguageInitializer.HtmlDocument.UpdateHtmlAttributes | src/components/LanguageInitializer.jsx:11-21 | sets `lang`, the matching `dir`, and the corrected body class (`BodyClass`) with that direction; the code as written is `BodyClassAsWritten` (see Findings) |
| Navigation.NavigationAnchors | src/components/Navigation.jsx:12-20 | seven anchors, each "#" followed by its key, all different |
| Navigation.Sections | src/components/Navigation.jsx:39 | the sections are the items' hrefs, in order |
| Navigation.FirstInView | src/components/Navigation.jsx:42-54 | the first section whose span holds the position, and none exactly when no span does |
| Navigation.ScrollTarget | src/components/Navigation.jsx:22-34 | a target exactly when the element exists, at the given offset above it |
| Navigation.DesktopNavigation.HandleScroll | src/components/Navigation.jsx:38-55 | the loop marks the first section in view, and keeps the old one when none is |
| Navigation.DesktopNavigation.ScrollToSection | src/components/Navigation.jsx:22-34 | scrolls 100 px above the element if found; the menu ends closed |
| Navigation.MobileNavigation.ScrollToSection | src/components/Navigation.jsx:94-106 | scrolls 50 px above the element if found; the menu ends closed |
| Navigation.ActiveSectionIsAnchor | src/components/Navigation.jsx:38-55 | the active section is always "" or an anchor, and is in view whenever some anchor is |
| MobileMenu.Anchor | src/components/MobileDynamicNavigation.jsx:42 | a missing href has no anchor; otherwise it is the href without its first "#" |
| MobileMenu.Group | src/components/MobileDynamicNavigation.jsx:39-59 | a group holds exactly the menu items whose anchor it lists |
| MobileMenu.GroupKeepsOrder | src/components/MobileDynamicNavigation.jsx:39-59 | grouping keeps the menu's order |
| MobileMenu.GroupOf | src/components/MobileDynamicNavigation.jsx:39-59 | each anchor is listed by at most one group, the one returned |
| MobileMenu.GroupsDisjoint | src/components/MobileDynamicNavigation.jsx:39-59 | no item falls in two groups |
| MobileMenu.UnlistedInNoGroup | src/components/MobileDynamicNavigation.jsx:39-59 | an item without a listed anchor is shown in no group |
| MobileMenu.ListedInOneGroup | src/components/MobileDynamicNavigation.jsx:39-59 | a listed menu item is shown in exactly one group |
| MobileMenu.MenuGroups | src/components/MobileDynamicNavigation.jsx:61-67 | five titled groups in the fixed order |
| MobileMenu.MobileView | src/components/MobileDynamicNavigation.jsx:18-118 | a spinner while loading, else the error, else the groups with a separator after every group but the last |
| MobileMenu.MobileViewAsWritten | src/components/MobileDynamicNavigation.jsx:8-59 | with an undefined menu, neither loading nor failed, the render throws on `menu.filter`; with a menu it renders what `MobileView` does |
| MobileMenu.MobileViewFromAppContext | src/components/MobileDynamicNavigation.jsx:8-59 | wired to `AppContext`, which provides no menu and no flags, the render throws; the same menu given directly renders the groups |
| MobileMenu.ClickItem | src/components/MobileDynamicNavigation.jsx:100-103 | with the corrected wiring (the home provider's `scrollToSection`, and its `closeMenu` in place of `setIsMenuOpen(false)`): scrolls through the provider, and the menu ends closed |
| Seo.StripTags | src/lib/seo.js:11 | the result keeps only characters of the input, holds no `<…>` tag, and text without tags is unchanged |
| Seo.StripTagsKeepsText | src/lib/seo.js:11 | text before the first `<` is kept as it is, and the rest is stripped on its own |
| Seo.StripTagsDropsTag | src/lib/seo.js:11 | a complete tag `<…>` is removed entirely, with nothing of it left |
| Seo.CleanText | src/lib/seo.js:11 | the cleaned text has no tag and neither starts nor ends with whitespace; text without tags is only trimmed |
| Seo.Truncate | src/lib/seo.js:17-23 | the result ends in "...", before which is a prefix of the text, cut at the last space within the limit when there is one |
| Seo.MetaDescription | src/lib/seo.js:8-24 | an empty input gives ""; a short clean text is returned whole; a long one is truncated at a word |
| Seo.SplitOnSpaces | src/lib/seo.js:45 | the pieces hold no whitespace and concatenate to the text without its whitespace |
| Seo.SplitOnSpacesJoin | src/lib/seo.js:45 | joining the pieces with single spaces gives the text with each whitespace run collapsed to one space, so the cuts fall exactly at the runs |
| Seo.Words | src/lib/seo.js:42-107 | every word is longer than three characters, not a stop word, and made of lower-case word characters |
| Seo.WordsComplete | src/lib/seo.js:42-107 | conversely, every such word standing between whitespace (or the ends) of the content is extracted |
| Seo.WordCountCounts | src/lib/seo.js:110-113 | each word maps to its number of occurrences, and other keys are absent |
| Seo.WordCount | src/lib/seo.js:110-113 | the object is well formed and its keys are exactly the words |
| Seo.WordCountKeys | src/lib/seo.js:110-113 | the keys are the distinct words in order of first occurrence |
| Seo.CountWords | src/lib/seo.js:110-113 | the loop computes exactly that count |
| Seo.Entries | src/lib/seo.js:116 | the entries follow the object's own-key order |
| Seo.CountKeysPermutation | src/lib/seo.js:116 | the entries' keys are the distinct words, each once |
| Seo.EntriesOfCount | src/lib/seo.js:116 | every entry pairs a distinct word with its count, one per distinct word |
| Seo.RankEntries | src/lib/seo.js:117 | sorting keeps those entries and orders them by descending count |
| Seo.Ranked | src/lib/seo.js:116-117 | the sorted entries are by descending count, a permutation of the object's entries, and entries of equal count keep their order |
| Seo.FirstWords | src/lib/seo.js:118-119 | the first ten entries' words, or all of them when there are fewer |
| Seo.TopKeywords | src/lib/seo.js:116-119 | min(keys, 10) of the object's keys, by non-increasing count |
| Seo.FirstWordsByFrequency | src/lib/seo.js:118-119 | the first ten words are distinct words of the content, by descending count, and no word left out occurs more often than one kept |
| Seo.TopKeywordsByFrequency | src/lib/seo.js:116-119 | the top keywords are min(distinct words, 10) of the most frequent words, most frequent first |
| Seo.GenerateKeywords | src/lib/seo.js:27-122 | without content: defaults then extras; with content: defaults, the top words, then extras |
| Seo.ExtractedKeywords | src/lib/seo.js:42-119 | every extracted keyword is a lower-case, long-enough non-stop word |
| Seo.LengthErrors | src/lib/seo.js:216-232 | the too-short error exactly when the field is missing or short; too-long exactly when it is present and long |
| Seo.ValidateSeoData | src/lib/seo.js:213-242 | valid exactly when there is no error; the errors come in check order, at most three |
| Seo.ValidationReports | src/lib/seo.js:216-236 | each of the five errors is reported exactly under its condition |
| Seo.DropSlash | src/lib/seo.js:246 | removes one leading slash if there is one, and nothing else |
| Seo.CanonicalUrl | src/lib/seo.js:245-248 | the base, then the path with exactly one leading slash |
| Seo.HreflangTags | src/lib/seo.js:251-259 | en, ar and x-default, in order; x-default repeats en, and ar sits under /ar |
| Seo.BreadcrumbItems | src/lib/seo.js:195-205 | one item per crumb, numbered from 1, each linking under the base URL |
| SeoAudit.CheckTitle | src/components/SEOAudit.jsx:34-44 | valid exactly for a length of 30 to 60; a missing title counts as "" and is never valid |
| SeoAudit.CheckMetaDescription | src/components/SEOAudit.jsx:46-56 | valid exactly for content of 120 to 160 characters, which requires the tag and its content |
| SeoAudit.CheckHeadings | src/components/SEOAudit.jsx:58-70 | valid exactly for one non-empty h1 |
| SeoAudit.CheckImages | src/components/SEOAudit.jsx:72-82 | counts add up; valid exactly when every image has alt text, so no images is valid |
| SeoAudit.CheckLinks | src/components/SEOAudit.jsx:84-99 | internal and external links add up to the total; internal links exist exactly when one starts with the origin |
| SeoAudit.CheckAccessibility | src/components/SEOAudit.jsx:121-133 | images are accessible exactly when all have alt text |
| SeoAudit.CheckMobile | src/components/SEOAudit.jsx:135-147 | valid exactly when a viewport tag exists and its content includes "width=device-width" |
| SeoAudit.CheckStructuredData | src/components/SEOAudit.jsx:149-158 | present exactly when there is at least one JSON-LD script |
| SeoAudit.Audit | src/components/SEOAudit.jsx:72-133 | the accessibility and image checks agree on alt text, and a page without images is valid |
| SeoAudit.TitlePoints | src/components/SEOAudit.jsx:279-282 | at most 20, and full marks exactly for a present, valid title |
| SeoAudit.MetaPoints | src/components/SEOAudit.jsx:284-288 | at most 20, and full marks exactly for a present, valid description |
| SeoAudit.HeadingsPoints | src/components/SEOAudit.jsx:290-293 | at most 15, and full marks exactly for valid headings |
| SeoAudit.ImagesPoints | src/components/SEOAudit.jsx:295-299 | between 5 and 15, and full marks exactly for valid images or none |
| SeoAudit.MobilePoints | src/components/SEOAudit.jsx:301-304 | at most 15, and full marks exactly when the mobile check is valid |
| SeoAudit.AccessibilityPoints | src/components/SEOAudit.jsx:306-310 | at most 10, and full marks exactly with a lang attribute and accessible images |
| SeoAudit.StructuredDataPoints | src/components/SEOAudit.jsx:312-314 | 5 exactly with structured data, else 0 |
| SeoAudit.RoundPercent | src/components/SEOAudit.jsx:316 | the percentage rounded to the nearest integer, halves up |
| SeoAudit.RoundPercentOfHundred | src/components/SEOAudit.jsx:316 | out of a total of 100 the percentage is the score itself |
| SeoAudit.OverallScore | src/components/SEOAudit.jsx:275-317 | the running sums give exactly the score's percentage |
| SeoAudit.Score | src/components/SEOAudit.jsx:275-317 | every score lies between 5 and 100 |
| SeoAudit.ScorePerfect | src/components/SEOAudit.jsx:275-317 | 100 exactly when every check earns full marks |
| SeoAudit.ImagesEmptyBranchUnreachable | src/components/SEOAudit.jsx:298 | the "no images" branch of the score never decides anything, because no images is already valid |
| SeoAudit.PerfectDocument | src/components/SEOAudit.jsx:14-24 | a page scores 100 exactly when it meets every requirement, stated on the document itself |
| SeoAudit.ColorOf | src/components/SEOAudit.jsx:198-203 | green from 80, yellow from 60 to 79, red below 60 |
| SeoHead.FullTitle | src/components/SEOHead.jsx:19-21 | a given title gets the site suffix; otherwise the fixed bilingual title |
| SeoHead.FullTitleInjective | src/components/SEOHead.jsx:19-21 | a given title never renders as the default, and different titles render differently |
| SeoHead.FullDescription | src/components/SEOHead.jsx:22-24 | the given description, or the fixed one; never empty |
| SeoHead.FullUrl | src/components/SEOHead.jsx:25-27 | the site URL followed by the given path, or the site URL alone |
| SeoHead.FullUrlPath | src/components/SEOHead.jsx:25-27 | every URL is under the site, and what follows the site is exactly the given path |
| SeoHead.AllKeywords | src/components/SEOHead.jsx:29-42 | the keywords are the defaults, followed by the page's own, comma-separated |
| SeoHead.Locale | src/components/SEOHead.jsx:68 | ar_SA exactly for Arabic, en_US otherwise |
| SeoHead.Render | src/components/SEOHead.jsx:6-76 | Open Graph and Twitter tags repeat the title, description, canonical URL and image; the image and type defaults apply only when absent |
| Sitemap.EntriesOrder | src/app/api/sitemap/route.js:115-132 | 32 entries: every page in English then Arabic, in page order |
| Sitemap.EntryFor | src/app/api/sitemap/route.js:119-127 | the page's date, frequency and priority are copied; three alternates with x-default equal to en; the English entry sits at its en alternate |
| Sitemap.EntryLoc | src/app/api/sitemap/route.js:119-121 | English at the page's path, Arabic under /ar; the home page's English entry is the bare site URL |
| Sitemap.EntryAlternates | src/app/api/sitemap/route.js:125-127 | both entries of a page list the same three alternates, x-default repeats en, and each entry's own URL is its language's alternate |
| Sitemap.SameLastmod | src/app/api/sitemap/route.js:5 | every entry carries the generation time |
| Sitemap.UrlXml | src/app/api/sitemap/route.js:120-128 | each block opens with `<url>` and the entry's `<loc>`, and closes with `</url>` |
| Sitemap.SitemapXml | src/app/api/sitemap/route.js:111-133 | the document starts with the XML declaration and `<urlset …>`, and ends with `</urlset>` |
| Sitemap.SitemapIsEntries | src/app/api/sitemap/route.js:111-133 | the document is the header, the 32 entry blocks joined by newlines, and the footer |
| Sitemap.Get | src/app/api/sitemap/route.js:135-140 | the response body is the sitemap, served as XML and cached for a day |
| JsObject.Get | src/lib/api/services.js:63 | a property is absent exactly when its key is not among the object's keys |
| JsObject.Set | src/lib/api/services.js:63 | the key takes the value; other keys keep theirs; a new key is appended to the key order |
| JsObject.SetAllGet | src/lib/api/services.js:62-64 | after assigning a list of properties, each key holds its last assigned value |
| JsObject.AssignGet | src/lib/api/services.js:134 | in a spread, the later object's properties win |
| JsObject.OwnKeysPermutation | src/lib/seo.js:116 | `Object.entries` lists every key once |
| JsObject.OwnKeysOrdered | src/lib/seo.js:116 | integer-like keys come first in ascending order, then the others in insertion order |
| Sorting.SortByOrderedPermutation | src/contexts/HomeContext.jsx:139-159 | the sort's result is ordered by rank and a permutation of its input |
| Sorting.SortByStable | src/contexts/HomeContext.jsx:139-159 | elements of equal rank keep their order |
| Sorting.SortBySortedIsIdentity | src/contexts/HomeContext.jsx:139-159 | an already sorted array is left as it is |
| Sorting.SortInPlace | src/contexts/HomeContext.jsx:139-159 | the in-place insertion sort leaves exactly the stable sort of the original contents |
| Strings.Trim | src/contexts/HomeContext.jsx:194 | the result is no longer than the input and neither starts nor ends with whitespace |
| Strings.TrimSlice | src/contexts/HomeContext.jsx:194 | the result is a slice of the input, and everything cut before and after it is whitespace |
| Strings.TrimEmptyIffAllSpace | src/contexts/HomeContext.jsx:216 | `trim()` is empty exactly when the text is all whitespace |
| Strings.Includes | src/components/SEOAudit.jsx:140 | `includes` is true exactly when the text occurs |
| Strings.LastIndexOf | src/lib/seo.js:19 | the last position of the character, or -1 |
| Strings.ToLower | src/lib/seo.js:43 | same length, no upper-case letter left, and only upper-case letters change |
| Strings.RemoveFirst | src/components/MobileDynamicNavigation.jsx:42 | `replace("#", "")` removes the first "#" only, if there is one |
| Strings.NatToStringValue | src/app/page.js:467 | the numeral reads back as the number, with no leading zero |
| Strings.JoinAppend | src/app/api/sitemap/route.js:130-132 | joining two non-empty lists is joining each and separating them once |
| Lists.Filter | src/lib/seo.js:46-107 | an element is kept exactly when it is in the input and passes |
| Lists.Distinct | src/lib/seo.js:110-113 | the distinct elements in order of first occurrence |
| Lists.DistinctOrder | src/lib/seo.js:110-113 | the distinct elements come in the order of their first occurrence in the input |

## Left out

- Strings are sequences of characters: lengths are not counted in UTF-16 code units. `toLowerCase` is modelled for ASCII letters only; `\s` and `trim()` use the full JavaScript whitespace set, and `\w` is ASCII as in JavaScript.
- Object keys that collide with `Object.prototype` properties (`__proto__`, `constructor`) are not modelled.
- Dates are modelled as integer timestamps. `new Date(...)` parsing and the subtraction of two Dates are not modelled.
- SeoAudit.RoundPercent: models `Math.round(score / total * 100)` with integers. The floating-point division is not modelled. The score is exact here because the points total 100.
- Timers, `window.scrollTo` with smooth behaviour, DOM queries and event listeners are parameters or explicit calls. `querySelector` throwing on an invalid selector is not modelled.
- The performance part of the audit (`SEOAudit.jsx`, 101-119) is left out because it reads browser timing.
- SWR caching, revalidation timing, deduplication and axios interceptors are not modelled. Only each hook's key and options are.
- Services not listed in the model are identical `getAll`/`getById` pairs; they are covered by the `Resource` datatype. The investors endpoint is configured but has no service.
- `generateOpenGraphData` and the organization, website and article branches of `generateStructuredData` (`lib/seo.js`) are left out. They build fixed objects from their input without logic. Only the breadcrumb branch is modelled.
- `SEOHead`'s structured-data script, robots tag and other fixed tags are left out; the constant tags are not modelled.
- A truthy non-array `results` field in a paged payload is not modelled.
- HomeContext.HomeProvider.SubmitContactForm: the submitting flag is true while the request is in flight. That intermediate state is not observable in a model with no concurrency, so only its final value is stated. The form's button is disabled by the same flag (`ContactForm.jsx`, 154; `page.js`, 836).
- HomeContext.HomeProvider.PerformSearch: the search is a stub that always yields no results. The model keeps that stub and does not call the search service.
- `ContactForm.jsx` (8), `app/page.js` (13-29) and `MobileDynamicNavigation.jsx` (8-16) read fields that `AppContext` does not provide, so as written they are undefined (see Findings). Elsewhere the model wires these components to `HomeContext.HomeProvider`, as the corrected behaviour. That provider does not supply everything either: it has no `setIsMenuOpen` and no `activeSection` (`HomeContext.jsx`, 304-343), so the corrected click handler uses its `closeMenu`. The page's other fields (hero, about and the rest) are likewise undefined as written; the page's rendering is not modelled.
- The `languageChanged` event wiring is modelled as explicit calls to `OnLanguageChanged` and `UpdateHtmlAttributes`.
- HomePage.AnchorKey: a company whose id is `null` renders "null"; that case is not modelled.
- MobileMenu.ClickItem: the highlight of the active item (`activeSection === item.href`, `MobileDynamicNavigation.jsx`, 105) is not modelled; no provider supplies `activeSection`, so it never holds. Under the home provider as written, the handler's `setIsMenuOpen(false)` would throw after the scroll and the menu close have happened; the model calls `closeMenu` instead.
- HomeContext.BoardAscending: a board member without a numeric `order` makes the comparator return NaN, which leaves the sort order implementation-defined; orders are modelled as integers.
- Code and documentation differ in several places; the model follows the code:
  - only posts, news, board and speeches are sorted;
  - the menu is not merged with any other source, and nothing is retried or guarded while in flight;
  - contact submissions always send `lang` "en", because `submitContactForm` passes no language;
  - `lib/seo.js` uses the base URL of `lib/constants.js`, "https://neomsyria.com", while the sitemap and `SEOHead` use "https://neomholding.com".
- The home page's own contact form (`app/page.js`, 30-70) has the same state and rules as `ContactForm.jsx` and is modelled by `ContactForm.ContactFormState`.

## Findings

| source | as written | input that shows it | evidently intended | confidence | as-written member | corrected member |
|---|---|---|---|---|---|---|
| src/lib/api/services.js:83-84 | `kpisService.getById` reads `API_ENDPOINTS.KPIS`, which `config.js` does not define, so the path is "undefined<id>/" (`getAll` passes an undefined URL, so the client requests its base URL; that case is not modelled) | `kpisService.getById("7")` requests "undefined7/" | a "/kpis/" endpoint like every other resource's | not executed | ApiServices.KpisByIdPathAsWritten | ApiServices.Endpoint |
| src/components/LanguageInitializer.jsx:19 | the global replace of the pattern "rtl" or "ltr" by "" deletes those letters inside any class name, not only the direction classes | body class "ultra" with Arabic selected becomes "ua rtl" | remove only the tokens "rtl" and "ltr", then add the direction | not executed | LanguageInitializer.AsWrittenManglesOtherClasses | LanguageInitializer.BodyClass |
| src/components/ContactForm.jsx:8 | the form takes `submitContactForm` and `isSubmittingContact` from `AppContext`, which provides only the settings, so a valid submission calls undefined and throws; nothing is sent and the form keeps its data (`app/page.js`, 27-29 and 64, likewise) | name "a", email "a@b.co", subject "s", message "m" | take them from the home provider, which defines them | not executed | ContactForm.SubmitAsWrittenSendsNothing | ContactForm.ContactFormState.HandleSubmit |
| src/components/MobileDynamicNavigation.jsx:8-16 | the menu, its flags and handlers come from `AppContext`, which provides none of them, so the render reaches `menu.filter` with `menu` undefined and throws | any render inside `AppProvider` | take them from the home provider, which defines `menu`, `isLoading`, `isError` and `scrollToSection`; it offers neither `setIsMenuOpen` (use its `closeMenu`) nor `activeSection` | not executed | MobileMenu.MobileViewFromAppContext | MobileMenu.MobileView |
