/** The data hooks of `lib/api/hooks.js`: the cache key and the options each
    hook hands to SWR, and the reduction `useDashboardData` makes over five of
    them. SWR itself (caching, de-duplication, revalidation) is outside the
    model; a hook's outcome is a `HookState` parameter. */
module ApiHooks {
  import opened Wrappers
  import Aggregate

  /** One hook per resource, plus the post-by-slug and search hooks. */
  datatype Hook =
    | Settings | SettingsObject | Menu | Sections | Hero | About | StrategyBlocks
    | Companies | Board | Speeches | Gov | Esg | News | Posts | PostBySlug
    | Pages | Legal | Contact | Search

  /** The hooks whose key is `<resource>-<lang>`. */
  predicate IsResourceHook(h: Hook) {
    h !in {PostBySlug, Search}
  }

  /** The resource part of a resource hook's key. */
  function KeyPrefix(h: Hook): string
    requires IsResourceHook(h)
  {
    match h
    case Settings => "settings"
    case SettingsObject => "settings-object"
    case Menu => "menu"
    case Sections => "sections"
    case Hero => "hero"
    case About => "about"
    case StrategyBlocks => "strategy-blocks"
    case Companies => "companies"
    case Board => "board"
    case Speeches => "speeches"
    case Gov => "gov"
    case Esg => "esg"
    case News => "news"
    case Posts => "posts"
    case Pages => "pages"
    case Legal => "legal"
    case Contact => "contact"
  }

  /** The `lang = "en"` default parameter: it applies only to an omitted
      argument (`None`). */
  function Lang(lang: Option<string>): string {
    lang.GetOr("en")
  }

  /** The cache key `<resource>-<lang>`: the effective language reads back
      from it. */
  function ResourceKey(h: Hook, lang: Option<string>): (key: string)
    requires IsResourceHook(h)
    ensures KeyLang(h, key) == Some(Lang(lang))
  {
    var key := KeyPrefix(h) + "-" + Lang(lang);
    assert key[..|KeyPrefix(h)| + 1] == KeyPrefix(h) + "-";
    assert key[|KeyPrefix(h)| + 1..] == Lang(lang);
    key
  }

  /** The language a key of hook `h` was made for: what follows the hook's
      prefix and "-", or none when the key does not start with them. */
  function KeyLang(h: Hook, key: string): (lang: Option<string>)
    requires IsResourceHook(h)
    ensures lang.Some? ==> key == KeyPrefix(h) + "-" + lang.value
    ensures lang.None? <==> !(KeyPrefix(h) + "-" <= key)
  {
    var p := KeyPrefix(h) + "-";
    if p <= key then
      assert key == p + key[|p|..];
      Some(key[|p|..])
    else None
  }

  /** Every key of a resource hook is the key of the language it reads back,
      so keys and explicit languages correspond one to one. */
  lemma ResourceKeyRoundTrip(h: Hook, key: string, l: string)
    requires IsResourceHook(h)
    ensures KeyLang(h, key).Some? ==> ResourceKey(h, KeyLang(h, key)) == key
    ensures KeyLang(h, ResourceKey(h, Some(l))) == Some(l)
  {
  }

  /** With the site's two languages, different hooks or languages never
      share a cache entry. */
  lemma ResourceKeysDistinct(h: Hook, l: string, g: Hook, m: string)
    requires IsResourceHook(h) && IsResourceHook(g)
    requires l in {"en", "ar"} && m in {"en", "ar"}
    requires ResourceKey(h, Some(l)) == ResourceKey(g, Some(m))
    ensures h == g && l == m
  {
    var key := ResourceKey(h, Some(l));
    var n := |key|;
    assert key[n - 2..] == l;
    assert ResourceKey(g, Some(m))[n - 2..] == m;
    assert KeyPrefix(h) == key[..n - 3] == KeyPrefix(g);
  }

  /** `usePostBySlug`'s key: none (no request) for a falsy slug. */
  function PostKey(slug: Option<string>, lang: Option<string>): (key: Option<string>)
    ensures key.None? <==> !Truthy(slug)
    ensures key.Some? ==> key.value == "post-" + slug.value + "-" + Lang(lang)
  {
    if Truthy(slug) then Some("post-" + slug.value + "-" + Lang(lang)) else None
  }

  /** `useSearch`'s key: none for a falsy query; otherwise the query and
      `options.lang || "en"`, where any falsy language becomes "en". */
  function SearchKey(query: Option<string>, optionsLang: Option<string>): (key: Option<string>)
    ensures key.None? <==> !Truthy(query)
    ensures key.Some? ==> key.value == "search-" + query.value + "-"
                                       + (if Truthy(optionsLang) then optionsLang.value else "en")
  {
    if Truthy(query) then
      Some("search-" + query.value + "-" + (if Truthy(optionsLang) then optionsLang.value else "en"))
    else None
  }

  /** An empty language falls back to "en" in a search key but not in a
      resource key, which keeps it verbatim. */
  lemma EmptyLanguageKeys(query: string)
    requires query != ""
    ensures SearchKey(Some(query), Some("")) == Some("search-" + query + "-en")
    ensures ResourceKey(Settings, Some("")) == "settings-"
  {
    assert "search-" + query + "-" + "en" == "search-" + query + "-en";
  }

  /** The options object passed to SWR. */
  datatype SwrOptions = SwrOptions(revalidateOnFocus: bool, revalidateOnReconnect: bool, dedupingInterval: nat)

  /** Each hook's options. */
  function Options(h: Hook): (o: SwrOptions)
    ensures o.revalidateOnReconnect
    ensures o.revalidateOnFocus <==> h in {News, Posts}
    ensures o.dedupingInterval ==
      if h in {Settings, SettingsObject, News, Posts} then 60000
      else if h == Search then 30000
      else 300000
  {
    match h
    case Settings => SwrOptions(false, true, 60000)
    case SettingsObject => SwrOptions(false, true, 60000)
    case News => SwrOptions(true, true, 60000)
    case Posts => SwrOptions(true, true, 60000)
    case Search => SwrOptions(false, true, 30000)
    case _ => SwrOptions(false, true, 300000)
  }

  /** Data that changes often is revalidated sooner: the hooks that
      revalidate on focus never wait longer than a minute between requests,
      and no hook waits longer than five. */
  lemma DedupingBounds(h: Hook)
    ensures Options(h).revalidateOnFocus ==> Options(h).dedupingInterval <= 60000
    ensures 30000 <= Options(h).dedupingInterval <= 300000
  {
  }

  /** What SWR reports for one hook. */
  datatype HookState<T, E> = HookState(data: Option<T>, isLoading: bool, isError: Option<E>)

  datatype Dashboard<T, E> = Dashboard(
    settings: Option<T>, hero: Option<T>, companies: Option<T>, board: Option<T>, esg: Option<T>,
    isLoading: bool, isError: Option<E>)

  /** `a || b` on error values (`None` is `undefined`). */
  function Or<E>(a: Option<E>, b: Option<E>): Option<E> {
    if a.Some? then a else b
  }

  /** `useDashboardData`: the five hooks' data, loading while any of them
      is, and failed with the first error in the order settings, hero,
      companies, board, esg. */
  function DashboardData<T, E>(settings: HookState<T, E>, hero: HookState<T, E>,
                               companies: HookState<T, E>, board: HookState<T, E>,
                               esg: HookState<T, E>): (d: Dashboard<T, E>)
    ensures d.isLoading <==> settings.isLoading || hero.isLoading || companies.isLoading
                             || board.isLoading || esg.isLoading
    ensures d.isError.None? <==> settings.isError.None? && hero.isError.None?
                                 && companies.isError.None? && board.isError.None?
                                 && esg.isError.None?
    ensures settings.isError.Some? ==> d.isError == settings.isError
    ensures d.isError.Some? ==> d.isError in {settings.isError, hero.isError, companies.isError,
                                               board.isError, esg.isError}
  {
    Dashboard(settings.data, hero.data, companies.data, board.data, esg.data,
      settings.isLoading || hero.isLoading || companies.isLoading || board.isLoading || esg.isLoading,
      Or(settings.isError, Or(hero.isError, Or(companies.isError, Or(board.isError, esg.isError)))))
  }

  /** The dashboard's loading flag is the site's general reduction over the
      five hooks' flags: any flag set. */
  lemma DashboardLoadingIsAny<T, E>(settings: HookState<T, E>, hero: HookState<T, E>,
                                    companies: HookState<T, E>, board: HookState<T, E>,
                                    esg: HookState<T, E>)
    ensures DashboardData(settings, hero, companies, board, esg).isLoading
         == Aggregate.AnyLoading([settings.isLoading, hero.isLoading, companies.isLoading,
                                  board.isLoading, esg.isLoading])
  {
    var t4: seq<bool> := [esg.isLoading];
    var t3 := [board.isLoading] + t4;
    var t2 := [companies.isLoading] + t3;
    var t1 := [hero.isLoading] + t2;
    Aggregate.AnyLoadingCons(esg.isLoading, []);
    assert t4 == [esg.isLoading] + [];
    Aggregate.AnyLoadingCons(board.isLoading, t4);
    Aggregate.AnyLoadingCons(companies.isLoading, t3);
    Aggregate.AnyLoadingCons(hero.isLoading, t2);
    Aggregate.AnyLoadingCons(settings.isLoading, t1);
    assert [settings.isLoading] + t1 == [settings.isLoading, hero.isLoading, companies.isLoading,
                                         board.isLoading, esg.isLoading];
  }

  /** The dashboard's error is the site's general reduction over the five
      hooks' errors, in the order settings, hero, companies, board, esg: the
      first error present. */
  lemma DashboardErrorIsFirst<T, E>(settings: HookState<T, E>, hero: HookState<T, E>,
                                        companies: HookState<T, E>, board: HookState<T, E>,
                                        esg: HookState<T, E>)
    ensures DashboardData(settings, hero, companies, board, esg).isError
         == Aggregate.FirstError([settings.isError, hero.isError, companies.isError,
                                  board.isError, esg.isError])
  {
    var t4: seq<Option<E>> := [esg.isError];
    var t3 := [board.isError] + t4;
    var t2 := [companies.isError] + t3;
    var t1 := [hero.isError] + t2;
    Aggregate.FirstErrorCons(esg.isError, []);
    assert t4 == [esg.isError] + [];
    Aggregate.FirstErrorCons(board.isError, t4);
    Aggregate.FirstErrorCons(companies.isError, t3);
    Aggregate.FirstErrorCons(hero.isError, t2);
    Aggregate.FirstErrorCons(settings.isError, t1);
    assert [settings.isError] + t1 == [settings.isError, hero.isError, companies.isError,
                                       board.isError, esg.isError];
  }
}
