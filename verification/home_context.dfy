/** The home page's provider (`contexts/HomeContext.jsx`): the list payloads
    of its twelve data hooks are normalised and four of them sorted in place;
    the loading and error states are reduced into the screen to show; and a
    small piece of UI state (menu, search, contact submission) is updated by
    the provider's functions. Timers and the DOM are outside the model:
    element lookups are offsets passed in, and the scroll a function asks for
    is its result. */
module HomeContext {
  import opened Wrappers
  import opened Strings
  import Sorting
  import Aggregate
  import JsObject
  import ApiServices
  import ApiHooks

  // ---------------------------------------------------------------------
  // Normalising and sorting the lists

  /** What a list hook delivers: nothing yet, a bare array, or a paginated
      object whose `results` may be missing. */
  datatype Payload<T> = Missing | Items(items: seq<T>) | Paged(results: Option<seq<T>>)

  /** `Array.isArray(p) ? p : p?.results || []`. */
  function Normalise<T>(p: Payload<T>): (r: seq<T>)
    ensures p.Items? ==> r == p.items
    ensures p.Paged? && p.results.Some? ==> r == p.results.value
    ensures p.Missing? || p == Paged(None) ==> r == []
  {
    match p
    case Missing => []
    case Items(items) => items
    case Paged(results) => results.GetOr([])
  }

  /** Normalising what normalising produced changes nothing. */
  lemma NormaliseIdempotent<T>(p: Payload<T>)
    ensures Normalise(Items(Normalise(p))) == Normalise(p)
  {
  }

  /** Posts and news carry a publication time, board members an order,
      speeches a date. Times are integers (milliseconds). */
  datatype Article = Article(id: nat, datePublished: int)
  datatype BoardMember = BoardMember(id: nat, order: int)
  datatype Speech = Speech(id: nat, date: int)

  /** The comparators `(a, b) => b.date_published - a.date_published`,
      `(a, b) => a.order - b.order` and `(a, b) => b.date - a.date`, as the
      ascending rank each orders by. */
  function NewestArticleFirst(a: Article): int { -a.datePublished }
  function BoardOrder(m: BoardMember): int { m.order }
  function NewestSpeechFirst(s: Speech): int { -s.date }

  /** Sorts the posts, news, board and speeches lists in place (the lists
      the hooks returned, once normalised). */
  method SortFeeds(posts: array<Article>, news: array<Article>,
                   board: array<BoardMember>, speeches: array<Speech>)
    requires posts != news
    modifies posts, news, board, speeches
    ensures posts[..] == Sorting.SortBy(old(posts[..]), NewestArticleFirst)
    ensures news[..] == Sorting.SortBy(old(news[..]), NewestArticleFirst)
    ensures board[..] == Sorting.SortBy(old(board[..]), BoardOrder)
    ensures speeches[..] == Sorting.SortBy(old(speeches[..]), NewestSpeechFirst)
  {
    Sorting.SortInPlace(posts, NewestArticleFirst);
    Sorting.SortInPlace(news, NewestArticleFirst);
    Sorting.SortInPlace(board, BoardOrder);
    Sorting.SortInPlace(speeches, NewestSpeechFirst);
  }

  /** Posts and news come out newest first, as a permutation of the input,
      with articles published at the same time kept in their input order. */
  lemma ArticlesNewestFirst(s: seq<Article>, t: int)
    ensures var r := Sorting.SortBy(s, NewestArticleFirst);
      (forall i, j :: 0 <= i < j < |r| ==> r[i].datePublished >= r[j].datePublished)
      && multiset(r) == multiset(s)
      && Sorting.WithRank(r, NewestArticleFirst, -t) == Sorting.WithRank(s, NewestArticleFirst, -t)
  {
    Sorting.SortByOrderedPermutation(s, NewestArticleFirst);
    Sorting.SortByStable(s, NewestArticleFirst, -t);
    var r := Sorting.SortBy(s, NewestArticleFirst);
    forall i, j | 0 <= i < j < |r| ensures r[i].datePublished >= r[j].datePublished {
      assert NewestArticleFirst(r[i]) <= NewestArticleFirst(r[j]);
    }
  }

  /** The board comes out in ascending `order`, as a permutation of the
      input, with equal orders kept in their input order. */
  lemma BoardAscending(s: seq<BoardMember>, k: int)
    ensures var r := Sorting.SortBy(s, BoardOrder);
      (forall i, j :: 0 <= i < j < |r| ==> r[i].order <= r[j].order)
      && multiset(r) == multiset(s)
      && Sorting.WithRank(r, BoardOrder, k) == Sorting.WithRank(s, BoardOrder, k)
  {
    Sorting.SortByOrderedPermutation(s, BoardOrder);
    Sorting.SortByStable(s, BoardOrder, k);
  }

  /** Speeches come out newest first, as a permutation of the input. */
  lemma SpeechesNewestFirst(s: seq<Speech>, t: int)
    ensures var r := Sorting.SortBy(s, NewestSpeechFirst);
      (forall i, j :: 0 <= i < j < |r| ==> r[i].date >= r[j].date)
      && multiset(r) == multiset(s)
      && Sorting.WithRank(r, NewestSpeechFirst, -t) == Sorting.WithRank(s, NewestSpeechFirst, -t)
  {
    Sorting.SortByOrderedPermutation(s, NewestSpeechFirst);
    Sorting.SortByStable(s, NewestSpeechFirst, -t);
    var r := Sorting.SortBy(s, NewestSpeechFirst);
    forall i, j | 0 <= i < j < |r| ensures r[i].date >= r[j].date {
      assert NewestSpeechFirst(r[i]) <= NewestSpeechFirst(r[j]);
    }
  }

  // ---------------------------------------------------------------------
  // Loading and error states

  /** `menuLoading || heroLoading || ...` over the hooks' states. The
      provider passes its twelve hooks in the order of its `||` chains:
      menu, hero, about, strategy blocks, companies, board, speeches, gov,
      esg, news, posts, pages. */
  function IsLoading<T, E>(states: seq<ApiHooks.HookState<T, E>>): (r: bool)
    ensures r <==> exists i :: 0 <= i < |states| && states[i].isLoading
  {
    var flags := seq(|states|, i requires 0 <= i < |states| => states[i].isLoading);
    assert forall i :: 0 <= i < |states| ==> flags[i] == states[i].isLoading;
    Aggregate.AnyLoading(flags)
  }

  /** `menuError || heroError || ...`: the first error present. */
  function IsError<T, E(==)>(states: seq<ApiHooks.HookState<T, E>>): (r: Option<E>)
    ensures r.None? <==> forall i :: 0 <= i < |states| ==> states[i].isError.None?
    ensures r.Some? ==> exists i :: 0 <= i < |states| && states[i].isError == r
                          && forall j :: 0 <= j < i ==> states[j].isError.None?
  {
    var errors := seq(|states|, i requires 0 <= i < |states| => states[i].isError);
    assert forall i :: 0 <= i < |states| ==> errors[i] == states[i].isError;
    Aggregate.FirstError(errors)
  }

  datatype Screen = LoadingScreen | ErrorScreen | Content

  /** The screen the provider renders: loading while any hook loads, even
      when another has already failed; the error screen once nothing loads
      and some hook failed; the page otherwise. */
  function ScreenOf<T, E(==)>(states: seq<ApiHooks.HookState<T, E>>): (s: Screen)
    ensures s == LoadingScreen <==> exists i :: 0 <= i < |states| && states[i].isLoading
    ensures s == ErrorScreen <==> (forall i :: 0 <= i < |states| ==> !states[i].isLoading)
                                  && exists i :: 0 <= i < |states| && states[i].isError.Some?
    ensures s == Content <==> forall i :: 0 <= i < |states| ==>
                                !states[i].isLoading && states[i].isError.None?
  {
    if IsLoading(states) then LoadingScreen
    else if IsError(states).Some? then ErrorScreen
    else Content
  }

  // ---------------------------------------------------------------------
  // Scrolling

  /** Where `scrollToSection` scrolls for a non-blank `href`: 90 pixels above
      the element when the first lookup finds it, else when the retry finds
      it, else to the bottom of the document. */
  function ScrollTarget(first: Option<int>, retry: Option<int>, scrollHeight: int): (top: int)
    ensures first.Some? ==> top == first.value - 90
    ensures first.None? && retry.Some? ==> top == retry.value - 90
    ensures first.None? && retry.None? ==> top == scrollHeight
  {
    if first.Some? then first.value - 90
    else if retry.Some? then retry.value - 90
    else scrollHeight
  }

  /** `!href || href.trim() === ""`: missing, or of whitespace only. */
  predicate Blank(href: Option<string>) {
    href.None? || Trim(href.value) == ""
  }

  /** Blank means missing or made of whitespace only. */
  lemma BlankIffAllSpace(href: Option<string>)
    ensures Blank(href) <==> href.None? || AllSpace(href.value)
  {
    if href.Some? {
      TrimEmptyIffAllSpace(href.value);
    }
  }

  // ---------------------------------------------------------------------
  // Contact submission

  /** The service's reply: `success`, and a `message` on failure. */
  datatype ContactResponse = ContactResponse(success: bool, message: Option<string>)

  /** What `submitContactForm` resolves to. */
  datatype SubmitResult = SubmitResult(success: bool, error: Option<string>)

  datatype Toast = SuccessToast(text: string) | ErrorToast(text: string)

  /** The toast shown after a submission, in the page's language. */
  function SubmitToast(success: bool, lang: string): (t: Toast)
    ensures t.SuccessToast? <==> success
  {
    if success then
      SuccessToast(if lang == "ar" then "تم إرسال رسالتك بنجاح!" else "Your message has been sent successfully!")
    else
      ErrorToast(if lang == "ar" then "حدث خطأ أثناء إرسال الرسالة. يرجى المحاولة مرة أخرى."
                 else "An error occurred while sending your message. Please try again.")
  }

  /** `response.message || "Failed to submit form"`. */
  function FailureReason(message: Option<string>): (m: string)
    ensures m != ""
    ensures Truthy(message) ==> m == message.value
  {
    if Truthy(message) then message.value else "Failed to submit form"
  }

  /** The outcome of a submission, for what the contact service delivered:
      success only when the reply says so; otherwise the reply's message (or
      the fallback), or the wrapped transport error. */
  function SubmitOutcome(outcome: ApiServices.Transport<ContactResponse>): (r: SubmitResult)
    ensures r.success <==> outcome.Delivered? && outcome.data.success
    ensures r.success ==> r.error.None?
    ensures !r.success ==> r.error.Some? && r.error.value != ""
    ensures outcome.Delivered? && !outcome.data.success ==>
              r.error == Some(FailureReason(outcome.data.message))
    ensures outcome.Failed? ==> r.error == Some(ApiServices.FailureMessage(
              ApiServices.POST, ApiServices.Endpoint(ApiServices.Contact), outcome.message))
  {
    match ApiServices.Call(ApiServices.POST, ApiServices.Endpoint(ApiServices.Contact), outcome)
    case Success(response) =>
      if response.success then SubmitResult(true, None)
      else SubmitResult(false, Some(FailureReason(response.message)))
    case Failure(message) => SubmitResult(false, Some(message))
  }

  // ---------------------------------------------------------------------
  // The provider's state

  class HomeProvider {
    var isSubmittingContact: bool
    var isMenuOpen: bool
    var isSearchOpen: bool
    var searchQuery: string
    var searchResults: seq<string>
    var isSearching: bool

    /** Between calls nothing is being submitted or searched, and the
        search (which has no backend yet) never holds results. */
    predicate Idle()
      reads this
    {
      !isSubmittingContact && !isSearching && searchResults == []
    }

    constructor ()
      ensures Idle()
      ensures !isMenuOpen && !isSearchOpen && searchQuery == ""
    {
      isSubmittingContact := false;
      isMenuOpen := false;
      isSearchOpen := false;
      searchQuery := "";
      searchResults := [];
      isSearching := false;
    }

    /** `submitContactForm(formData)`: posts the form through the contact
        service, which is called without a language and so sends "en"; shows
        a toast in the page's language and clears the submitting flag
        whatever the outcome. */
    method SubmitContactForm(formData: JsObject.Object<string>, lang: string,
                             outcome: ApiServices.Transport<ContactResponse>)
      returns (result: SubmitResult, call: ApiServices.HttpCall, toast: Toast)
      requires JsObject.Valid(formData)
      modifies this`isSubmittingContact
      ensures call == ApiServices.SubmitCall(formData, None)
      ensures result == SubmitOutcome(outcome)
      ensures toast == SubmitToast(result.success, lang)
      ensures !isSubmittingContact
    {
      isSubmittingContact := true;
      call := ApiServices.SubmitCall(formData, None);
      result := SubmitOutcome(outcome);
      toast := SubmitToast(result.success, lang);
      isSubmittingContact := false;
    }

    /** `performSearch(query)`: a blank query clears the results; any other
        runs the placeholder search, which yields no results. */
    method PerformSearch(query: string)
      modifies this`searchResults, this`isSearching
      ensures searchResults == []
      ensures !Blank(Some(query)) ==> !isSearching
      ensures Blank(Some(query)) ==> isSearching == old(isSearching)
    {
      if Blank(Some(query)) {
        searchResults := [];
      } else {
        isSearching := true;
        searchResults := [];
        isSearching := false;
      }
    }

    /** `handleSearchChange(query)`: records the query and searches for it. */
    method HandleSearchChange(query: string)
      modifies this`searchQuery, this`searchResults, this`isSearching
      ensures searchQuery == query && searchResults == []
      ensures old(Idle()) ==> Idle()
    {
      searchQuery := query;
      if !Blank(Some(query)) {
        PerformSearch(query);
      } else {
        searchResults := [];
      }
    }

    /** `toggleMenu()`. */
    method ToggleMenu()
      modifies this`isMenuOpen
      ensures isMenuOpen == !old(isMenuOpen)
    {
      isMenuOpen := !isMenuOpen;
    }

    /** `toggleSearch()`: opening the search clears the query and results;
        closing it keeps them. */
    method ToggleSearch()
      modifies this`isSearchOpen, this`searchQuery, this`searchResults
      ensures isSearchOpen == !old(isSearchOpen)
      ensures isSearchOpen ==> searchQuery == "" && searchResults == []
      ensures !isSearchOpen ==> searchQuery == old(searchQuery) && searchResults == old(searchResults)
    {
      var wasOpen := isSearchOpen;
      isSearchOpen := !isSearchOpen;
      if !wasOpen {
        searchQuery := "";
        searchResults := [];
      }
    }

    /** `closeMenu()`. */
    method CloseMenu()
      modifies this`isMenuOpen
      ensures !isMenuOpen
    {
      isMenuOpen := false;
    }

    /** `closeSearch()`: closes the search and clears its query and
        results. */
    method CloseSearch()
      modifies this`isSearchOpen, this`searchQuery, this`searchResults
      ensures !isSearchOpen && searchQuery == "" && searchResults == []
    {
      isSearchOpen := false;
      searchQuery := "";
      searchResults := [];
    }

    /** `scrollToSection(href)`: a blank `href` only closes the menu; any
        other scrolls to the target `ScrollTarget` chooses, from the first
        lookup of the element, the retry and the document height, and closes
        the menu. */
    method ScrollToSection(href: Option<string>, first: Option<int>, retry: Option<int>,
                           scrollHeight: int) returns (top: Option<int>)
      modifies this`isMenuOpen
      ensures !isMenuOpen
      ensures top.None? <==> Blank(href)
      ensures top.Some? ==> top.value == ScrollTarget(first, retry, scrollHeight)
    {
      if Blank(href) {
        isMenuOpen := false;
        return None;
      }
      top := Some(ScrollTarget(first, retry, scrollHeight));
      isMenuOpen := false;
    }
  }

  /** The submission always sends the language "en", whatever language the
      page shows, and keeps every other field of the form. */
  lemma SubmissionLanguage(formData: JsObject.Object<string>, k: string)
    requires JsObject.Valid(formData)
    ensures JsObject.Get(ApiServices.SubmitCall(formData, None).body, "lang") == Some("en")
    ensures k != "lang" ==> JsObject.Get(ApiServices.SubmitCall(formData, None).body, k)
                            == JsObject.Get(formData, k)
  {
    ApiServices.SubmitBody(formData, None, k);
  }
}
