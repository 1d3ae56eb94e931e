/** The grouped mobile menu of `components/MobileDynamicNavigation.jsx`: a
    spinner while the menu loads, the error once it failed, and otherwise the
    menu's items sorted into five titled groups by their anchor. The
    component's data and callbacks come from the application context; here
    they are parameters. */
module MobileMenu {
  import opened Wrappers
  import opened Strings
  import Lists
  import HomeContext

  /** A menu item: its label (`caption`) and its `href`, which may be missing. */
  datatype MenuItem = MenuItem(caption: string, href: Option<string>)

  /** `item.href?.replace("#", "")`: the href without its first "#". */
  function Anchor(item: MenuItem): (a: Option<string>)
    ensures a.None? <==> item.href.None?
    ensures a.Some? && '#' !in item.href.value ==> a.value == item.href.value
    ensures a.Some? && |item.href.value| > 0 && item.href.value[0] == '#' ==> a.value == item.href.value[1..]
  {
    if item.href.Some? then
      var h := item.href.value;
      var r := RemoveFirst(h, '#');
      Some(r)
    else None
  }

  datatype GroupName = Main | Governance | Content | Legal | ContactGroup

  /** The groups, in the order the menu shows them. */
  const GroupOrder: seq<GroupName> := [Main, Governance, Content, Legal, ContactGroup]

  /** The anchors each group collects. */
  function Anchors(g: GroupName): seq<string> {
    match g
    case Main => ["about", "strategy", "chairman", "board", "sectors"]
    case Governance => ["governance", "esg"]
    case Content => ["news", "blog"]
    case Legal => ["compliance", "privacy", "supply", "terms"]
    case ContactGroup => ["contact"]
  }

  /** Each group's heading. */
  function Title(g: GroupName): string {
    match g
    case Main => "الرئيسية"
    case Governance => "الحوكمة والاستدامة"
    case Content => "المحتوى"
    case Legal => "القانونية"
    case ContactGroup => "التواصل"
  }

  /** The item's anchor is one of the group's. */
  predicate InGroup(g: GroupName, item: MenuItem) {
    Anchor(item).Some? && Anchor(item).value in Anchors(g)
  }

  /** `menu.filter(item => [...].includes(item.href?.replace("#", "")))`:
      the menu's items with one of the group's anchors, in menu order. */
  function Group(menu: seq<MenuItem>, g: GroupName): (r: seq<MenuItem>)
    ensures forall item :: item in r <==> item in menu && InGroup(g, item)
  {
    Lists.Filter(menu, item => InGroup(g, item))
  }

  /** Grouping keeps the menu's order: the group of a menu made of two
      parts is the group of the first part followed by that of the
      second. */
  lemma GroupKeepsOrder(a: seq<MenuItem>, b: seq<MenuItem>, g: GroupName)
    ensures Group(a + b, g) == Group(a, g) + Group(b, g)
  {
    Lists.FilterAppend(a, b, item => InGroup(g, item));
  }

  /** The group that lists an anchor, if one does; no anchor is listed by
      two groups. */
  function GroupOf(a: string): (g: Option<GroupName>)
    ensures forall h :: a in Anchors(h) <==> g == Some(h)
  {
    if a in Anchors(Main) then Some(Main)
    else if a in Anchors(Governance) then Some(Governance)
    else if a in Anchors(Content) then Some(Content)
    else if a in Anchors(Legal) then Some(Legal)
    else if a in Anchors(ContactGroup) then Some(ContactGroup)
    else None
  }

  /** No item belongs to two groups. */
  lemma GroupsDisjoint(g: GroupName, h: GroupName, item: MenuItem)
    requires g != h
    ensures !(InGroup(g, item) && InGroup(h, item))
  {
    if Anchor(item).Some? {
      var group := GroupOf(Anchor(item).value);
    }
  }

  /** An item whose href is missing, or whose anchor no group lists, is in
      no group. */
  lemma UnlistedInNoGroup(menu: seq<MenuItem>, item: MenuItem, g: GroupName)
    requires item.href.None? || forall h :: Anchor(item).value !in Anchors(h)
    ensures item !in Group(menu, g)
  {
  }

  /** An item whose anchor some group lists is in exactly that group. */
  lemma ListedInOneGroup(menu: seq<MenuItem>, item: MenuItem, g: GroupName)
    requires item in menu && InGroup(g, item)
    ensures forall h :: item in Group(menu, h) <==> h == g
  {
    forall h ensures item in Group(menu, h) <==> h == g {
      if h != g { GroupsDisjoint(g, h, item); }
    }
  }

  datatype MenuGroup = MenuGroup(title: string, items: seq<MenuItem>)

  /** `menuGroups`: the five groups, titled, in their fixed order. */
  function MenuGroups(menu: seq<MenuItem>): (gs: seq<MenuGroup>)
    ensures |gs| == |GroupOrder|
    ensures forall i :: 0 <= i < |gs| ==> gs[i] == MenuGroup(Title(GroupOrder[i]), Group(menu, GroupOrder[i]))
  {
    seq(|GroupOrder|, i requires 0 <= i < |GroupOrder| => MenuGroup(Title(GroupOrder[i]), Group(menu, GroupOrder[i])))
  }

  /** What the component renders. */
  datatype View<E> =
    | Spinner
    | ErrorView(error: E)
    | MenuView(groups: seq<MenuGroup>, separators: seq<bool>)

  /** The view for the context's values: the spinner while loading, even
      when an error is present; the error once loading ended; and otherwise
      the groups, each followed by a separator except the last. */
  function MobileView<E>(menu: seq<MenuItem>, isLoading: bool, isError: Option<E>): (v: View<E>)
    ensures v.Spinner? <==> isLoading
    ensures v.ErrorView? <==> !isLoading && isError.Some?
    ensures v.ErrorView? ==> v.error == isError.value
    ensures v.MenuView? <==> !isLoading && isError.None?
    ensures v.MenuView? ==> v.groups == MenuGroups(menu) && |v.separators| == |v.groups|
    ensures v.MenuView? ==> forall i :: 0 <= i < |v.separators| ==> (v.separators[i] <==> i + 1 < |v.groups|)
  {
    if isLoading then Spinner
    else if isError.Some? then ErrorView(isError.value)
    else
      var groups := MenuGroups(menu);
      MenuView(groups, seq(|groups|, i requires 0 <= i < |groups| => i < |groups| - 1))
  }

  // ---------------------------------------------------------------------
  // The view as wired: the component reads its data from the application
  // context, which defines none of it

  /** The error `menu.filter` throws when `menu` is `undefined`, in V8's
      wording. */
  const MenuUndefined := "TypeError: Cannot read properties of undefined (reading 'filter')"

  /** Rendering either produces a view or throws. */
  datatype Render<E> = Rendered(view: View<E>) | RenderThrew(error: string)

  /** The render with the values the component reads, each possibly
      `undefined` (`None`; an undefined flag reads as `false`): the spinner
      and the error view do not touch the menu, but the grouping calls
      `filter` on it and throws when it is `undefined`. */
  function MobileViewAsWritten<E>(menu: Option<seq<MenuItem>>, isLoading: bool, isError: Option<E>): (r: Render<E>)
    ensures r.RenderThrew? <==> !isLoading && isError.None? && menu.None?
    ensures r.RenderThrew? ==> r.error == MenuUndefined
    ensures r.Rendered? && menu.Some? ==> r.view == MobileView(menu.value, isLoading, isError)
    ensures r.Rendered? ==> !r.view.MenuView? || menu.Some?
  {
    if isLoading then Rendered(Spinner)
    else if isError.Some? then Rendered(ErrorView(isError.value))
    else if menu.None? then RenderThrew(MenuUndefined)
    else Rendered(MobileView(menu.value, isLoading, isError))
  }

  /** With the values the application context actually supplies (all three
      `undefined`, see `AppContext.ConsumedKeysMissing`) the menu never
      renders: it throws, where the same component fed by the home
      context's provider shows the five groups. */
  lemma MobileViewFromAppContext<E>(menu: seq<MenuItem>)
    ensures MobileViewAsWritten<E>(None, false, None) == RenderThrew(MenuUndefined)
    ensures MobileView<E>(menu, false, None).MenuView?
  {
  }

  /** A click on an item: scrolls to its href through the home provider's
      `scrollToSection`, then closes the menu with the provider's
      `closeMenu`. This is a corrected wiring in two ways. The component
      as written reads its handlers from `AppContext`, which provides none
      of them (see `MobileViewAsWritten`). It also calls
      `setIsMenuOpen(false)`, which the home provider does not offer
      either, so that call is replaced by `closeMenu`. */
  method ClickItem(provider: HomeContext.HomeProvider, item: MenuItem, first: Option<int>,
                   retry: Option<int>, scrollHeight: int) returns (top: Option<int>)
    modifies provider`isMenuOpen
    ensures top.None? <==> HomeContext.Blank(item.href)
    ensures top.Some? ==> top.value == HomeContext.ScrollTarget(first, retry, scrollHeight)
    ensures !provider.isMenuOpen
  {
    top := provider.ScrollToSection(item.href, first, retry, scrollHeight);
    provider.CloseMenu();
  }
}
