/** The in-page navigation of `components/Navigation.jsx`: the desktop bar,
    whose scroll-spy marks the section in view, and the mobile dropdown. Both
    scroll smoothly to an anchor and close their menu. The document is a map
    from selector to the element's box; scrolling is the target a function
    returns. */
module Navigation {
  import opened Wrappers

  datatype NavItem = NavItem(key: string, href: string)

  /** The anchors both navigations list, in order. */
  const NavigationItems: seq<NavItem> := [
    NavItem("about", "#about"),
    NavItem("strategy", "#strategy"),
    NavItem("chairman", "#chairman"),
    NavItem("board", "#board"),
    NavItem("sectors", "#sectors"),
    NavItem("esg", "#esg"),
    NavItem("contact", "#contact")
  ]

  /** Every anchor is "#" followed by its key, and no two are equal. */
  lemma NavigationAnchors()
    ensures |NavigationItems| == 7
    ensures forall i :: 0 <= i < |NavigationItems| ==>
              NavigationItems[i].href == "#" + NavigationItems[i].key
    ensures forall i, j :: 0 <= i < j < |NavigationItems| ==>
              NavigationItems[i].href != NavigationItems[j].href
  {
  }

  /** `navigationItems.map(item => item.href)`. */
  function Sections(items: seq<NavItem>): (s: seq<string>)
    ensures |s| == |items| && forall i :: 0 <= i < |items| ==> s[i] == items[i].href
  {
    seq(|items|, i requires 0 <= i < |items| => items[i].href)
  }

  /** An element's `offsetTop` and `offsetHeight`. */
  datatype Box = Box(offsetTop: int, offsetHeight: int)

  /** The document, as the boxes of the elements a selector finds. */
  type Document = map<string, Box>

  /** `document.querySelector(href)`. */
  function Lookup(dom: Document, href: string): Option<Box> {
    if href in dom then Some(dom[href]) else None
  }

  /** The element of `section` exists and its half-open vertical span
      `[offsetTop, offsetTop + offsetHeight)` holds `position`. */
  predicate InView(dom: Document, section: string, position: int) {
    section in dom && dom[section].offsetTop <= position < dom[section].offsetTop + dom[section].offsetHeight
  }

  /** The first of `sections` in view at `position`, if any. */
  function FirstInView(sections: seq<string>, dom: Document, position: int): (r: Option<string>)
    ensures r.None? <==> forall i :: 0 <= i < |sections| ==> !InView(dom, sections[i], position)
    ensures r.Some? ==> exists i :: 0 <= i < |sections| && sections[i] == r.value
                          && InView(dom, sections[i], position)
                          && forall j :: 0 <= j < i ==> !InView(dom, sections[j], position)
  {
    if sections == [] then None
    else if InView(dom, sections[0], position) then Some(sections[0])
    else
      var r := FirstInView(sections[1..], dom, position);
      assert forall i :: 1 <= i < |sections| ==> sections[i] == sections[1..][i - 1];
      if r.Some? then
        ghost var k :| 0 <= k < |sections[1..]| && sections[1..][k] == r.value
                       && InView(dom, sections[1..][k], position)
                       && forall j :: 0 <= j < k ==> !InView(dom, sections[1..][j], position);
        assert sections[k + 1] == r.value;
        assert forall j :: 0 <= j < k + 1 ==> !InView(dom, sections[j], position) by {
          forall j | 0 <= j < k + 1 ensures !InView(dom, sections[j], position) {
            if j > 0 { assert sections[j] == sections[1..][j - 1]; }
          }
        }
        r
      else r
  }

  /** Where a click on `href` scrolls: `offset` pixels above the element, or
      nowhere when the document has no such element. */
  function ScrollTarget(dom: Document, href: string, offset: int): (top: Option<int>)
    ensures top.Some? <==> href in dom
    ensures top.Some? ==> top.value == dom[href].offsetTop - offset
  {
    match Lookup(dom, href)
    case Some(box) => Some(box.offsetTop - offset)
    case None => None
  }

  /** The desktop bar: its (unused) menu flag and the section the
      scroll-spy marks active. */
  class DesktopNavigation {
    var isMenuOpen: bool
    var activeSection: string

    constructor ()
      ensures !isMenuOpen && activeSection == ""
    {
      isMenuOpen := false;
      activeSection := "";
    }

    /** `handleScroll`: the first section, in the items' order, whose span
        holds `scrollY + 100` becomes active; when none does (a missing
        element counts as none) the active section stays. */
    method HandleScroll(dom: Document, scrollY: int)
      modifies this`activeSection
      ensures activeSection == FirstInView(Sections(NavigationItems), dom, scrollY + 100).GetOr(old(activeSection))
    {
      var sections := Sections(NavigationItems);
      var position := scrollY + 100;
      var i := 0;
      while i < |sections|
        invariant 0 <= i <= |sections|
        invariant FirstInView(sections[i..], dom, position) == FirstInView(sections, dom, position)
        invariant activeSection == old(activeSection)
      {
        var element := Lookup(dom, sections[i]);
        if element.Some? {
          var box := element.value;
          if position >= box.offsetTop && position < box.offsetTop + box.offsetHeight {
            activeSection := sections[i];
            break;
          }
        }
        assert sections[i..][1..] == sections[i + 1..];
        i := i + 1;
      }
    }

    /** `scrollToSection(href)`: scrolls to 100 pixels above the element, if
        there is one, and closes the menu either way. */
    method ScrollToSection(dom: Document, href: string) returns (top: Option<int>)
      modifies this`isMenuOpen
      ensures top == ScrollTarget(dom, href, 100)
      ensures !isMenuOpen
    {
      var element := Lookup(dom, href);
      top := None;
      if element.Some? {
        top := Some(element.value.offsetTop - 100);
      }
      isMenuOpen := false;
    }
  }

  /** The mobile dropdown: open or closed. */
  class MobileNavigation {
    var isMenuOpen: bool

    constructor ()
      ensures !isMenuOpen
    {
      isMenuOpen := false;
    }

    /** `scrollToSection(href)`: scrolls to 50 pixels above the element, if
        there is one, and closes the dropdown either way. */
    method ScrollToSection(dom: Document, href: string) returns (top: Option<int>)
      modifies this`isMenuOpen
      ensures top == ScrollTarget(dom, href, 50)
      ensures !isMenuOpen
    {
      var element := Lookup(dom, href);
      top := None;
      if element.Some? {
        top := Some(element.value.offsetTop - 50);
      }
      isMenuOpen := false;
    }
  }

  /** The active section after a scroll is "" (nothing yet) or one of the
      navigation's anchors, and it is in view whenever any anchor is. */
  lemma ActiveSectionIsAnchor(dom: Document, scrollY: int, previous: string)
    requires previous == "" || previous in Sections(NavigationItems)
    ensures var active := FirstInView(Sections(NavigationItems), dom, scrollY + 100).GetOr(previous);
      (active == "" || active in Sections(NavigationItems))
      && ((exists i :: 0 <= i < |NavigationItems| && InView(dom, NavigationItems[i].href, scrollY + 100))
          ==> InView(dom, active, scrollY + 100))
  {
    var sections := Sections(NavigationItems);
    var r := FirstInView(sections, dom, scrollY + 100);
    if exists i :: 0 <= i < |NavigationItems| && InView(dom, NavigationItems[i].href, scrollY + 100) {
      var i :| 0 <= i < |NavigationItems| && InView(dom, NavigationItems[i].href, scrollY + 100);
      assert InView(dom, sections[i], scrollY + 100);
    }
  }
}
