/**
 * The active-section highlighter of the home page: navigation links of the
 * form `/#id` are marked (class, `aria-current`, underline indicator) when
 * their section becomes active, on load, on intersection and on click; a
 * click on such a link also slides the mobile menu shut.
 */
module ActiveSection {
  import opened Wrappers
  import MobileMenu

  const ActiveText: string := "text-primary"
  const Underlined: string := "w-full"
  const NotUnderlined: string := "w-0"

  /** An anchor whose href starts with `/#`, with the classes of its first `span` (the underline) if it has one. */
  datatype Link = Link(href: string, classes: set<string>, ariaCurrent: Option<string>, indicator: Option<set<string>>)

  /** A `section[id]` element and its bounding box. */
  datatype SectionBox = SectionBox(id: string, top: int, bottom: int)

  /** An intersection-observer entry: the observed section's id and whether it intersects. */
  datatype Entry = Entry(id: string, isIntersecting: bool)

  /** The part of the page the highlighter writes: the links and the mobile menu. */
  datatype Page = Page(links: seq<Link>, menu: MobileMenu.Menu)

  function Href(id: string): string {
    "/#" + id
  }

  predicate HasLinkTo(links: seq<Link>, id: string) {
    exists j :: 0 <= j < |links| && links[j].href == Href(id)
  }

  // ---------------------------------------------------------------- tracked sections

  /** The sections that have a matching navigation link, in document order. */
  function Tracked(page: seq<SectionBox>, links: seq<Link>): (r: seq<SectionBox>)
    ensures forall s :: s in r <==> s in page && HasLinkTo(links, s.id)
    ensures |r| <= |page|
    decreases |page|
  {
    if page == [] then []
    else
      var rest := Tracked(page[1..], links);
      assert forall s :: s in page <==> s == page[0] || s in page[1..];
      if HasLinkTo(links, page[0].id) then [page[0]] + rest else rest
  }

  /** Filtering keeps document order: it distributes over any split of the page. */
  lemma {:induction false} TrackedKeepsOrder(front: seq<SectionBox>, back: seq<SectionBox>, links: seq<Link>)
    ensures Tracked(front + back, links) == Tracked(front, links) + Tracked(back, links)
    decreases |front|
  {
    if front != [] {
      assert (front + back)[1..] == front[1..] + back;
      TrackedKeepsOrder(front[1..], back, links);
    } else {
      assert front + back == back;
    }
  }

  // ---------------------------------------------------------------- link states

  /** A marked link: highlighted, `aria-current="page"`, indicator full width. */
  predicate IsActive(l: Link) {
    && ActiveText in l.classes
    && l.ariaCurrent == Some("page")
    && (l.indicator.Some? ==> Underlined in l.indicator.value && NotUnderlined !in l.indicator.value)
  }

  /** An unmarked link: no highlight, no `aria-current`, indicator at zero width. */
  predicate IsInactive(l: Link) {
    && ActiveText !in l.classes
    && l.ariaCurrent.None?
    && (l.indicator.Some? ==> NotUnderlined in l.indicator.value && Underlined !in l.indicator.value)
  }

  /** Only the link's own marking changes; href, other classes and the indicator's presence stay. */
  predicate SameLinkOtherwise(a: Link, b: Link) {
    && a.href == b.href
    && a.classes - {ActiveText} == b.classes - {ActiveText}
    && (a.indicator.Some? <==> b.indicator.Some?)
    && (a.indicator.Some? ==>
          a.indicator.value - {Underlined, NotUnderlined} == b.indicator.value - {Underlined, NotUnderlined})
  }

  function Cleared(l: Link): (r: Link)
    ensures IsInactive(r) && SameLinkOtherwise(r, l)
  {
    var plain := l.(classes := l.classes - {ActiveText}, ariaCurrent := None);
    match l.indicator
    case None => plain
    case Some(ind) => plain.(indicator := Some(ind - {Underlined} + {NotUnderlined}))
  }

  function Activated(l: Link): (r: Link)
    ensures IsActive(r) && SameLinkOtherwise(r, l)
  {
    var marked := l.(classes := l.classes + {ActiveText}, ariaCurrent := Some("page"));
    match l.indicator
    case None => marked
    case Some(ind) => marked.(indicator := Some(ind - {NotUnderlined} + {Underlined}))
  }

  /** clearAllActiveLinks. */
  function ClearAll(links: seq<Link>): (r: seq<Link>)
    ensures |r| == |links|
    ensures forall j :: 0 <= j < |r| ==> IsInactive(r[j]) && SameLinkOtherwise(r[j], links[j])
  {
    seq(|links|, j requires 0 <= j < |links| => Cleared(links[j]))
  }

  predicate NoneCurrent(links: seq<Link>) {
    forall j :: 0 <= j < |links| ==> links[j].ariaCurrent.None?
  }

  predicate AtMostOneCurrent(links: seq<Link>) {
    forall i, j :: 0 <= i < |links| && 0 <= j < |links| && links[i].ariaCurrent.Some? && links[j].ariaCurrent.Some? ==> i == j
  }

  lemma ClearAllIdempotent(links: seq<Link>)
    ensures NoneCurrent(ClearAll(links))
    ensures ClearAll(ClearAll(links)) == ClearAll(links)
  {
    var once := ClearAll(links);
    forall j | 0 <= j < |once|
      ensures ClearAll(once)[j] == once[j]
    {
      match links[j].indicator
      case None =>
      case Some(ind) =>
        assert ind - {Underlined} + {NotUnderlined} - {Underlined} + {NotUnderlined} == ind - {Underlined} + {NotUnderlined};
    }
  }

  /** Link j is the first whose href is exactly `href` (what `querySelector` returns). */
  predicate FirstLinkAt(links: seq<Link>, j: int, href: string) {
    && 0 <= j < |links|
    && links[j].href == href
    && forall i :: 0 <= i < j ==> links[i].href != href
  }

  function FirstLinkFrom(links: seq<Link>, href: string, k: nat): (r: Option<nat>)
    requires k <= |links|
    requires forall i :: 0 <= i < k ==> links[i].href != href
    ensures r.Some? ==> FirstLinkAt(links, r.value, href)
    ensures r.None? ==> forall i :: 0 <= i < |links| ==> links[i].href != href
    decreases |links| - k
  {
    if k == |links| then None
    else if links[k].href == href then Some(k)
    else FirstLinkFrom(links, href, k + 1)
  }

  function FirstLinkTo(links: seq<Link>, href: string): (r: Option<nat>)
    ensures r.Some? ==> FirstLinkAt(links, r.value, href)
    ensures r.None? ==> forall i :: 0 <= i < |links| ==> links[i].href != href
  {
    FirstLinkFrom(links, href, 0)
  }

  /**
   * updateActiveLink: off the home page or for a null or empty id nothing
   * changes; otherwise every link is cleared and the first link to `/#id`
   * alone is marked.
   */
  function UpdateActiveLink(links: seq<Link>, isHome: bool, id: Option<string>): (r: seq<Link>)
    ensures |r| == |links|
    ensures !isHome || id.None? || id == Some("") ==> r == links
    ensures isHome && id.Some? && id.value != "" ==>
      forall j :: 0 <= j < |r| ==>
        && SameLinkOtherwise(r[j], links[j])
        && (FirstLinkAt(links, j, Href(id.value)) ==> IsActive(r[j]))
        && (!FirstLinkAt(links, j, Href(id.value)) ==> IsInactive(r[j]))
  {
    if !isHome || id.None? || id.value == "" then links
    else
      var cleared := ClearAll(links);
      match FirstLinkTo(cleared, Href(id.value))
      case None => cleared
      case Some(k) => cleared[k := Activated(cleared[k])]
  }

  lemma FirstLinkAtUnique(links: seq<Link>, i: int, j: int, href: string)
    requires FirstLinkAt(links, i, href) && FirstLinkAt(links, j, href)
    ensures i == j
  {
  }

  /** After any update at most one link carries aria-current, provided that held before. */
  lemma UpdateKeepsAtMostOneCurrent(links: seq<Link>, isHome: bool, id: Option<string>)
    requires AtMostOneCurrent(links)
    ensures AtMostOneCurrent(UpdateActiveLink(links, isHome, id))
  {
    if isHome && id.Some? && id.value != "" {
      var r := UpdateActiveLink(links, isHome, id);
      forall i, j | 0 <= i < |r| && 0 <= j < |r| && r[i].ariaCurrent.Some? && r[j].ariaCurrent.Some?
        ensures i == j
      {
        assert FirstLinkAt(links, i, Href(id.value));
        assert FirstLinkAt(links, j, Href(id.value));
        FirstLinkAtUnique(links, i, j, Href(id.value));
      }
    }
  }

  /** On the home page the first link to `/#id` ends up marked, whatever the links looked like. */
  lemma UpdateMarksLinkToId(links: seq<Link>, id: string, k: int)
    requires id != "" && FirstLinkAt(links, k, Href(id))
    ensures IsActive(UpdateActiveLink(links, true, Some(id))[k])
    ensures AtMostOneCurrent(UpdateActiveLink(links, true, Some(id)))
  {
    var r := UpdateActiveLink(links, true, Some(id));
    forall i, j | 0 <= i < |r| && 0 <= j < |r| && r[i].ariaCurrent.Some? && r[j].ariaCurrent.Some?
      ensures i == j
    {
      assert FirstLinkAt(links, i, Href(id));
      assert FirstLinkAt(links, j, Href(id));
      FirstLinkAtUnique(links, i, j, Href(id));
    }
  }

  // ---------------------------------------------------------------- choosing a section

  function FirstIntersectingFrom(entries: seq<Entry>, k: nat): (r: Option<nat>)
    requires k <= |entries|
    requires forall i :: 0 <= i < k ==> !entries[i].isIntersecting
    ensures r.Some? ==> r.value < |entries| && entries[r.value].isIntersecting
    ensures r.Some? ==> forall i :: 0 <= i < r.value ==> !entries[i].isIntersecting
    ensures r.None? ==> forall i :: 0 <= i < |entries| ==> !entries[i].isIntersecting
    decreases |entries| - k
  {
    if k == |entries| then None
    else if entries[k].isIntersecting then Some(k)
    else FirstIntersectingFrom(entries, k + 1)
  }

  /** observerCallback: the first intersecting entry's section becomes active; none, nothing changes. */
  function ObserverCallback(links: seq<Link>, isHome: bool, entries: seq<Entry>): (r: seq<Link>)
    ensures (forall i :: 0 <= i < |entries| ==> !entries[i].isIntersecting) ==> r == links
    ensures forall k :: 0 <= k < |entries| && entries[k].isIntersecting
                        && (forall i :: 0 <= i < k ==> !entries[i].isIntersecting) ==>
              r == UpdateActiveLink(links, isHome, Some(entries[k].id))
  {
    match FirstIntersectingFrom(entries, 0)
    case None => links
    case Some(k) => UpdateActiveLink(links, isHome, Some(entries[k].id))
  }

  /** The section's box straddles the middle of the viewport (`top <= h/2 <= bottom`). */
  predicate Straddles(s: SectionBox, innerHeight: int) {
    2 * s.top <= innerHeight && innerHeight <= 2 * s.bottom
  }

  function FirstStraddlingFrom(sections: seq<SectionBox>, innerHeight: int, k: nat): (r: Option<nat>)
    requires k <= |sections|
    requires forall i :: 0 <= i < k ==> !Straddles(sections[i], innerHeight)
    ensures r.Some? ==> r.value < |sections| && Straddles(sections[r.value], innerHeight)
    ensures r.Some? ==> forall i :: 0 <= i < r.value ==> !Straddles(sections[i], innerHeight)
    ensures r.None? ==> forall i :: 0 <= i < |sections| ==> !Straddles(sections[i], innerHeight)
    decreases |sections| - k
  {
    if k == |sections| then None
    else if Straddles(sections[k], innerHeight) then Some(k)
    else FirstStraddlingFrom(sections, innerHeight, k + 1)
  }

  /**
   * handleInitialState's choice: the hash's id when an element has it;
   * without a hash the first tracked section across the viewport's middle,
   * else the first tracked section, else nothing.
   */
  function InitialTarget(hash: string, pageIds: set<string>, sections: seq<SectionBox>, innerHeight: int): (r: Option<string>)
    ensures hash != "" ==> (r.Some? <==> hash[1..] in pageIds) && (r.Some? ==> r.value == hash[1..])
    ensures hash == "" ==> (r.Some? <==> sections != [])
    ensures hash == "" && r.Some? ==>
      exists k :: 0 <= k < |sections| && r.value == sections[k].id &&
        ((Straddles(sections[k], innerHeight) && forall i :: 0 <= i < k ==> !Straddles(sections[i], innerHeight))
         || (k == 0 && forall i :: 0 <= i < |sections| ==> !Straddles(sections[i], innerHeight)))
  {
    if hash != "" then
      if hash[1..] in pageIds then Some(hash[1..]) else None
    else
      match FirstStraddlingFrom(sections, innerHeight, 0)
      case Some(k) => Some(sections[k].id)
      case None => if sections != [] then Some(sections[0].id) else None
  }

  /**
   * Clearing and then marking `id` resets every server-set mark: only the
   * first link to `/#id` ends marked, every other link ends unmarked, and no
   * link changes anything but its marking.
   */
  lemma ClearThenUpdate(links: seq<Link>, id: Option<string>)
    ensures var r := UpdateActiveLink(ClearAll(links), true, id);
      forall j :: 0 <= j < |r| ==>
        && SameLinkOtherwise(r[j], links[j])
        && (id.Some? && id.value != "" && FirstLinkAt(links, j, Href(id.value)) ==> IsActive(r[j]))
        && (!(id.Some? && id.value != "" && FirstLinkAt(links, j, Href(id.value))) ==> IsInactive(r[j]))
  {
    var cleared := ClearAll(links);
    var r := UpdateActiveLink(cleared, true, id);
    forall j | 0 <= j < |r|
      ensures SameLinkOtherwise(r[j], links[j])
      ensures id.Some? && id.value != "" ==> (FirstLinkAt(links, j, Href(id.value)) <==> FirstLinkAt(cleared, j, Href(id.value)))
    {
      assert SameLinkOtherwise(r[j], cleared[j]);
      assert SameLinkOtherwise(cleared[j], links[j]);
    }
  }

  /** The DOMContentLoaded handler: on the home page with tracked sections, clear, then mark the initial target. */
  function Loaded(links: seq<Link>, isHome: bool, hash: string, pageIds: set<string>,
                  sections: seq<SectionBox>, innerHeight: int): (r: seq<Link>)
    ensures |r| == |links|
    ensures !isHome || sections == [] ==> r == links
    ensures isHome && sections != [] ==> AtMostOneCurrent(r)
    ensures isHome && sections != [] ==>
      var t := InitialTarget(hash, pageIds, sections, innerHeight);
      forall j :: 0 <= j < |r| ==>
        && SameLinkOtherwise(r[j], links[j])
        && (t.Some? && t.value != "" && FirstLinkAt(links, j, Href(t.value)) ==> IsActive(r[j]))
        && (!(t.Some? && t.value != "" && FirstLinkAt(links, j, Href(t.value))) ==> IsInactive(r[j]))
  {
    if !isHome || sections == [] then links
    else
      var cleared := ClearAll(links);
      ClearAllIdempotent(links);
      ClearThenUpdate(links, InitialTarget(hash, pageIds, sections, innerHeight));
      UpdateKeepsAtMostOneCurrent(cleared, true, InitialTarget(hash, pageIds, sections, innerHeight));
      UpdateActiveLink(cleared, true, InitialTarget(hash, pageIds, sections, innerHeight))
  }

  /**
   * Without a hash, loading the home page marks exactly one link: the
   * chosen section is tracked, so it has a link.
   */
  lemma LoadWithoutHashMarksOne(links: seq<Link>, pageIds: set<string>,
                                                   page: seq<SectionBox>, innerHeight: int)
    requires Tracked(page, links) != []
    requires forall s :: s in page ==> s.id != ""
    ensures var r := Loaded(links, true, "", pageIds, Tracked(page, links), innerHeight);
      exists k :: 0 <= k < |r| && IsActive(r[k]) && forall j :: 0 <= j < |r| && j != k ==> IsInactive(r[j])
  {
    var sections := Tracked(page, links);
    var target := InitialTarget("", pageIds, sections, innerHeight);
    var id := target.value;
    var ks :| 0 <= ks < |sections| && id == sections[ks].id;
    assert sections[ks] in sections;
    assert HasLinkTo(links, id);
    var cleared := ClearAll(links);
    var w :| 0 <= w < |links| && links[w].href == Href(id);
    assert cleared[w].href == Href(id);
    match FirstLinkTo(cleared, Href(id))
    case None =>
      assert false;
    case Some(k) =>
      var r := Loaded(links, true, "", pageIds, sections, innerHeight);
      assert r == UpdateActiveLink(cleared, true, Some(id));
      assert IsActive(r[k]);
      forall j | 0 <= j < |r| && j != k
        ensures IsInactive(r[j])
      {
        if FirstLinkAt(cleared, j, Href(id)) {
          FirstLinkAtUnique(cleared, j, k, Href(id));
        }
      }
  }

  // ---------------------------------------------------------------- clicks

  /** The menu-closing part of handleNavClick: only the slide, overlay, aria and scroll lock. */
  function NavClose(m: MobileMenu.Menu): (r: MobileMenu.Menu)
    ensures MobileMenu.MenuOpen !in m.menu ==> r == m
    ensures MobileMenu.MenuOpen in m.menu ==>
      && MobileMenu.MenuOpen !in r.menu && MobileMenu.MenuClosed in r.menu
      && MobileMenu.OverlayHidden in r.overlay
      && MobileMenu.BodyNoScroll !in r.body
      && r.ariaExpanded == Some("false")
      && r.listening == m.listening && r.active == m.active && r.previous == m.previous
    ensures forall c :: c != MobileMenu.MenuOpen && c != MobileMenu.MenuClosed ==> (c in r.menu <==> c in m.menu)
    ensures forall c :: c != MobileMenu.OverlayHidden ==> (c in r.overlay <==> c in m.overlay)
    ensures forall c :: c != MobileMenu.BodyNoScroll ==> (c in r.body <==> c in m.body)
  {
    if MobileMenu.MenuOpen in m.menu then
      m.(menu := m.menu - {MobileMenu.MenuOpen} + {MobileMenu.MenuClosed},
         overlay := m.overlay + {MobileMenu.OverlayHidden},
         ariaExpanded := Some("false"),
         body := m.body - {MobileMenu.BodyNoScroll})
    else m
  }

  /** Closing from a nav click keeps aria-expanded in step with the panel. */
  lemma NavCloseMirrorsAria(m: MobileMenu.Menu)
    requires MobileMenu.AriaMirrorsMenu(m)
    ensures MobileMenu.AriaMirrorsMenu(NavClose(m))
  {
  }

  /**
   * Unlike closeMenu, closing from a nav click leaves the Escape and trap
   * listeners installed, leaves `block` on the overlay next to `hidden`, and
   * does not give focus back.
   */
  lemma NavCloseLeavesListeners(m: MobileMenu.Menu)
    requires MobileMenu.ListeningWhileOpen(m) && MobileMenu.MenuOpen in m.menu
    requires MobileMenu.OverlayVisible in m.overlay
    requires m.previous.Some? && m.previous.value.Html? && m.active != m.previous
    ensures !MobileMenu.ListeningWhileOpen(NavClose(m))
    ensures MobileMenu.OverlayVisible in NavClose(m).overlay && MobileMenu.OverlayHidden in NavClose(m).overlay
    ensures NavClose(m).active != MobileMenu.Close(m).active
  {
  }

  /**
   * handleNavClick with `targetId` = `#id`: when no element has the id
   * nothing changes (an empty id is an invalid selector, which throws
   * before any change); otherwise the link is marked on the home page and
   * an open mobile menu is slid shut.
   */
  function NavClick(p: Page, isHome: bool, targetId: string, pageIds: set<string>): (r: Page)
    requires |targetId| >= 1 && targetId[0] == '#'
    ensures targetId[1..] == "" || targetId[1..] !in pageIds ==> r == p
    ensures targetId[1..] != "" && targetId[1..] in pageIds ==>
      && r.menu == NavClose(p.menu)
      && r.links == UpdateActiveLink(p.links, isHome, Some(targetId[1..]))
  {
    var id := targetId[1..];
    if id == "" || id !in pageIds then p
    else
      var links := if isHome then UpdateActiveLink(p.links, isHome, Some(id)) else p.links;
      Page(links, NavClose(p.menu))
  }

  /** The click listener on nav link k: strip the leading `/` of its href and hand over. */
  function ClickNavLink(p: Page, isHome: bool, k: int, pageIds: set<string>): (r: Page)
    requires 0 <= k < |p.links|
    ensures var href := p.links[k].href;
      !(|href| >= 2 && href[..2] == "/#") ==> r == p
    ensures var href := p.links[k].href;
      |href| >= 2 && href[..2] == "/#" ==>
        && (href[2..] == "" || href[2..] !in pageIds ==> r == p)
        && (href[2..] != "" && href[2..] in pageIds ==>
              r.menu == NavClose(p.menu) && r.links == UpdateActiveLink(p.links, isHome, Some(href[2..])))
  {
    var href := p.links[k].href;
    if |href| >= 2 && href[..2] == "/#" then NavClick(p, isHome, href[1..], pageIds) else p
  }

  /** Clicking the first link to an existing section marks it alone and leaves the menu shut. */
  lemma ClickMarksClickedLink(p: Page, k: int, id: string, pageIds: set<string>)
    requires id != "" && id in pageIds && FirstLinkAt(p.links, k, Href(id))
    ensures var r := ClickNavLink(p, true, k, pageIds);
      && IsActive(r.links[k]) && AtMostOneCurrent(r.links)
      && MobileMenu.MenuOpen !in r.menu.menu
  {
    var href := p.links[k].href;
    assert href[..2] == "/#" && href[1..] == "#" + id && ("#" + id)[1..] == id;
    UpdateMarksLinkToId(p.links, id, k);
  }

  /** Clicking a link whose section does not exist changes nothing. */
  lemma ClickWithoutTargetChangesNothing(p: Page, isHome: bool, k: int, id: string, pageIds: set<string>)
    requires 0 <= k < |p.links| && p.links[k].href == Href(id) && id !in pageIds
    ensures ClickNavLink(p, isHome, k, pageIds) == p
  {
    var href := p.links[k].href;
    assert href[..2] == "/#" && href[1..] == "#" + id && ("#" + id)[1..] == id;
  }

  // ---------------------------------------------------------------- the script's state

  class Highlighter {
    var links: seq<Link>
    const isHomePage: bool
    const pageIds: set<string>
    const sections: seq<SectionBox>
    const menu: MobileMenu.MobileMenuController

    ghost function View(): Page
      reads this, menu
    {
      Page(links, menu.View())
    }

    /** The module's top level: the tracked sections are computed once from the page and its links. */
    constructor (isHome: bool, ids: set<string>, page: seq<SectionBox>, anchors: seq<Link>,
                 mobile: MobileMenu.MobileMenuController)
      ensures links == anchors && isHomePage == isHome && pageIds == ids && menu == mobile
      ensures sections == Tracked(page, anchors)
    {
      links, isHomePage, pageIds, menu := anchors, isHome, ids, mobile;
      sections := Tracked(page, anchors);
    }

    method ClearAllActiveLinks()
      modifies this
      ensures links == ClearAll(old(links))
    {
      ghost var before := links;
      var k := 0;
      while k < |links|
        invariant 0 <= k <= |links| == |before|
        invariant forall j :: 0 <= j < k ==> links[j] == Cleared(before[j])
        invariant forall j :: k <= j < |links| ==> links[j] == before[j]
      {
        links := links[k := Cleared(links[k])];
        k := k + 1;
      }
    }

    method UpdateActiveLinkTo(id: Option<string>)
      modifies this
      ensures links == UpdateActiveLink(old(links), isHomePage, id)
    {
      if !isHomePage || id.None? || id.value == "" {
        return;
      }
      ClearAllActiveLinks();
      var href := Href(id.value);
      var k := 0;
      while k < |links| && links[k].href != href
        invariant 0 <= k <= |links|
        invariant forall i :: 0 <= i < k ==> links[i].href != href
      {
        k := k + 1;
      }
      if k < |links| {
        assert FirstLinkAt(links, k, href);
        links := links[k := Activated(links[k])];
      }
    }

    method CloseMenuFromNav()
      modifies menu
      ensures menu.View() == NavClose(old(menu.View()))
    {
      if MobileMenu.MenuOpen in menu.menuClasses {
        menu.menuClasses := menu.menuClasses - {MobileMenu.MenuOpen};
        menu.menuClasses := menu.menuClasses + {MobileMenu.MenuClosed};
        menu.overlayClasses := menu.overlayClasses + {MobileMenu.OverlayHidden};
        menu.ariaExpanded := Some("false");
        menu.bodyClasses := menu.bodyClasses - {MobileMenu.BodyNoScroll};
      }
    }

    method HandleNavClick(targetId: string)
      requires |targetId| >= 1 && targetId[0] == '#'
      modifies this, menu
      ensures View() == NavClick(old(View()), isHomePage, targetId, pageIds)
    {
      var id := targetId[1..];
      if id == "" || id !in pageIds {
        return;
      }
      if isHomePage {
        UpdateActiveLinkTo(Some(id));
      }
      CloseMenuFromNav();
    }

    method ObserverCallbackOn(entries: seq<Entry>)
      modifies this
      ensures links == ObserverCallback(old(links), isHomePage, entries)
    {
      var k := 0;
      while k < |entries| && !entries[k].isIntersecting
        invariant 0 <= k <= |entries|
        invariant forall i :: 0 <= i < k ==> !entries[i].isIntersecting
      {
        k := k + 1;
      }
      if k < |entries| {
        UpdateActiveLinkTo(Some(entries[k].id));
      }
    }

    method HandleInitialState(hash: string, innerHeight: int)
      modifies this
      ensures links == UpdateActiveLink(old(links), isHomePage, InitialTarget(hash, pageIds, sections, innerHeight))
    {
      if hash != "" {
        if hash[1..] in pageIds {
          UpdateActiveLinkTo(Some(hash[1..]));
        }
        return;
      }
      var k := 0;
      while k < |sections| && !Straddles(sections[k], innerHeight)
        invariant 0 <= k <= |sections|
        invariant forall i :: 0 <= i < k ==> !Straddles(sections[i], innerHeight)
      {
        k := k + 1;
      }
      if k < |sections| {
        UpdateActiveLinkTo(Some(sections[k].id));
      } else if |sections| > 0 {
        UpdateActiveLinkTo(Some(sections[0].id));
      }
    }

    method DomContentLoaded(hash: string, innerHeight: int)
      modifies this
      ensures links == Loaded(old(links), isHomePage, hash, pageIds, sections, innerHeight)
    {
      if isHomePage && |sections| > 0 {
        ClearAllActiveLinks();
        HandleInitialState(hash, innerHeight);
      }
    }
  }
}
