/**
 * The mobile menu: a slide-in panel that is open or closed, shown through
 * CSS classes on the panel, its overlay and the body, mirrored in the menu
 * button's `aria-expanded`, with a remembered focus target, a Tab/Shift+Tab
 * focus trap and an Escape key listener that exist only while it is open.
 */
module MobileMenu {
  import opened Wrappers

  const MenuOpen: string := "translate-x-0"
  const MenuClosed: string := "translate-x-full"
  const OverlayVisible: string := "block"
  const OverlayHidden: string := "hidden"
  const BodyNoScroll: string := "overflow-hidden"

  /** The resize rule closes the menu from this window width on. */
  const DesktopWidth: int := 768

  /** An element that can hold focus; closeMenu gives focus back only to an HTMLElement. */
  datatype Node = Html(id: nat) | NonHtml(id: nat)

  datatype Key = Tab | Escape | OtherKey

  /** The part of the document the menu script reads and writes. */
  datatype Menu = Menu(
    menu: set<string>,            // classes of #mobile-menu
    overlay: set<string>,         // classes of #menu-overlay
    body: set<string>,            // classes of document.body
    ariaExpanded: Option<string>, // aria-expanded of #menu-button
    active: Option<Node>,         // document.activeElement
    previous: Option<Node>,       // previousActiveElement
    listening: bool)              // handleKeyDown and trapFocus are installed

  /** What reaches the menu: the three click targets that close it, keys, and a settled resize. */
  datatype Event =
    | MenuButtonClick
    | CloseButtonClick
    | OverlayClick
    | MenuLinkClick
    | KeyPress(key: Key, shift: bool, insideMenu: bool)
    | ResizeSettled(width: int)

  /** The page as it is served: the menu closed, nothing remembered, no listener. */
  predicate IsClosed(m: Menu) {
    && MenuOpen !in m.menu && MenuClosed in m.menu
    && OverlayVisible !in m.overlay && OverlayHidden in m.overlay
    && BodyNoScroll !in m.body
    && m.ariaExpanded == Some("false")
    && !m.listening
  }

  /** aria-expanded says "true" exactly when the panel is slid in. */
  predicate AriaMirrorsMenu(m: Menu) {
    m.ariaExpanded == Some("true") <==> MenuOpen in m.menu
  }

  /** The key listeners are installed exactly while the panel is slid in. */
  predicate ListeningWhileOpen(m: Menu) {
    m.listening <==> MenuOpen in m.menu
  }

  /** openMenu, step by step. */
  function Open(m: Menu, closeButton: Node): (r: Menu)
    ensures MenuOpen in r.menu && MenuClosed !in r.menu
    ensures OverlayVisible in r.overlay && OverlayHidden !in r.overlay
    ensures BodyNoScroll in r.body
    ensures r.ariaExpanded == Some("true")
    ensures r.previous == m.active && r.active == Some(closeButton) && r.listening
    ensures r.menu - {MenuOpen, MenuClosed} == m.menu - {MenuOpen, MenuClosed}
    ensures r.overlay - {OverlayVisible, OverlayHidden} == m.overlay - {OverlayVisible, OverlayHidden}
    ensures r.body - {BodyNoScroll} == m.body - {BodyNoScroll}
  {
    var recorded := m.(previous := m.active);
    var shown := recorded.(
      menu := recorded.menu - {MenuClosed} + {MenuOpen},
      overlay := recorded.overlay - {OverlayHidden} + {OverlayVisible},
      body := recorded.body + {BodyNoScroll});
    shown.(ariaExpanded := Some("true"), active := Some(closeButton), listening := true)
  }

  /** Where closeMenu leaves focus: back on the remembered element if it is an HTMLElement. */
  function RestoredFocus(m: Menu): Option<Node> {
    if m.previous.Some? && m.previous.value.Html? then m.previous else m.active
  }

  /** closeMenu, step by step. */
  function Close(m: Menu): (r: Menu)
    ensures MenuOpen !in r.menu && MenuClosed in r.menu
    ensures OverlayVisible !in r.overlay && OverlayHidden in r.overlay
    ensures BodyNoScroll !in r.body
    ensures r.ariaExpanded == Some("false")
    ensures !r.listening && r.previous == m.previous
    ensures m.previous.Some? && m.previous.value.Html? ==> r.active == m.previous
    ensures !(m.previous.Some? && m.previous.value.Html?) ==> r.active == m.active
    ensures r.menu - {MenuOpen, MenuClosed} == m.menu - {MenuOpen, MenuClosed}
    ensures r.overlay - {OverlayVisible, OverlayHidden} == m.overlay - {OverlayVisible, OverlayHidden}
    ensures r.body - {BodyNoScroll} == m.body - {BodyNoScroll}
  {
    var hidden := m.(
      menu := m.menu - {MenuOpen} + {MenuClosed},
      overlay := m.overlay - {OverlayVisible} + {OverlayHidden},
      body := m.body - {BodyNoScroll});
    var unhooked := hidden.(ariaExpanded := Some("false"), listening := false);
    unhooked.(active := RestoredFocus(unhooked))
  }

  /** trapFocus: wrap Tab from the last focusable element and Shift+Tab from the first. */
  function TrapFocus(m: Menu, key: Key, shift: bool, focusables: seq<Node>): (r: Menu)
    ensures r == m || r == m.(active := r.active)
    ensures MenuOpen !in m.menu || key != Tab || focusables == [] ==> r == m
    ensures MenuOpen in m.menu && key == Tab && focusables != [] ==>
      && (shift && m.active == Some(focusables[0]) ==> r.active == Some(focusables[|focusables| - 1]))
      && (!shift && m.active == Some(focusables[|focusables| - 1]) ==> r.active == Some(focusables[0]))
      && (!(shift && m.active == Some(focusables[0])) && !(!shift && m.active == Some(focusables[|focusables| - 1])) ==> r == m)
    ensures r.active != m.active ==> r.active.Some? && r.active.value in focusables
  {
    if MenuOpen !in m.menu || focusables == [] then m
    else if key == Tab then
      var first, last := focusables[0], focusables[|focusables| - 1];
      if shift then
        if m.active == Some(first) then m.(active := Some(last)) else m
      else
        if m.active == Some(last) then m.(active := Some(first)) else m
    else m
  }

  /**
   * A keydown: nothing listens while the menu is closed; inside the menu the
   * trap sees it first, then the document's Escape handler.
   */
  function KeyDown(m: Menu, key: Key, shift: bool, insideMenu: bool, focusables: seq<Node>): (r: Menu)
    ensures !m.listening ==> r == m
    ensures m.listening && key == Escape ==> r == Close(m)
    ensures m.listening && key != Escape ==> r == (if insideMenu then TrapFocus(m, key, shift, focusables) else m)
  {
    if !m.listening then m
    else
      var trapped := if insideMenu then TrapFocus(m, key, shift, focusables) else m;
      if key == Escape then Close(trapped) else trapped
  }

  /** The check inside the debounced resize handler. */
  function Resized(m: Menu, width: int): (r: Menu)
    ensures width >= DesktopWidth && MenuOpen in m.menu ==> r == Close(m)
    ensures !(width >= DesktopWidth && MenuOpen in m.menu) ==> r == m
  {
    if width >= DesktopWidth && MenuOpen in m.menu then Close(m) else m
  }

  function Apply(m: Menu, e: Event, closeButton: Node, focusables: seq<Node>): Menu {
    match e
    case MenuButtonClick => Open(m, closeButton)
    case CloseButtonClick => Close(m)
    case OverlayClick => Close(m)
    case MenuLinkClick => Close(m)
    case KeyPress(key, shift, inside) => KeyDown(m, key, shift, inside, focusables)
    case ResizeSettled(width) => Resized(m, width)
  }

  function Run(m: Menu, es: seq<Event>, closeButton: Node, focusables: seq<Node>): Menu
    decreases |es|
  {
    if es == [] then m else Run(Apply(m, es[0], closeButton, focusables), es[1..], closeButton, focusables)
  }

  // ---------------------------------------------------------------- lemmas

  /** From the served page, opening then closing restores every class, aria-expanded and the focus. */
  lemma OpenCloseRoundTrip(m: Menu, closeButton: Node)
    requires IsClosed(m)
    ensures var r := Close(Open(m, closeButton));
      && r.menu == m.menu && r.overlay == m.overlay && r.body == m.body
      && r.ariaExpanded == m.ariaExpanded && r.listening == m.listening
      && (m.active.Some? && m.active.value.Html? ==> r.active == m.active)
  {
    var r := Close(Open(m, closeButton));
    assert r.menu == m.menu by {
      assert r.menu - {MenuOpen, MenuClosed} == m.menu - {MenuOpen, MenuClosed};
    }
    assert r.overlay == m.overlay by {
      assert r.overlay - {OverlayVisible, OverlayHidden} == m.overlay - {OverlayVisible, OverlayHidden};
    }
    assert r.body == m.body by {
      assert r.body - {BodyNoScroll} == m.body - {BodyNoScroll};
    }
  }

  /**
   * Opening twice leaves the same classes and attributes as opening once,
   * but the second open remembers the close button instead of the element
   * focused before the menu opened. Closing twice is closing once.
   */
  lemma RepeatedOpenClose(m: Menu, closeButton: Node)
    ensures var once, twice := Open(m, closeButton), Open(Open(m, closeButton), closeButton);
      && twice == once.(previous := Some(closeButton))
    ensures Close(Close(m)) == Close(m)
  {
  }

  /** Under any sequence of events aria-expanded mirrors the panel's position. */
  lemma {:induction false} RunMirrorsAria(m: Menu, es: seq<Event>, closeButton: Node, focusables: seq<Node>)
    requires AriaMirrorsMenu(m)
    ensures AriaMirrorsMenu(Run(m, es, closeButton, focusables))
    decreases |es|
  {
    if es != [] {
      var next := Apply(m, es[0], closeButton, focusables);
      assert AriaMirrorsMenu(next);
      RunMirrorsAria(next, es[1..], closeButton, focusables);
    }
  }

  /** Under any sequence of events the key listeners exist exactly while the menu is open. */
  lemma {:induction false} RunListensWhileOpen(m: Menu, es: seq<Event>, closeButton: Node, focusables: seq<Node>)
    requires ListeningWhileOpen(m)
    ensures ListeningWhileOpen(Run(m, es, closeButton, focusables))
    decreases |es|
  {
    if es != [] {
      var next := Apply(m, es[0], closeButton, focusables);
      assert ListeningWhileOpen(next);
      RunListensWhileOpen(next, es[1..], closeButton, focusables);
    }
  }

  /** Escape closes an open menu and does nothing to a closed one. */
  lemma EscapeClosesOnlyOpenMenu(m: Menu, shift: bool, inside: bool, focusables: seq<Node>)
    requires ListeningWhileOpen(m)
    ensures MenuOpen in m.menu ==> MenuOpen !in KeyDown(m, Escape, shift, inside, focusables).menu
    ensures MenuOpen !in m.menu ==> KeyDown(m, Escape, shift, inside, focusables) == m
  {
  }

  /** With the menu open, Tab from the last element and Shift+Tab from the first stay inside the menu. */
  lemma TrapKeepsFocusInside(m: Menu, shift: bool, focusables: seq<Node>)
    requires MenuOpen in m.menu && focusables != []
    requires m.active.Some? && m.active.value in focusables
    ensures var r := TrapFocus(m, Tab, shift, focusables); r.active.Some? && r.active.value in focusables
  {
  }

  // ---------------------------------------------------------------- the controller

  class MobileMenuController {
    var menuClasses: set<string>
    var overlayClasses: set<string>
    var bodyClasses: set<string>
    var ariaExpanded: Option<string>
    var activeElement: Option<Node>
    var previousActiveElement: Option<Node>
    var listening: bool
    const closeButton: Node
    const focusables: seq<Node>   // the focusable elements inside the menu, in document order

    ghost function View(): Menu
      reads this
    {
      Menu(menuClasses, overlayClasses, bodyClasses, ariaExpanded, activeElement, previousActiveElement, listening)
    }

    constructor (page: Menu, close: Node, inside: seq<Node>)
      ensures View() == page && closeButton == close && focusables == inside
    {
      menuClasses, overlayClasses, bodyClasses := page.menu, page.overlay, page.body;
      ariaExpanded, activeElement := page.ariaExpanded, page.active;
      previousActiveElement, listening := page.previous, page.listening;
      closeButton, focusables := close, inside;
    }

    method OpenMenu()
      modifies this
      ensures View() == Open(old(View()), closeButton)
    {
      previousActiveElement := activeElement;
      menuClasses := menuClasses - {MenuClosed};
      menuClasses := menuClasses + {MenuOpen};
      overlayClasses := overlayClasses - {OverlayHidden};
      overlayClasses := overlayClasses + {OverlayVisible};
      bodyClasses := bodyClasses + {BodyNoScroll};
      ariaExpanded := Some("true");
      activeElement := Some(closeButton);
      listening := true;
    }

    method CloseMenu()
      modifies this
      ensures View() == Close(old(View()))
    {
      menuClasses := menuClasses - {MenuOpen};
      menuClasses := menuClasses + {MenuClosed};
      overlayClasses := overlayClasses - {OverlayVisible};
      overlayClasses := overlayClasses + {OverlayHidden};
      bodyClasses := bodyClasses - {BodyNoScroll};
      ariaExpanded := Some("false");
      listening := false;
      if previousActiveElement.Some? && previousActiveElement.value.Html? {
        activeElement := previousActiveElement;
      }
    }

    method TrapFocusListener(key: Key, shift: bool)
      modifies this
      ensures View() == TrapFocus(old(View()), key, shift, focusables)
    {
      if MenuOpen !in menuClasses {
        return;
      }
      if focusables == [] {
        return;
      }
      var first, last := focusables[0], focusables[|focusables| - 1];
      if key == Tab {
        if shift {
          if activeElement == Some(first) {
            activeElement := Some(last);
          }
        } else {
          if activeElement == Some(last) {
            activeElement := Some(first);
          }
        }
      }
    }

    /** A keydown reaching the listeners that are installed at the moment. */
    method DispatchKeyDown(key: Key, shift: bool, insideMenu: bool)
      modifies this
      ensures View() == KeyDown(old(View()), key, shift, insideMenu, focusables)
    {
      if !listening {
        return;
      }
      if insideMenu {
        TrapFocusListener(key, shift);
      }
      if key == Escape {
        CloseMenu();
      }
    }

    /** The body of the debounced resize handler, with window.innerWidth as input. */
    method ResizeCheck(width: int)
      modifies this
      ensures View() == Resized(old(View()), width)
    {
      if width >= DesktopWidth && MenuOpen in menuClasses {
        CloseMenu();
      }
    }
  }
}
