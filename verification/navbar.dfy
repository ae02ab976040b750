/** The navigation bar: the section links with capitalised labels, the
    mobile menu's open/closed flag, and the flag that switches the bar to
    its compact style once the page has scrolled. */
module Navbar {
  import opened JsText

  /** The section ids the bar links to, in display order. */
  const NavItems: seq<string> := ["home", "about", "skills", "projects", "contact"]

  /** The bar goes compact once the vertical scroll offset passes 10 pixels. */
  const ScrollThreshold: real := 10.0

  /** The label shown for a nav item: its first character upper-cased and
      the rest as it is; an empty item gives an empty label. */
  function Capitalize(item: string): (shown: string)
    ensures |shown| == |item|
    ensures |item| > 0 ==> shown[0] == ToUpper(item[0]) && shown[1..] == item[1..]
  {
    if |item| == 0 then "" else [ToUpper(item[0])] + item[1..]
  }

  /** Capitalising a label again changes nothing. */
  lemma CapitalizeIdempotent(item: string)
    ensures Capitalize(Capitalize(item)) == Capitalize(item)
  {
    if |item| > 0 {
      ToUpperIdempotent(item[0]);
    }
  }

  /** The five labels the bar shows. */
  lemma NavLabels()
    ensures |NavItems| == 5
    ensures Capitalize(NavItems[0]) == "Home"
    ensures Capitalize(NavItems[1]) == "About"
    ensures Capitalize(NavItems[2]) == "Skills"
    ensures Capitalize(NavItems[3]) == "Projects"
    ensures Capitalize(NavItems[4]) == "Contact"
  {
  }

  datatype NavState = NavState(scrolled: bool, isOpen: bool)

  const InitialNav := NavState(false, false)

  /** What the bar reacts to: the menu button, a click on a link inside the
      open mobile menu, and a scroll to a new offset. */
  datatype NavEvent = MenuButton | MenuLinkClick | Scrolled(offset: real)

  function Step(s: NavState, e: NavEvent): (r: NavState)
    ensures e == MenuButton ==> r.isOpen != s.isOpen && r.scrolled == s.scrolled
    ensures e == MenuLinkClick ==> !r.isOpen && r.scrolled == s.scrolled
    ensures e.Scrolled? ==> r.isOpen == s.isOpen && (r.scrolled <==> e.offset > ScrollThreshold)
  {
    match e
    case MenuButton => s.(isOpen := !s.isOpen)
    case MenuLinkClick => s.(isOpen := false)
    case Scrolled(offset) => s.(scrolled := offset > ScrollThreshold)
  }

  /** The state after a run of events. */
  function Run(s: NavState, events: seq<NavEvent>): NavState
    decreases |events|
  {
    if |events| == 0 then s else Step(Run(s, events[..|events| - 1]), events[|events| - 1])
  }

  /** Number of menu-button presses in a run. */
  function Presses(events: seq<NavEvent>): nat
    decreases |events|
  {
    if |events| == 0 then 0
    else Presses(events[..|events| - 1]) + (if events[|events| - 1] == MenuButton then 1 else 0)
  }

  /** With no link clicked, the menu is open exactly when it started open
      and was pressed an even number of times, or started closed and was
      pressed an odd number of times; scrolling never moves it. */
  lemma {:induction false} MenuParity(s: NavState, events: seq<NavEvent>)
    requires forall k :: 0 <= k < |events| ==> events[k] != MenuLinkClick
    ensures Run(s, events).isOpen <==> (s.isOpen <==> Presses(events) % 2 == 0)
    decreases |events|
  {
    if |events| > 0 {
      MenuParity(s, events[..|events| - 1]);
    }
  }

  /** A link click closes the menu from either state, and a second click
      changes nothing. */
  lemma CloseIdempotent(s: NavState)
    ensures !Step(s, MenuLinkClick).isOpen
    ensures Step(Step(s, MenuLinkClick), MenuLinkClick) == Step(s, MenuLinkClick)
  {
  }

  /** After any run the compact style reflects the last scroll offset seen. */
  lemma {:induction false} ScrolledTracksLastOffset(s: NavState, events: seq<NavEvent>, k: nat)
    requires k < |events| && events[k].Scrolled?
    requires forall m :: k < m < |events| ==> !events[m].Scrolled?
    ensures Run(s, events).scrolled <==> events[k].offset > ScrollThreshold
    decreases |events|
  {
    if k < |events| - 1 {
      ScrolledTracksLastOffset(s, events[..|events| - 1], k);
    }
  }

  /** A run with no scroll event leaves the compact style as it started. */
  lemma {:induction false} ScrolledUnchangedWithoutScroll(s: NavState, events: seq<NavEvent>)
    requires forall m :: 0 <= m < |events| ==> !events[m].Scrolled?
    ensures Run(s, events).scrolled == s.scrolled
    decreases |events|
  {
    if |events| > 0 {
      ScrolledUnchangedWithoutScroll(s, events[..|events| - 1]);
    }
  }
}
