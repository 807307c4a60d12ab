/**
 * The application shell: the active menu entry and the sidebar, which is
 * collapsed and expanded on a desktop-width window and opened and closed as
 * an overlay on a mobile-width one.
 */
module Shell {

  /** Window widths below this are mobile. */
  const MobileBreakpoint: int := 768

  datatype Shell = Shell(activeMenu: string, sidebarCollapsed: bool, isMobile: bool, sidebarOpen: bool)

  const Initial := Shell("previous-runs", false, false, false)

  /** `checkMobile()` at the given `window.innerWidth` */
  function CheckMobile(s: Shell, width: int): (r: Shell)
    ensures r.isMobile <==> width < MobileBreakpoint
    ensures r.isMobile ==> !r.sidebarCollapsed && !r.sidebarOpen
    ensures !r.isMobile ==> r == s.(isMobile := false)
    ensures r.activeMenu == s.activeMenu
  {
    if width < MobileBreakpoint then s.(isMobile := true, sidebarCollapsed := false, sidebarOpen := false)
    else s.(isMobile := false)
  }

  /** `handleMenuChange(menuId)` */
  function MenuChange(s: Shell, menuId: string): (r: Shell)
    ensures r.activeMenu == menuId
    ensures s.isMobile ==> r == s.(activeMenu := menuId, sidebarOpen := false)
    ensures !s.isMobile ==> r == s.(activeMenu := menuId)
  {
    s.(activeMenu := menuId, sidebarOpen := if s.isMobile then false else s.sidebarOpen)
  }

  /** `toggleSidebar()` */
  function Toggle(s: Shell): (r: Shell)
    ensures s.isMobile ==> r == s.(sidebarOpen := !s.sidebarOpen)
    ensures !s.isMobile ==> r == s.(sidebarCollapsed := !s.sidebarCollapsed)
  {
    if s.isMobile then s.(sidebarOpen := !s.sidebarOpen) else s.(sidebarCollapsed := !s.sidebarCollapsed)
  }

  /** The dimmed overlay is rendered exactly when a mobile sidebar is open. */
  predicate OverlayShown(s: Shell)
    ensures OverlayShown(s) ==> s.isMobile
    ensures Consistent(s) && OverlayShown(s) ==> !s.sidebarCollapsed
  {
    s.isMobile && s.sidebarOpen
  }

  /** Clicking the overlay. */
  function CloseOverlay(s: Shell): (r: Shell)
    ensures !OverlayShown(r) && r == s.(sidebarOpen := false)
  {
    s.(sidebarOpen := false)
  }

  /** Toggling twice in the same mode restores the state. */
  lemma ToggleTwice(s: Shell)
    ensures Toggle(Toggle(s)) == s
  {
  }

  /** The sidebar is never collapsed in mobile mode. */
  predicate Consistent(s: Shell) {
    s.isMobile ==> !s.sidebarCollapsed
  }

  datatype Event = Resize(width: int) | SelectMenu(menuId: string) | ToggleSidebar | ClickOverlay

  function Step(s: Shell, e: Event): Shell {
    match e
    case Resize(w) => CheckMobile(s, w)
    case SelectMenu(id) => MenuChange(s, id)
    case ToggleSidebar => Toggle(s)
    case ClickOverlay => CloseOverlay(s)
  }

  function Run(s: Shell, events: seq<Event>): Shell
    decreases |events|
  {
    if events == [] then s else Run(Step(s, events[0]), events[1..])
  }

  /** From the initial state, no sequence of events collapses the sidebar in mobile mode. */
  lemma {:induction false} RunStaysConsistent(s: Shell, events: seq<Event>)
    requires Consistent(s)
    ensures Consistent(Run(s, events))
    decreases |events|
  {
    if events != [] {
      RunStaysConsistent(Step(s, events[0]), events[1..]);
    }
  }

  class App {
    var activeMenu: string
    var sidebarCollapsed: bool
    var isMobile: bool
    var sidebarOpen: bool

    function State(): Shell
      reads this
    {
      Shell(activeMenu, sidebarCollapsed, isMobile, sidebarOpen)
    }

    ghost predicate Valid()
      reads this
    {
      Consistent(State())
    }

    /** The initial state, before the mount-time `checkMobile`. */
    constructor ()
      ensures Valid() && State() == Initial
    {
      activeMenu := "previous-runs";
      sidebarCollapsed, isMobile, sidebarOpen := false, false, false;
    }

    /** `checkMobile`, run at mount and on every resize. */
    method CheckMobileAt(width: int)
      requires Valid()
      modifies this
      ensures Valid() && State() == CheckMobile(old(State()), width)
    {
      isMobile := width < MobileBreakpoint;
      if width < MobileBreakpoint {
        sidebarCollapsed := false;
        sidebarOpen := false;
      }
    }

    method HandleMenuChange(menuId: string)
      requires Valid()
      modifies this
      ensures Valid() && State() == MenuChange(old(State()), menuId)
    {
      activeMenu := menuId;
      if isMobile {
        sidebarOpen := false;
      }
    }

    method ToggleSidebar()
      requires Valid()
      modifies this
      ensures Valid() && State() == Toggle(old(State()))
    {
      if isMobile {
        sidebarOpen := !sidebarOpen;
      } else {
        sidebarCollapsed := !sidebarCollapsed;
      }
    }

    /** The overlay's click handler; the overlay exists only while a mobile sidebar is open. */
    method ClickOverlay()
      requires Valid() && OverlayShown(State())
      modifies this
      ensures Valid() && State() == CloseOverlay(old(State()))
    {
      sidebarOpen := false;
    }
  }
}
