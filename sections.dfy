/**
 * The pair of collapsible cards under a comparison panel: the chart (or
 * trends) card first, the analysis card second. Clicking a collapsed header
 * opens that card and collapses the other; clicking an open header collapses
 * that card alone.
 */
module Sections {

  datatype Sections = Sections(firstCollapsed: bool, secondCollapsed: bool)

  datatype Header = First | Second

  /** Chart open, analysis collapsed. */
  const Initial := Sections(false, true)

  /** At most one of the two cards is open. */
  predicate Exclusive(s: Sections) {
    s.firstCollapsed || s.secondCollapsed
  }

  function ClickFirst(s: Sections): (r: Sections)
    ensures Exclusive(r)
    ensures s.firstCollapsed ==> !r.firstCollapsed && r.secondCollapsed        // opening closes the other
    ensures !s.firstCollapsed ==> r.firstCollapsed && r.secondCollapsed == s.secondCollapsed  // closing touches nothing else
  {
    if s.firstCollapsed then Sections(false, true) else s.(firstCollapsed := true)
  }

  function ClickSecond(s: Sections): (r: Sections)
    ensures Exclusive(r)
    ensures s.secondCollapsed ==> !r.secondCollapsed && r.firstCollapsed
    ensures !s.secondCollapsed ==> r.secondCollapsed && r.firstCollapsed == s.firstCollapsed
  {
    if s.secondCollapsed then Sections(true, false) else s.(secondCollapsed := true)
  }

  function Click(s: Sections, h: Header): Sections {
    match h
    case First => ClickFirst(s)
    case Second => ClickSecond(s)
  }

  /** The state after a sequence of header clicks. */
  function Run(s: Sections, clicks: seq<Header>): Sections
    decreases |clicks|
  {
    if clicks == [] then s else Run(Click(s, clicks[0]), clicks[1..])
  }

  /** From the initial state, no sequence of clicks opens both cards. */
  lemma {:induction false} RunStaysExclusive(s: Sections, clicks: seq<Header>)
    requires Exclusive(s)
    ensures Exclusive(Run(s, clicks))
    decreases |clicks|
  {
    if clicks != [] {
      RunStaysExclusive(Click(s, clicks[0]), clicks[1..]);
    }
  }

  /** Clicking an open header twice reopens it and leaves the other card collapsed. */
  lemma ReopenFirst(s: Sections)
    requires Exclusive(s) && !s.firstCollapsed
    ensures ClickFirst(ClickFirst(s)) == s
  {
  }
}
