/** The skeleton section: the head and hands menus, which are never open
    together, and the rib outlines, whose right side mirrors the left about
    the spine at x = 200. */
module Body {

  datatype MenuState = MenuState(headMenuOpen: bool, handsMenuOpen: bool)

  const Closed := MenuState(false, false)

  /** The skull, either arm, either close button, and the "View All
      Projects" option (which closes the menus only when the page has a
      `projects` element to scroll to). */
  datatype MenuEvent = HeadClicked | HandsClicked | CloseClicked | ProjectsLinkClicked(elementPresent: bool)

  function Step(m: MenuState, e: MenuEvent): MenuState {
    match e
    case HeadClicked => MenuState(true, false)
    case HandsClicked => MenuState(false, true)
    case CloseClicked => Closed
    case ProjectsLinkClicked(present) => if present then Closed else m
  }

  function Run(m: MenuState, events: seq<MenuEvent>): MenuState
    decreases |events|
  {
    if events == [] then m else Run(Step(m, events[0]), events[1..])
  }

  predicate Exclusive(m: MenuState) {
    !(m.headMenuOpen && m.handsMenuOpen)
  }

  /** Each event keeps the menus exclusive, and repeating it changes
      nothing. */
  lemma StepSound(m: MenuState, e: MenuEvent)
    requires Exclusive(m)
    ensures Exclusive(Step(m, e))
    ensures Step(Step(m, e), e) == Step(m, e)
  {
  }

  /** From the initial state no sequence of clicks opens both menus. */
  lemma {:induction false} NeverBothOpen(m: MenuState, events: seq<MenuEvent>)
    requires Exclusive(m)
    ensures Exclusive(Run(m, events))
    decreases |events|
  {
    if events != [] {
      StepSound(m, events[0]);
      NeverBothOpen(Step(m, events[0]), events[1..]);
    }
  }

  /** The two state cells. */
  class BodyMenus {
    var headMenuOpen: bool
    var handsMenuOpen: bool

    function State(): MenuState
      reads this
    {
      MenuState(headMenuOpen, handsMenuOpen)
    }

    constructor ()
      ensures State() == Closed
    {
      headMenuOpen := false;
      handsMenuOpen := false;
    }

    method HandleHeadClick()
      modifies this
      ensures State() == Step(old(State()), HeadClicked)
      ensures headMenuOpen && !handsMenuOpen
    {
      headMenuOpen := true;
      handsMenuOpen := false;
    }

    method HandleHandsClick()
      modifies this
      ensures State() == Step(old(State()), HandsClicked)
      ensures handsMenuOpen && !headMenuOpen
    {
      handsMenuOpen := true;
      headMenuOpen := false;
    }

    method CloseMenus()
      modifies this
      ensures State() == Step(old(State()), CloseClicked)
      ensures !headMenuOpen && !handsMenuOpen
    {
      headMenuOpen := false;
      handsMenuOpen := false;
    }

    method ViewAllProjects(elementPresent: bool)
      modifies this
      ensures State() == Step(old(State()), ProjectsLinkClicked(elementPresent))
    {
      if elementPresent {
        CloseMenus();
      }
    }
  }

  // ---- ribs ----

  datatype Point = Point(x: int, y: int)

  /** The five points of rib `i`'s path on the left: the start at the
      spine, then the control and end points of its two curves. */
  function LeftRib(i: int): seq<Point> {
    var y := 200 + i * 10;
    var curve := 20 + i * 3;
    [Point(200, y), Point(200 - curve, y + 8), Point(200 - curve - 15, y + 15),
     Point(200 - curve - 20, y + 20), Point(200 - curve - 15, y + 25)]
  }

  function RightRib(i: int): seq<Point> {
    var y := 200 + i * 10;
    var curve := 20 + i * 3;
    [Point(200, y), Point(200 + curve, y + 8), Point(200 + curve + 15, y + 15),
     Point(200 + curve + 20, y + 20), Point(200 + curve + 15, y + 25)]
  }

  /** Reflection about the spine. */
  function Mirror(p: Point): Point {
    Point(400 - p.x, p.y)
  }

  /** Each right rib is the left rib reflected about x = 200. */
  lemma RibsMirror(i: int)
    ensures |RightRib(i)| == |LeftRib(i)|
    ensures forall k :: 0 <= k < |LeftRib(i)| ==> RightRib(i)[k] == Mirror(LeftRib(i)[k])
  {
  }

  /** The twelve ribs leave the spine sideways, the left ones to the left,
      and stay inside the 400 by 800 view box. */
  lemma RibsInViewBox(i: int)
    requires 0 <= i < 12
    ensures forall k :: 1 <= k < 5 ==> LeftRib(i)[k].x < 200 < RightRib(i)[k].x
    ensures forall k :: 0 <= k < 5 ==> 0 <= LeftRib(i)[k].x && RightRib(i)[k].x <= 400
    ensures forall k :: 0 <= k < 5 ==> 0 <= LeftRib(i)[k].y <= 800
  {
  }
}
