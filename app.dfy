/** The view controller of the root component: two state cells,
    `isLoading` and `currentView`, three handlers that overwrite them, and
    the conditions under which the loading screen, the navigation bar, the
    back button and each section are rendered. */
module AppView {

  const AppsView := "apps"
  const JeremiahView := "jeremiah"
  const ProjectsView := "projects"
  const OrganizationsView := "organizations"
  const ContactView := "contact"

  /** The five sections the controller can render. */
  datatype Section = AppsSection | JeremiahSection | ProjectsSection | OrganizationsSection | ContactSection

  /** The view name under which each section is rendered. */
  function SectionView(sec: Section): string {
    match sec
    case AppsSection => AppsView
    case JeremiahSection => JeremiahView
    case ProjectsSection => ProjectsView
    case OrganizationsSection => OrganizationsView
    case ContactSection => ContactView
  }

  /** A view name some section answers to. Any other string is accepted by
      the controller too; it then renders no section. */
  predicate IsKnownView(v: string) {
    v == AppsView || v == JeremiahView || v == ProjectsView || v == OrganizationsView || v == ContactView
  }

  datatype AppState = AppState(isLoading: bool, currentView: string)

  const Initial := AppState(true, JeremiahView)

  /** The three ways the state changes: the loading screen's completion
      callback, a view request from any child, and the back button. */
  datatype AppEvent = LoadingComplete | ViewChange(view: string) | Back

  function Step(s: AppState, e: AppEvent): AppState {
    match e
    case LoadingComplete => s.(isLoading := false)
    case ViewChange(v) => s.(currentView := v)
    case Back => s.(currentView := AppsView)
  }

  /** The state after a sequence of events, first event first. */
  function Run(s: AppState, events: seq<AppEvent>): AppState
    decreases |events|
  {
    if events == [] then s else Run(Step(s, events[0]), events[1..])
  }

  predicate ShowsLoadingScreen(s: AppState) {
    s.isLoading
  }

  predicate ShowsNavigation(s: AppState) {
    !s.isLoading && (s.currentView == AppsView || s.currentView == ContactView)
  }

  predicate ShowsBackButton(s: AppState) {
    !s.isLoading && s.currentView != AppsView && s.currentView != JeremiahView
  }

  /** The sections rendered, in the order the five conditions are written. */
  function RenderedSections(s: AppState): (r: seq<Section>)
    ensures |r| <= 1
    ensures |r| == 1 <==> !s.isLoading && IsKnownView(s.currentView)
    ensures |r| == 1 ==> SectionView(r[0]) == s.currentView
  {
    if s.isLoading then []
    else
      (if s.currentView == AppsView then [AppsSection] else [])
      + (if s.currentView == JeremiahView then [JeremiahSection] else [])
      + (if s.currentView == ProjectsView then [ProjectsSection] else [])
      + (if s.currentView == OrganizationsView then [OrganizationsSection] else [])
      + (if s.currentView == ContactView then [ContactSection] else [])
  }

  /** While the loading screen is up, nothing else renders. */
  lemma NothingBehindLoadingScreen(s: AppState)
    requires ShowsLoadingScreen(s)
    ensures !ShowsNavigation(s) && !ShowsBackButton(s) && RenderedSections(s) == []
  {
  }

  /** The chrome around each section once loading is over: the landing
      section has neither navigation nor back button, the apps grid only
      navigation, the contact form both, the two content pages only the back
      button. */
  lemma ChromePerView(s: AppState)
    requires !s.isLoading
    ensures s.currentView == JeremiahView ==> !ShowsNavigation(s) && !ShowsBackButton(s)
    ensures s.currentView == AppsView ==> ShowsNavigation(s) && !ShowsBackButton(s)
    ensures s.currentView == ContactView ==> ShowsNavigation(s) && ShowsBackButton(s)
    ensures s.currentView == ProjectsView || s.currentView == OrganizationsView ==>
              !ShowsNavigation(s) && ShowsBackButton(s)
  {
  }

  /** Every view change is accepted, whatever the current view: there is no
      transition table. */
  lemma ViewChangeTotal(s: AppState, v: string)
    ensures Step(s, ViewChange(v)) == AppState(s.isLoading, v)
  {
  }

  /** Pressing the back button always lands on the apps grid, which shows
      the navigation bar and no back button. */
  lemma BackLandsOnApps(s: AppState)
    requires ShowsBackButton(s)
    ensures Step(s, Back).currentView == AppsView
    ensures ShowsNavigation(Step(s, Back)) && !ShowsBackButton(Step(s, Back))
    ensures RenderedSections(Step(s, Back)) == [AppsSection]
  {
  }

  /** Running one more event is one more step. */
  lemma {:induction false} RunSnoc(s: AppState, events: seq<AppEvent>, e: AppEvent)
    ensures Run(s, events + [e]) == Step(Run(s, events), e)
    decreases |events|
  {
    if events == [] {
      assert [] + [e] == [e];
    } else {
      assert (events + [e])[0] == events[0];
      assert (events + [e])[1..] == events[1..] + [e];
      RunSnoc(Step(s, events[0]), events[1..], e);
    }
  }

  /** Once the loading flag is down it stays down: no event raises it. */
  lemma {:induction false} LoadingIrreversible(s: AppState, events: seq<AppEvent>)
    requires !s.isLoading
    ensures !Run(s, events).isLoading
    decreases |events|
  {
    if events != [] {
      LoadingIrreversible(Step(s, events[0]), events[1..]);
    }
  }

  /** The view named by the most recent view change or back press, or `v`
      when there was none. */
  function LastTarget(v: string, events: seq<AppEvent>): string {
    if events == [] then v
    else match events[|events| - 1]
      case ViewChange(w) => w
      case Back => AppsView
      case LoadingComplete => LastTarget(v, events[..|events| - 1])
  }

  /** The current view is always the most recent request. */
  lemma {:induction false} ViewIsLastTarget(s: AppState, events: seq<AppEvent>)
    ensures Run(s, events).currentView == LastTarget(s.currentView, events)
    decreases |events|
  {
    if events != [] {
      var init := events[..|events| - 1];
      assert init + [events[|events| - 1]] == events;
      RunSnoc(s, init, events[|events| - 1]);
      ViewIsLastTarget(s, init);
    }
  }

  /** After loading has completed, a request for a known view leaves
      exactly that view's section on screen, whatever came before. */
  lemma LastRequestIsTheOneSection(events: seq<AppEvent>, v: string)
    requires LoadingComplete in events
    requires IsKnownView(v)
    ensures |RenderedSections(Run(Initial, events + [ViewChange(v)]))| == 1
    ensures SectionView(RenderedSections(Run(Initial, events + [ViewChange(v)]))[0]) == v
  {
    var i :| 0 <= i < |events| && events[i] == LoadingComplete;
    assert events == events[..i] + [LoadingComplete] + events[i + 1..];
    RunSnoc(Initial, events[..i], LoadingComplete);
    assert !Run(Initial, events[..i + 1]).isLoading by {
      assert events[..i + 1] == events[..i] + [LoadingComplete];
    }
    RunAppend(Initial, events[..i + 1], events[i + 1..]);
    assert events[..i + 1] + events[i + 1..] == events;
    LoadingIrreversible(Run(Initial, events[..i + 1]), events[i + 1..]);
    RunSnoc(Initial, events, ViewChange(v));
  }

  /** Running two sequences one after the other. */
  lemma {:induction false} RunAppend(s: AppState, a: seq<AppEvent>, b: seq<AppEvent>)
    ensures Run(s, a + b) == Run(Run(s, a), b)
    decreases |a|
  {
    if a == [] {
      assert a + b == b;
    } else {
      assert (a + b)[0] == a[0];
      assert (a + b)[1..] == a[1..] + b;
      RunAppend(Step(s, a[0]), a[1..], b);
    }
  }

  /** The root component's two state cells. */
  class App {
    var isLoading: bool
    var currentView: string

    function State(): AppState
      reads this
    {
      AppState(isLoading, currentView)
    }

    constructor ()
      ensures State() == Initial
      ensures ShowsLoadingScreen(State())
    {
      isLoading := true;
      currentView := JeremiahView;
    }

    method HandleLoadingComplete()
      modifies this
      ensures State() == Step(old(State()), LoadingComplete)
      ensures !isLoading && currentView == old(currentView)
    {
      isLoading := false;
    }

    method HandleViewChange(view: string)
      modifies this
      ensures State() == Step(old(State()), ViewChange(view))
      ensures currentView == view && isLoading == old(isLoading)
    {
      currentView := view;
    }

    method HandleBack()
      modifies this
      ensures State() == Step(old(State()), Back)
      ensures currentView == AppsView && isLoading == old(isLoading)
    {
      currentView := AppsView;
    }
  }
}
