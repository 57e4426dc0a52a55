/** The navigation bar shown over the apps grid and the contact form: two
    menu items and a logo that request views, a logo text and a profile
    image that depend on the current view, and two state cells, the
    scrolled flag and the image modal. */
module Navigation {
  import opened Wrappers
  import AppView

  datatype NavItem = NavItem(id: string, title: string, target: string)

  /** The menu, in display order. */
  const NavItems: seq<NavItem> := [
    NavItem("apps", "Apps", AppView.AppsView),
    NavItem("contact", "Contact", AppView.ContactView)
  ]

  const FullLogo := "Jonah's Portfolio"
  const ShortLogo := "JO"

  /** The view a menu item requests when clicked, if `onViewChange` was
      passed at all. */
  function ItemClick(item: NavItem, hasCallback: bool): (r: Option<string>)
    ensures r.Some? <==> hasCallback
    ensures r.Some? ==> r.value == item.target
  {
    if hasCallback then Some(item.target) else None
  }

  /** The view the logo text requests when clicked. */
  function LogoClick(hasCallback: bool): (r: Option<string>)
    ensures r.Some? <==> hasCallback
    ensures r.Some? ==> r.value == AppView.AppsView
  {
    if hasCallback then Some(AppView.AppsView) else None
  }

  function LogoText(currentView: string): string {
    if currentView == AppView.AppsView then FullLogo else ShortLogo
  }

  predicate ShowsProfileImage(currentView: string) {
    currentView != AppView.AppsView
  }

  /** The menu has one item for the apps grid and one for the contact form,
      and with a callback each requests its own view. */
  lemma MenuTargets(hasCallback: bool)
    requires hasCallback
    ensures ItemClick(NavItems[0], hasCallback) == Some(AppView.AppsView)
    ensures ItemClick(NavItems[1], hasCallback) == Some(AppView.ContactView)
  {
  }

  /** The bar is rendered only on the apps grid and the contact form; there
      the full logo and the profile image exclude each other: the apps grid
      shows the full name, the contact form the initials and the image. */
  lemma LogoAndImageWhereRendered(s: AppView.AppState)
    requires AppView.ShowsNavigation(s)
    ensures ShowsProfileImage(s.currentView) <==> s.currentView == AppView.ContactView
    ensures LogoText(s.currentView) == FullLogo <==> !ShowsProfileImage(s.currentView)
    ensures LogoText(s.currentView) == ShortLogo <==> ShowsProfileImage(s.currentView)
  {
  }

  /** Every view the bar can request keeps the bar on screen. */
  lemma RequestsKeepTheBar(s: AppView.AppState, item: NavItem)
    requires !s.isLoading && item in NavItems
    ensures AppView.ShowsNavigation(AppView.Step(s, AppView.ViewChange(item.target)))
    ensures AppView.ShowsNavigation(AppView.Step(s, AppView.ViewChange(LogoClick(true).value)))
  {
  }

  /** The bar's two state cells. */
  class NavigationBar {
    var isScrolled: bool
    var imageModalOpen: bool

    constructor ()
      ensures !isScrolled && !imageModalOpen
    {
      isScrolled := false;
      imageModalOpen := false;
    }

    /** The window scroll listener; `scrollY` is the window's offset. */
    method HandleScroll(scrollY: real)
      modifies this
      ensures isScrolled <==> scrollY > 50.0
      ensures imageModalOpen == old(imageModalOpen)
    {
      isScrolled := scrollY > 50.0;
    }

    /** A click on the profile image, which exists only where it is shown. */
    method ClickProfileImage(currentView: string)
      modifies this
      ensures imageModalOpen == (old(imageModalOpen) || ShowsProfileImage(currentView))
      ensures isScrolled == old(isScrolled)
    {
      if ShowsProfileImage(currentView) {
        imageModalOpen := true;
      }
    }

    /** A click on the overlay or on the close button. */
    method CloseImageModal()
      modifies this
      ensures !imageModalOpen
      ensures isScrolled == old(isScrolled)
    {
      imageModalOpen := false;
    }
  }
}
