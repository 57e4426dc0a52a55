/** The tile grid of the apps view: a fixed registry of tile descriptors
    and the click dispatch that turns one descriptor into exactly one
    action. The finger menu of the hand scene reuses the same descriptor
    shape (see `Hand3D`). */
module Tiles {
  import opened Wrappers
  import opened Text

  /** A tile descriptor: an external link (`external` with a `url`) or an
      internal navigation target (`view`). */
  datatype Tile = Tile(id: string, name: string, url: Option<string>, external: bool, view: Option<string>)

  /** What a click does: open a new browsing context, hand a URL to the
      location (a `mailto:` link), request a view change, or nothing. */
  datatype Action = OpenWindow(url: string) | SetLocation(url: string) | RequestView(view: string) | NoAction

  const GitHubUrl := "https://github.com/jonahortega"
  const LinkedInUrl := "https://www.linkedin.com/in/jonah-ortega"
  const MailUrl := "mailto:jonahortega7@me.com"

  function ExternalTile(id: string, name: string, url: string): Tile {
    Tile(id, name, Some(url), true, None)
  }

  function ViewTile(id: string, name: string, view: string): Tile {
    Tile(id, name, None, false, Some(view))
  }

  /** The registry, in display order. */
  function AppTiles(): seq<Tile> {
    [ ExternalTile("github", "GitHub", GitHubUrl),
      ExternalTile("linkedin", "LinkedIn", LinkedInUrl),
      ExternalTile("email", "Email", MailUrl),
      ViewTile("projects", "Projects", "projects"),
      ViewTile("organizations", "Organizations", "organizations") ]
  }

  /** JavaScript truthiness of an optional string. */
  predicate Truthy(o: Option<string>) {
    o.Some? && o.value != ""
  }

  /** The click handler; `hasCallback` says whether `onViewChange` was
      passed. Each action names its own cause. */
  function Dispatch(tile: Tile, hasCallback: bool): (a: Action)
    ensures a.OpenWindow? ==> tile.external && tile.url == Some(a.url) && StartsWith(a.url, "http")
    ensures a.SetLocation? ==>
              tile.external && tile.url == Some(a.url) && StartsWith(a.url, "mailto") && !StartsWith(a.url, "http")
    ensures a.RequestView? ==> !tile.external && hasCallback && tile.view == Some(a.view) && a.view != ""
  {
    if tile.external then
      if Truthy(tile.url) && StartsWith(tile.url.value, "http") then OpenWindow(tile.url.value)
      else if Truthy(tile.url) && StartsWith(tile.url.value, "mailto") then SetLocation(tile.url.value)
      else NoAction
    else if Truthy(tile.view) && hasCallback then RequestView(tile.view.value)
    else NoAction
  }

  /** The converse: each cause does produce its action, so an external
      tile never requests a view and an internal one never leaves the page. */
  lemma DispatchComplete(tile: Tile, hasCallback: bool)
    ensures tile.external && tile.url.Some? && StartsWith(tile.url.value, "http") ==>
              Dispatch(tile, hasCallback) == OpenWindow(tile.url.value)
    ensures tile.external && tile.url.Some? && !StartsWith(tile.url.value, "http")
              && StartsWith(tile.url.value, "mailto") ==>
              Dispatch(tile, hasCallback) == SetLocation(tile.url.value)
    ensures !tile.external && Truthy(tile.view) && hasCallback ==>
              Dispatch(tile, hasCallback) == RequestView(tile.view.value)
    ensures tile.external ==> !Dispatch(tile, hasCallback).RequestView?
    ensures !tile.external ==> Dispatch(tile, hasCallback).RequestView? || Dispatch(tile, hasCallback) == NoAction
  {
  }

  /** An external URL of another scheme, or an internal tile without a
      callback, does nothing. */
  lemma DispatchNoAction(tile: Tile, hasCallback: bool)
    ensures tile.external && (tile.url.None? ||
              (!StartsWith(tile.url.value, "http") && !StartsWith(tile.url.value, "mailto"))) ==>
              Dispatch(tile, hasCallback) == NoAction
    ensures !tile.external && !hasCallback ==> Dispatch(tile, hasCallback) == NoAction
  {
  }

  /** The registry has five tiles with distinct ids; every external tile
      has a URL, every internal one targets `projects` or `organizations`;
      and with a callback present every tile does something. */
  lemma RegistryWellFormed()
    ensures |AppTiles()| == 5
    ensures forall i, j :: 0 <= i < j < |AppTiles()| ==> AppTiles()[i].id != AppTiles()[j].id
    ensures forall t :: t in AppTiles() && t.external ==> t.url.Some?
    ensures forall t :: t in AppTiles() && !t.external ==>
              t.view == Some("projects") || t.view == Some("organizations")
    ensures forall t :: t in AppTiles() ==> Dispatch(t, true) != NoAction
  {
    var ts := AppTiles();
    assert StartsWith(GitHubUrl, "http") && StartsWith(LinkedInUrl, "http");
    assert MailUrl[..4][0] == 'm';
    assert !StartsWith(MailUrl, "http") && StartsWith(MailUrl, "mailto");
    forall t | t in ts ensures Dispatch(t, true) != NoAction {
      assert t == ts[0] || t == ts[1] || t == ts[2] || t == ts[3] || t == ts[4];
    }
  }

  /** What each tile does when clicked with a callback present. */
  lemma RegistryActions()
    ensures Dispatch(AppTiles()[0], true) == OpenWindow(GitHubUrl)
    ensures Dispatch(AppTiles()[1], true) == OpenWindow(LinkedInUrl)
    ensures Dispatch(AppTiles()[2], true) == SetLocation(MailUrl)
    ensures Dispatch(AppTiles()[3], true) == RequestView("projects")
    ensures Dispatch(AppTiles()[4], true) == RequestView("organizations")
  {
    assert StartsWith(GitHubUrl, "http") && StartsWith(LinkedInUrl, "http");
    assert MailUrl[..4][0] == 'm';
    assert !StartsWith(MailUrl, "http") && StartsWith(MailUrl, "mailto");
  }
}
