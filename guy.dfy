/** The alternative computer scene: screen detection by mesh name (or a
    geometric guess), the all-clickable fallback, the click decision with
    its screen-space rectangle, and the hover tracker that emphasises the
    screen under the pointer. */
module Guy {
  import opened Wrappers
  import opened Text
  import opened Scene
  import AppView

  /** The words that make a mesh name a screen's. */
  const ScreenWords: seq<string> := ["screen", "monitor", "display", "laptop", "computer", "desktop"]

  predicate IsScreenName(name: string) {
    exists w :: w in ScreenWords && Contains(ToLower(name), w)
  }

  // ---- load-time tagging ----

  /** Mesh `i` of the model is detected as a screen: by its name, or by the
      geometric guess `looksLikeScreen[i]`. */
  predicate Detected(s: seq<Node>, looksLikeScreen: seq<bool>, i: nat)
    requires ValidScene(s) && |looksLikeScreen| == |s| && i < |s|
  {
    InModel(s, i) && s[i].isMesh && (IsScreenName(s[i].name) || looksLikeScreen[i])
  }

  predicate AnyDetected(s: seq<Node>, looksLikeScreen: seq<bool>)
    requires ValidScene(s) && |looksLikeScreen| == |s|
  {
    exists i :: 0 <= i < |s| && Detected(s, looksLikeScreen, i)
  }

  function AsScreen(n: Node): Node {
    n.(userData := n.userData.(clickable := true, isScreen := true))
  }

  function AsClickable(n: Node): Node {
    n.(userData := n.userData.(clickable := true))
  }

  /** The model after loading: detected screens tagged; when there are
      none, every mesh of the model made clickable instead. */
  function Tagged(s: seq<Node>, looksLikeScreen: seq<bool>): (r: seq<Node>)
    requires ValidScene(s) && |looksLikeScreen| == |s|
    ensures SameShape(s, r)
  {
    if AnyDetected(s, looksLikeScreen) then
      seq(|s|, i requires 0 <= i < |s| => if Detected(s, looksLikeScreen, i) then AsScreen(s[i]) else s[i])
    else
      seq(|s|, i requires 0 <= i < |s| => if InModel(s, i) && s[i].isMesh then AsClickable(s[i]) else s[i])
  }

  /** The two traversals of the load callback; the result is
      `screenMeshes`, in traversal order. */
  method TagScreens(nodes: array<Node>, looksLikeScreen: seq<bool>) returns (screenMeshes: seq<nat>)
    requires ValidScene(nodes[..]) && |looksLikeScreen| == nodes.Length
    modifies nodes
    ensures nodes[..] == Tagged(old(nodes[..]), looksLikeScreen)
    ensures forall j :: j in screenMeshes ==> j < nodes.Length
    ensures forall j :: 0 <= j < nodes.Length ==> (j in screenMeshes <==> Detected(old(nodes[..]), looksLikeScreen, j))
    ensures forall a, b :: 0 <= a < b < |screenMeshes| ==> screenMeshes[a] < screenMeshes[b]
  {
    var t := nodes[..];
    screenMeshes := [];
    for i := 0 to nodes.Length
      invariant forall j :: 0 <= j < i ==> nodes[j] == if Detected(t, looksLikeScreen, j) then AsScreen(t[j]) else t[j]
      invariant forall j :: i <= j < nodes.Length ==> nodes[j] == t[j]
      invariant forall j :: j in screenMeshes ==> j < i
      invariant forall a :: 0 <= a < |screenMeshes| ==> screenMeshes[a] < i
      invariant forall j :: 0 <= j < i ==> (j in screenMeshes <==> Detected(t, looksLikeScreen, j))
      invariant forall a, b :: 0 <= a < b < |screenMeshes| ==> screenMeshes[a] < screenMeshes[b]
    {
      if InModel(t, i) && t[i].isMesh && (IsScreenName(t[i].name) || looksLikeScreen[i]) {
        nodes[i] := AsScreen(t[i]);
        screenMeshes := screenMeshes + [i];
      }
    }
    if |screenMeshes| == 0 {
      assert nodes[..] == t;
      for i := 0 to nodes.Length
        invariant forall j :: 0 <= j < i ==> nodes[j] == if InModel(t, j) && t[j].isMesh then AsClickable(t[j]) else t[j]
        invariant forall j :: i <= j < nodes.Length ==> nodes[j] == t[j]
      {
        if InModel(t, i) && t[i].isMesh {
          nodes[i] := AsClickable(t[i]);
        }
      }
    } else {
      assert screenMeshes[0] in screenMeshes;
    }
  }

  /** After loading, a node is tagged as a screen exactly when it was or it
      was detected; when something was detected, nothing else changes;
      when nothing was, every mesh of the model is clickable. */
  lemma TaggingOutcome(s: seq<Node>, looksLikeScreen: seq<bool>, i: nat)
    requires ValidScene(s) && |looksLikeScreen| == |s| && i < |s|
    ensures Tagged(s, looksLikeScreen)[i].userData.isScreen <==> s[i].userData.isScreen || Detected(s, looksLikeScreen, i)
    ensures AnyDetected(s, looksLikeScreen) && !Detected(s, looksLikeScreen, i) ==> Tagged(s, looksLikeScreen)[i] == s[i]
    ensures InModel(s, i) && s[i].isMesh ==>
              (Tagged(s, looksLikeScreen)[i].userData.clickable <==>
                 !AnyDetected(s, looksLikeScreen) || Detected(s, looksLikeScreen, i) || s[i].userData.clickable)
  {
  }

  /** A name is a screen's regardless of case. */
  lemma ScreenNameIgnoresCase(name: string)
    ensures IsScreenName(ToLower(name)) == IsScreenName(name)
  {
    ToLowerIdempotent(name);
  }

  // ---- the screen walk ----

  /** The first node tagged as a screen on the way from `i` to the root. */
  function NearestScreen(s: seq<Node>, i: nat): (r: Option<nat>)
    requires ValidScene(s) && i < |s|
    ensures r.Some? ==> r.value <= i && s[r.value].userData.isScreen
    decreases i
  {
    if s[i].userData.isScreen then Some(i)
    else match s[i].parent
      case None => None
      case Some(p) => NearestScreen(s, p)
  }

  /** The walk finds a screen exactly when some node on the chain from `i`
      to the root is tagged, and then it is the first such node. */
  lemma {:induction false} NearestScreenOnChain(s: seq<Node>, i: nat)
    requires ValidScene(s) && i < |s|
    ensures NearestScreen(s, i).None? ==> forall m :: 0 <= m < |Chain(s, i)| ==> !s[Chain(s, i)[m]].userData.isScreen
    ensures NearestScreen(s, i).Some? ==>
              exists m :: 0 <= m < |Chain(s, i)| && Chain(s, i)[m] == NearestScreen(s, i).value
                          && forall m' :: 0 <= m' < m ==> !s[Chain(s, i)[m']].userData.isScreen
    decreases i
  {
    var c := Chain(s, i);
    if s[i].userData.isScreen {
      assert c[0] == i;
    } else if s[i].parent.Some? {
      var p := s[i].parent.value;
      NearestScreenOnChain(s, p);
      var cp := Chain(s, p);
      assert c == [i] + cp;
      if NearestScreen(s, p).Some? {
        var m :| 0 <= m < |cp| && cp[m] == NearestScreen(s, p).value
                 && forall m' :: 0 <= m' < m ==> !s[cp[m']].userData.isScreen;
        assert c[m + 1] == cp[m];
        forall m' | 0 <= m' < m + 1 ensures !s[c[m']].userData.isScreen {
          if m' > 0 { assert c[m'] == cp[m' - 1]; }
        }
      } else {
        forall m | 0 <= m < |c| ensures !s[c[m]].userData.isScreen {
          if m > 0 { assert c[m] == cp[m - 1]; }
        }
      }
    } else {
      assert c == [i];
    }
  }

  /** The `while (current)` walk shared by the click and hover handlers. */
  method FindScreen(s: seq<Node>, hit: nat) returns (found: Option<nat>)
    requires ValidScene(s) && hit < |s|
    ensures found == NearestScreen(s, hit)
  {
    var current: Option<nat> := Some(hit);
    while current.Some?
      invariant current.Some? ==> current.value < |s|
      invariant NearestScreen(s, hit) == if current.Some? then NearestScreen(s, current.value) else None
      decreases if current.Some? then current.value + 1 else 0
    {
      if s[current.value].userData.isScreen {
        return current;
      }
      current := s[current.value].parent;
    }
    return None;
  }

  // ---- clicks ----

  /** The screen-space rectangle where the monitor is drawn, in normalised
      device coordinates. */
  predicate InFallbackRect(x: real, y: real) {
    0.1 < y < 0.6 && -0.5 < x < 0.5
  }

  /** The click decision: the rectangle first, even before the model has
      loaded; then, with a model and a hit, a tagged node on the hit's
      chain; then the world-position guess `hitInScreenArea` for the hit. */
  predicate Navigates(hasCallback: bool, x: real, y: real, modelLoaded: bool, s: seq<Node>, hit: Option<nat>,
                      hitInScreenArea: bool)
    requires ValidScene(s) && (hit.Some? ==> hit.value < |s|)
  {
    hasCallback &&
    (InFallbackRect(x, y) ||
     (modelLoaded && hit.Some? && (NearestScreen(s, hit.value).Some? || hitInScreenArea)))
  }

  /** The canvas click handler; `raycast` reports whether the ray was
      cast at all. */
  method HandleClick(hasCallback: bool, x: real, y: real, modelLoaded: bool, s: seq<Node>, hit: Option<nat>,
                     hitInScreenArea: bool)
    returns (request: Option<string>, raycast: bool)
    requires ValidScene(s) && (hit.Some? ==> hit.value < |s|)
    ensures request.Some? <==> Navigates(hasCallback, x, y, modelLoaded, s, hit, hitInScreenArea)
    ensures request.Some? ==> request.value == AppView.AppsView
    ensures raycast <==> hasCallback && !InFallbackRect(x, y) && modelLoaded
  {
    request := None;
    raycast := false;
    if !hasCallback {
      return;
    }
    if 0.1 < y && y < 0.6 && (if x < 0.0 then -x else x) < 0.5 {
      request := Some(AppView.AppsView);
      return;
    }
    if modelLoaded {
      raycast := true;
      if hit.Some? {
        var found := FindScreen(s, hit.value);
        if found.Some? {
          request := Some(AppView.AppsView);
          return;
        }
        if hitInScreenArea {
          request := Some(AppView.AppsView);
        }
      }
    }
  }

  // ---- hover ----

  datatype Cursor = Grab | Pointer

  /** The closure variable `hoveredScreen`, the cursor, and the screen
      whose materials are emphasised. */
  datatype HoverState = HoverState(hovered: Option<nat>, cursor: Cursor, emphasized: Option<nat>)

  const HoverStart := HoverState(None, Grab, None)

  /** The hover state after the pointer is over `found` (the screen the
      walk found, if any); `hasMaterial` says whether it carries a
      material. Nothing happens while the same screen stays under the
      pointer. */
  function HoverStep(h: HoverState, found: Option<nat>, hasMaterial: bool): HoverState {
    if found == h.hovered then h
    else if found.Some? && hasMaterial then HoverState(found, Pointer, found)
    else HoverState(found, Grab, None)
  }

  /** The pointer cursor shows exactly when a screen is emphasised, and the
      emphasised screen is the hovered one. */
  predicate HoverConsistent(h: HoverState) {
    (h.cursor == Pointer <==> h.emphasized.Some?) && (h.emphasized.Some? ==> h.emphasized == h.hovered)
  }

  /** Every move keeps the hover state consistent, records the found
      screen, and changes cursor and emphasis only on a transition. */
  lemma HoverStepSound(h: HoverState, found: Option<nat>, hasMaterial: bool)
    requires HoverConsistent(h)
    ensures var h' := HoverStep(h, found, hasMaterial);
            HoverConsistent(h') && h'.hovered == found
            && (found == h.hovered ==> h' == h)
            && (found != h.hovered ==> (h'.cursor == Pointer <==> found.Some? && hasMaterial))
  {
  }

  /** A second move over the same screen is not a transition. */
  lemma HoverStepIdempotent(h: HoverState, found: Option<nat>, hasMaterial: bool)
    ensures HoverStep(HoverStep(h, found, hasMaterial), found, hasMaterial) == HoverStep(h, found, hasMaterial)
  {
  }

  /** The hover state of the mouse-move handler. */
  class HoverTracker {
    var hovered: Option<nat>
    var cursor: Cursor
    var emphasized: Option<nat>

    function State(): HoverState
      reads this
    {
      HoverState(hovered, cursor, emphasized)
    }

    constructor ()
      ensures State() == HoverStart && HoverConsistent(State())
    {
      hovered := None;
      cursor := Grab;
      emphasized := None;
    }

    /** The mouse-move handler; `transitioned` says whether the hover side
        effects ran. */
    method MouseMove(modelLoaded: bool, s: seq<Node>, hit: Option<nat>) returns (transitioned: bool)
      requires ValidScene(s) && (hit.Some? ==> hit.value < |s|)
      modifies this
      ensures !modelLoaded ==> State() == old(State()) && !transitioned
      ensures modelLoaded ==>
                var found := if hit.Some? then NearestScreen(s, hit.value) else None;
                State() == HoverStep(old(State()), found, found.Some? && |s[found.value].materials| > 0)
                && (transitioned <==> found != old(hovered))
    {
      transitioned := false;
      if !modelLoaded {
        return;
      }
      var foundScreen: Option<nat> := None;
      if hit.Some? {
        foundScreen := FindScreen(s, hit.value);
      }
      if foundScreen != hovered {
        transitioned := true;
        if foundScreen.Some? && |s[foundScreen.value].materials| > 0 {
          emphasized := foundScreen;
          cursor := Pointer;
        } else {
          emphasized := None;
          cursor := Grab;
        }
        hovered := foundScreen;
      }
    }
  }
}
