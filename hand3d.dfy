/** The hand scene: the finger classifier on node names, the load-time
    pass that drops the duplicate outline mesh and tags the rest, the click
    walk from the hit node up to the nearest finger tag, the finger menu
    state cell, and the menu's tile dispatch. */
module Hand3D {
  import opened Wrappers
  import opened Text
  import opened Scene
  import Tiles

  /** `getFingerIndexFromName`: the first keyword found, in this order,
      decides the finger. */
  function FingerIndexFromName(name: string): (r: Option<int>)
    ensures r.Some? ==> 0 <= r.value < 5
  {
    var lower := ToLower(name);
    if Contains(lower, "thumb") then Some(0)
    else if Contains(lower, "index") then Some(1)
    else if Contains(lower, "middle") then Some(2)
    else if Contains(lower, "ring") then Some(3)
    else if Contains(lower, "pinky") || Contains(lower, "little") then Some(4)
    else None
  }

  /** The keywords of each finger, thumb first. */
  const FingerKeywords: seq<seq<string>> := [["thumb"], ["index"], ["middle"], ["ring"], ["pinky", "little"]]

  predicate FingerNamed(lower: string, k: nat)
    requires k < 5
  {
    exists w :: w in FingerKeywords[k] && Contains(lower, w)
  }

  /** The classifier returns finger `k` exactly when one of `k`'s keywords
      occurs in the lower-cased name and none of an earlier finger's does,
      and nothing when no keyword occurs. */
  lemma FingerIndexPriority(name: string, k: nat)
    requires k < 5
    ensures FingerIndexFromName(name) == Some(k) <==>
              FingerNamed(ToLower(name), k) && forall j :: 0 <= j < k ==> !FingerNamed(ToLower(name), j)
    ensures FingerIndexFromName(name).None? <==> forall j :: 0 <= j < 5 ==> !FingerNamed(ToLower(name), j)
  {
    var lower := ToLower(name);
    assert FingerNamed(lower, 0) <==> Contains(lower, "thumb") by {
      assert FingerKeywords[0] == ["thumb"];
    }
    assert FingerNamed(lower, 1) <==> Contains(lower, "index") by {
      assert FingerKeywords[1] == ["index"];
    }
    assert FingerNamed(lower, 2) <==> Contains(lower, "middle") by {
      assert FingerKeywords[2] == ["middle"];
    }
    assert FingerNamed(lower, 3) <==> Contains(lower, "ring") by {
      assert FingerKeywords[3] == ["ring"];
    }
    assert FingerNamed(lower, 4) <==> Contains(lower, "pinky") || Contains(lower, "little") by {
      assert FingerKeywords[4] == ["pinky", "little"];
    }
  }

  /** Lower-casing the name first, as the load pass does, changes nothing:
      the classifier ignores case. */
  lemma FingerIndexIgnoresCase(name: string)
    ensures FingerIndexFromName(ToLower(name)) == FingerIndexFromName(name)
  {
    ToLowerIdempotent(name);
  }

  // ---- the finger menu's tiles ----

  /** `fingerApps`: two tiles per finger. */
  function FingerApps(): seq<seq<Tiles.Tile>> {
    [ [Tiles.ExternalTile("github", "GitHub", Tiles.GitHubUrl),
       Tiles.ExternalTile("linkedin", "LinkedIn", Tiles.LinkedInUrl)],
      [Tiles.ExternalTile("email", "Email", Tiles.MailUrl),
       Tiles.ViewTile("projects", "Projects", "projects")],
      [Tiles.ViewTile("organizations", "Organizations", "organizations"),
       Tiles.ViewTile("contact", "Contact", "contact")],
      [Tiles.ExternalTile("github2", "GitHub", Tiles.GitHubUrl),
       Tiles.ExternalTile("linkedin2", "LinkedIn", Tiles.LinkedInUrl)],
      [Tiles.ExternalTile("email2", "Email", Tiles.MailUrl),
       Tiles.ViewTile("projects2", "Projects", "projects")] ]
  }

  /** Five rows of two tiles, so every index the menu accepts selects a
      row; every tile does something when clicked with a callback, and the
      internal targets are projects, organizations and contact. */
  lemma FingerAppsShape()
    ensures |FingerApps()| == 5
    ensures forall r :: 0 <= r < 5 ==> |FingerApps()[r]| == 2
    ensures forall r, c :: 0 <= r < 5 && 0 <= c < 2 ==> Tiles.Dispatch(FingerApps()[r][c], true) != Tiles.NoAction
    ensures forall r, c :: 0 <= r < 5 && 0 <= c < 2 && !FingerApps()[r][c].external ==>
              FingerApps()[r][c].view in {Some("projects"), Some("organizations"), Some("contact")}
  {
    assert StartsWith(Tiles.GitHubUrl, "http") && StartsWith(Tiles.LinkedInUrl, "http");
    assert Tiles.MailUrl[..4][0] == 'm';
    assert !StartsWith(Tiles.MailUrl, "http") && StartsWith(Tiles.MailUrl, "mailto");
  }

  // ---- the load pass ----

  /** The mesh the load pass removes. */
  predicate IsDuplicateOutline(n: Node) {
    n.isMesh && n.name == "Circle.003"
  }

  /** The model after every outline mesh reached by the traversal has been
      detached from its parent. */
  function WithoutOutlines(s: seq<Node>): (r: seq<Node>)
    requires ValidScene(s)
    ensures |r| == |s| && ValidScene(r)
  {
    seq(|s|, i requires 0 <= i < |s| =>
      if InModel(s, i) && IsDuplicateOutline(s[i]) then s[i].(parent := None) else s[i])
  }

  /** The finger of a mesh on the `.glb` path: its own name, else the
      nearest ancestor whose name names a finger. */
  function NameFinger(s: seq<Node>, i: nat): Option<int>
    requires ValidScene(s) && i < |s|
    decreases i
  {
    var own := FingerIndexFromName(s[i].name);
    if own.Some? then own
    else match s[i].parent
      case None => None
      case Some(p) => NameFinger(s, p)
  }

  /** A styled mesh: clickable, and tagged with a finger when one was found
      (an existing tag is kept otherwise). */
  function Tagged(n: Node, f: Option<int>): Node {
    n.(userData := n.userData.(clickable := true, fingerIndex := if f.Some? then f else n.userData.fingerIndex))
  }

  /** Styling on the `.glb` path. */
  function GlbStyled(t: seq<Node>): (r: seq<Node>)
    requires ValidScene(t)
    ensures SameShape(t, r)
  {
    seq(|t|, i requires 0 <= i < |t| =>
      if InModel(t, i) && t[i].isMesh then Tagged(t[i], NameFinger(t, i)) else t[i])
  }

  /** Styling on the `.gltf` path: only the mesh's own name is consulted. */
  function GltfStyled(t: seq<Node>): (r: seq<Node>)
    requires ValidScene(t)
    ensures SameShape(t, r)
  {
    seq(|t|, i requires 0 <= i < |t| =>
      if InModel(t, i) && t[i].isMesh then Tagged(t[i], FingerIndexFromName(t[i].name)) else t[i])
  }

  /** The ancestor walk of the `.glb` path. */
  method InheritedFingerIndex(s: seq<Node>, i: nat) returns (r: Option<int>)
    requires ValidScene(s) && i < |s|
    ensures r == NameFinger(s, i)
  {
    r := FingerIndexFromName(s[i].name);
    if r.None? {
      var parent: Option<nat> := s[i].parent;
      while parent.Some? && r.None?
        invariant parent.Some? ==> parent.value < |s|
        invariant NameFinger(s, i) == if r.Some? then r else if parent.None? then None else NameFinger(s, parent.value)
        decreases if parent.Some? then parent.value + 1 else 0
      {
        r := FingerIndexFromName(s[parent.value].name);
        parent := s[parent.value].parent;
      }
    }
  }

  /** Collects the outline meshes, then detaches each from its parent. */
  method RemoveDuplicateOutlines(nodes: array<Node>)
    requires ValidScene(nodes[..])
    modifies nodes
    ensures nodes[..] == WithoutOutlines(old(nodes[..]))
  {
    ghost var s := nodes[..];
    var toRemove: seq<nat> := [];
    var i := 0;
    while i < nodes.Length
      invariant 0 <= i <= nodes.Length && nodes[..] == s
      invariant forall j :: j in toRemove ==> j < i
      invariant forall j :: 0 <= j < i ==> (j in toRemove <==> InModel(s, j) && IsDuplicateOutline(s[j]))
    {
      if InModel(nodes[..], i) && IsDuplicateOutline(nodes[i]) {
        toRemove := toRemove + [i];
      }
      i := i + 1;
    }
    var k := 0;
    while k < |toRemove|
      invariant 0 <= k <= |toRemove|
      invariant forall j :: j in toRemove ==> j < nodes.Length
      invariant forall j :: 0 <= j < nodes.Length ==>
                  nodes[j] == if j in toRemove[..k] then s[j].(parent := None) else s[j]
    {
      var j := toRemove[k];
      assert j in toRemove;
      if nodes[j].parent.Some? {
        nodes[j] := nodes[j].(parent := None);
      }
      k := k + 1;
    }
    assert toRemove[..k] == toRemove;
  }

  /** The styling traversal of the `.glb` path. */
  method StyleGlb(nodes: array<Node>)
    requires ValidScene(nodes[..])
    modifies nodes
    ensures nodes[..] == GlbStyled(old(nodes[..]))
  {
    var t := nodes[..];
    var i := 0;
    while i < nodes.Length
      invariant 0 <= i <= nodes.Length
      invariant forall j :: 0 <= j < i ==> nodes[j] == GlbStyled(t)[j]
      invariant forall j :: i <= j < nodes.Length ==> nodes[j] == t[j]
    {
      if InModel(t, i) && t[i].isMesh {
        var f := InheritedFingerIndex(t, i);
        nodes[i] := Tagged(t[i], f);
      }
      i := i + 1;
    }
  }

  /** The styling traversal of the `.gltf` path. */
  method StyleGltf(nodes: array<Node>)
    requires ValidScene(nodes[..])
    modifies nodes
    ensures nodes[..] == GltfStyled(old(nodes[..]))
  {
    var t := nodes[..];
    var i := 0;
    while i < nodes.Length
      invariant 0 <= i <= nodes.Length
      invariant forall j :: 0 <= j < i ==> nodes[j] == GltfStyled(t)[j]
      invariant forall j :: i <= j < nodes.Length ==> nodes[j] == t[j]
    {
      if InModel(t, i) && t[i].isMesh {
        nodes[i] := Tagged(t[i], FingerIndexFromName(t[i].name));
      }
      i := i + 1;
    }
  }

  /** The load callback of `hand.glb`. */
  method LoadGlb(nodes: array<Node>)
    requires ValidScene(nodes[..])
    modifies nodes
    ensures nodes[..] == GlbStyled(WithoutOutlines(old(nodes[..])))
  {
    RemoveDuplicateOutlines(nodes);
    StyleGlb(nodes);
  }

  /** The load callback of `hand.gltf`, tried when the first load fails. */
  method LoadGltf(nodes: array<Node>)
    requires ValidScene(nodes[..])
    modifies nodes
    ensures nodes[..] == GltfStyled(WithoutOutlines(old(nodes[..])))
  {
    RemoveDuplicateOutlines(nodes);
    StyleGltf(nodes);
  }

  /** Removal only cuts links, so what is in the model afterwards was in it
      before. */
  lemma {:induction false} InModelAfterRemoval(s: seq<Node>, i: nat)
    requires ValidScene(s) && i < |s|
    ensures InModel(WithoutOutlines(s), i) ==> InModel(s, i)
    decreases i
  {
    var w := WithoutOutlines(s);
    if i != 0 && w[i].parent.Some? {
      InModelAfterRemoval(s, w[i].parent.value);
    }
  }

  /** The removal touches only outline meshes of the model, and only their
      parent link. */
  lemma OnlyOutlinesDetached(s: seq<Node>, i: nat)
    requires ValidScene(s) && i < |s|
    ensures WithoutOutlines(s)[i] != s[i] ==>
              InModel(s, i) && IsDuplicateOutline(s[i]) && WithoutOutlines(s)[i] == s[i].(parent := None)
  {
  }

  /** After loading either file, every mesh still in the model is
      clickable and none of them (below the root) is an outline mesh. */
  lemma LoadedMeshesClickable(s: seq<Node>, i: nat)
    requires ValidScene(s) && i < |s|
    ensures var r := GlbStyled(WithoutOutlines(s));
            InModel(r, i) && r[i].isMesh ==> r[i].userData.clickable && (i == 0 || !IsDuplicateOutline(r[i]))
    ensures var r := GltfStyled(WithoutOutlines(s));
            InModel(r, i) && r[i].isMesh ==> r[i].userData.clickable && (i == 0 || !IsDuplicateOutline(r[i]))
  {
    var w := WithoutOutlines(s);
    InModelSameShape(w, GlbStyled(w), i);
    InModelSameShape(w, GltfStyled(w), i);
    InModelAfterRemoval(s, i);
  }

  /** A mesh whose own name names a finger gets that finger on both paths;
      an unnamed mesh under a named group gets the group's finger only on
      the `.glb` path. */
  lemma GlbFallsBackToAncestors()
    ensures var s := [Node("Thumb", None, false, [], UserData(false, false, None)),
                      Node("Mesh", Some(0), true, [], UserData(false, false, None))];
            && GlbStyled(s)[1].userData.fingerIndex == Some(0)
            && GltfStyled(s)[1].userData.fingerIndex == None
  {
    var s := [Node("Thumb", None, false, [], UserData(false, false, None)),
              Node("Mesh", Some(0), true, [], UserData(false, false, None))];
    assert ToLower("Thumb") == "thumb";
    assert OccursAt(ToLower("Thumb"), "thumb", 0);
    var lower := ToLower("Mesh");
    assert lower == "mesh";
    assert !OccursAt(lower, "ring", 0) by {
      assert lower[0] != "ring"[0];
    }
    assert InModel(s, 1);
  }

  // ---- clicks and the finger menu ----

  /** The click walk's answer: the `fingerIndex` of the nearest node, the
      hit node first, that carries one. */
  function NearestFingerTag(s: seq<Node>, i: nat): Option<int>
    requires ValidScene(s) && i < |s|
    decreases i
  {
    if s[i].userData.fingerIndex.Some? then s[i].userData.fingerIndex
    else match s[i].parent
      case None => None
      case Some(p) => NearestFingerTag(s, p)
  }

  /** The same answer read off the chain of ancestors. */
  lemma NearestFingerTagOnChain(s: seq<Node>, i: nat)
    requires ValidScene(s) && i < |s|
    ensures NearestFingerTag(s, i).None? ==>
              forall m :: 0 <= m < |Chain(s, i)| ==> s[Chain(s, i)[m]].userData.fingerIndex.None?
    ensures (forall m :: 0 <= m < |Chain(s, i)| ==> s[Chain(s, i)[m]].userData.fingerIndex.None?) ==>
              NearestFingerTag(s, i).None?
    ensures NearestFingerTag(s, i).Some? ==>
              exists m :: 0 <= m < |Chain(s, i)| && s[Chain(s, i)[m]].userData.fingerIndex == NearestFingerTag(s, i)
                          && forall m' :: 0 <= m' < m ==> s[Chain(s, i)[m']].userData.fingerIndex.None?
  {
    NoFingerTagOnChain(s, i);
    if NearestFingerTag(s, i).Some? {
      FirstFingerTagOnChain(s, i);
    }
  }

  /** No tag is found exactly when no node of the chain carries one. */
  lemma {:induction false} NoFingerTagOnChain(s: seq<Node>, i: nat)
    requires ValidScene(s) && i < |s|
    ensures NearestFingerTag(s, i).None? ==>
              forall m :: 0 <= m < |Chain(s, i)| ==> s[Chain(s, i)[m]].userData.fingerIndex.None?
    ensures (forall m :: 0 <= m < |Chain(s, i)| ==> s[Chain(s, i)[m]].userData.fingerIndex.None?) ==>
              NearestFingerTag(s, i).None?
    decreases i
  {
    var c := Chain(s, i);
    assert s[c[0]] == s[i];
    if s[i].userData.fingerIndex.None? && s[i].parent.Some? {
      var p := s[i].parent.value;
      ChainStep(s, i);
      NoFingerTagOnChain(s, p);
      var cp := Chain(s, p);
      if NearestFingerTag(s, p).None? {
        forall m | 0 <= m < |c| ensures s[c[m]].userData.fingerIndex.None? {
          if m > 0 { assert c[m] == cp[m - 1]; }
        }
      } else {
        var m :| 0 <= m < |cp| && !s[cp[m]].userData.fingerIndex.None?;
        assert c[m + 1] == cp[m];
      }
    }
  }

  /** A tag that is found is the first one on the chain. */
  lemma {:induction false} FirstFingerTagOnChain(s: seq<Node>, i: nat)
    requires ValidScene(s) && i < |s| && NearestFingerTag(s, i).Some?
    ensures exists m :: 0 <= m < |Chain(s, i)| && s[Chain(s, i)[m]].userData.fingerIndex == NearestFingerTag(s, i)
                        && forall m' :: 0 <= m' < m ==> s[Chain(s, i)[m']].userData.fingerIndex.None?
    decreases i
  {
    var c := Chain(s, i);
    if s[i].userData.fingerIndex.Some? {
      assert s[c[0]].userData.fingerIndex == NearestFingerTag(s, i);
    } else {
      var p := s[i].parent.value;
      ChainStep(s, i);
      FirstFingerTagOnChain(s, p);
      var cp := Chain(s, p);
      var m :| 0 <= m < |cp| && s[cp[m]].userData.fingerIndex == NearestFingerTag(s, p)
               && forall m' :: 0 <= m' < m ==> s[cp[m']].userData.fingerIndex.None?;
      assert c[m + 1] == cp[m];
      forall m' | 0 <= m' < m + 1 ensures s[c[m']].userData.fingerIndex.None? {
        if m' > 0 { assert c[m'] == cp[m' - 1]; }
      }
    }
  }

  /** The walk of the click handler. */
  method FindFingerIndex(s: seq<Node>, hit: nat) returns (fingerIndex: Option<int>)
    requires ValidScene(s) && hit < |s|
    ensures fingerIndex == NearestFingerTag(s, hit)
  {
    fingerIndex := None;
    var current: Option<nat> := Some(hit);
    while current.Some? && fingerIndex.None?
      invariant current.Some? ==> current.value < |s|
      invariant NearestFingerTag(s, hit) ==
                  if fingerIndex.Some? then fingerIndex else if current.None? then None else NearestFingerTag(s, current.value)
      decreases if current.Some? then current.value + 1 else 0
    {
      var node := s[current.value];
      if node.userData.fingerIndex.Some? {
        fingerIndex := node.userData.fingerIndex;
        break;
      }
      current := node.parent;
    }
  }

  /** The menu after a click: unchanged before the model exists or when
      nothing was hit; otherwise the walk's finger, else the position
      guess, if it lies in [0, 5). */
  function MenuAfterClick(menu: Option<int>, modelLoaded: bool, s: seq<Node>, hit: Option<nat>,
                          positionGuess: Option<int>): Option<int>
    requires ValidScene(s) && (hit.Some? ==> hit.value < |s|)
  {
    if !modelLoaded || hit.None? then menu
    else
      var tag := NearestFingerTag(s, hit.value);
      var f := if tag.Some? then tag else positionGuess;
      if f.Some? && 0 <= f.value < 5 then f else menu
  }

  /** The menu only ever opens on a finger in range, and a click before the
      model exists changes nothing. */
  lemma MenuOpensInRange(menu: Option<int>, modelLoaded: bool, s: seq<Node>, hit: Option<nat>,
                         positionGuess: Option<int>)
    requires ValidScene(s) && (hit.Some? ==> hit.value < |s|)
    ensures var r := MenuAfterClick(menu, modelLoaded, s, hit, positionGuess);
            r != menu ==> modelLoaded && hit.Some? && r.Some? && 0 <= r.value < 5
    ensures !modelLoaded ==> MenuAfterClick(menu, modelLoaded, s, hit, positionGuess) == menu
  {
  }

  /** The `fingerMenu` state cell. */
  class FingerMenu {
    var fingerMenu: Option<int>

    predicate Valid()
      reads this
    {
      fingerMenu.Some? ==> 0 <= fingerMenu.value < 5
    }

    constructor ()
      ensures fingerMenu == None && Valid()
    {
      fingerMenu := None;
    }

    /** The tiles of the open menu: a row of `fingerApps`, always in range. */
    function Options(): (r: seq<Tiles.Tile>)
      reads this
      requires Valid() && fingerMenu.Some?
      ensures |r| == 2
    {
      FingerAppsShape();
      FingerApps()[fingerMenu.value]
    }

    /** The canvas click handler. */
    method HandleClick(modelLoaded: bool, s: seq<Node>, hit: Option<nat>, positionGuess: Option<int>)
      requires Valid() && ValidScene(s) && (hit.Some? ==> hit.value < |s|)
      modifies this
      ensures Valid()
      ensures fingerMenu == MenuAfterClick(old(fingerMenu), modelLoaded, s, hit, positionGuess)
    {
      if !modelLoaded {
        return;
      }
      if hit.Some? {
        var fingerIndex := FindFingerIndex(s, hit.value);
        if fingerIndex.None? {
          fingerIndex := positionGuess;
        }
        if fingerIndex.Some? && 0 <= fingerIndex.value < 5 {
          fingerMenu := fingerIndex;
        }
      }
    }

    /** The overlay or the close button. */
    method Close()
      modifies this
      ensures fingerMenu == None && Valid()
    {
      fingerMenu := None;
    }

    /** `handleAppClick`: closes the menu, then acts exactly as a tile of
        the apps grid would. */
    method HandleAppClick(app: Tiles.Tile, hasCallback: bool) returns (action: Tiles.Action)
      modifies this
      ensures fingerMenu == None && Valid()
      ensures action == Tiles.Dispatch(app, hasCallback)
    {
      fingerMenu := None;
      action := Tiles.NoAction;
      if app.external {
        if app.url.Some? && app.url.value != "" && StartsWith(app.url.value, "http") {
          action := Tiles.OpenWindow(app.url.value);
        } else if app.url.Some? && app.url.value != "" && StartsWith(app.url.value, "mailto") {
          action := Tiles.SetLocation(app.url.value);
        }
      } else if app.view.Some? && app.view.value != "" && hasCallback {
        action := Tiles.RequestView(app.view.value);
      }
    }
  }
}
