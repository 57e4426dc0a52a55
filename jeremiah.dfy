/** The landing scene: the styling pass that tags the computer screen by
    its `blinn4` material, the headshot pass, the click test that turns a
    hit on the screen into a request for the apps view, and the scale tier
    and centring of the loaded model. */
module Jeremiah {
  import opened Wrappers
  import opened Text
  import opened Scene
  import AppView

  /** A name mentioning `blinn4`, in any case: the computer screen's
      material (and the mesh carrying it). */
  predicate NamesBlinn4(name: string) {
    Contains(ToLower(name), "blinn4")
  }

  predicate HasBlinn4Material(n: Node) {
    exists k :: 0 <= k < |n.materials| && NamesBlinn4(n.materials[k].name)
  }

  // ---- the styling pass ----

  /** A material after the styling pass: every material but the screen's
      that has an emissive colour gets the green glow. */
  function Glowing(m: Material): Material {
    if NamesBlinn4(m.name) || m.emissive.NoEmissive? then m else m.(emissive := GreenGlow)
  }

  function ScreenTagged(u: UserData): UserData {
    u.(isScreen := true, clickable := true)
  }

  /** A mesh after the styling pass. */
  function StyledMesh(n: Node): Node {
    n.(materials := seq(|n.materials|, k requires 0 <= k < |n.materials| => Glowing(n.materials[k])),
       userData := if HasBlinn4Material(n) then ScreenTagged(n.userData) else n.userData)
  }

  /** The model after the styling pass. */
  function Styled(s: seq<Node>): (r: seq<Node>)
    requires ValidScene(s)
    ensures SameShape(s, r)
  {
    seq(|s|, i requires 0 <= i < |s| => if InModel(s, i) && s[i].isMesh then StyledMesh(s[i]) else s[i])
  }

  /** The loop over one mesh's materials. */
  method StyleMesh(n: Node) returns (r: Node)
    ensures r == StyledMesh(n)
  {
    var materials: seq<Material> := [];
    var userData := n.userData;
    for k := 0 to |n.materials|
      invariant |materials| == k
      invariant forall j :: 0 <= j < k ==> materials[j] == Glowing(n.materials[j])
      invariant userData == if exists j :: 0 <= j < k && NamesBlinn4(n.materials[j].name)
                            then ScreenTagged(n.userData) else n.userData
    {
      var material := n.materials[k];
      if NamesBlinn4(material.name) {
        userData := ScreenTagged(n.userData);
      } else if !material.emissive.NoEmissive? {
        material := material.(emissive := GreenGlow);
      }
      materials := materials + [material];
    }
    r := n.(materials := materials, userData := userData);
  }

  /** The styling traversal. */
  method StyleModel(nodes: array<Node>)
    requires ValidScene(nodes[..])
    modifies nodes
    ensures nodes[..] == Styled(old(nodes[..]))
  {
    var t := nodes[..];
    for i := 0 to nodes.Length
      invariant forall j :: 0 <= j < i ==> nodes[j] == Styled(t)[j]
      invariant forall j :: i <= j < nodes.Length ==> nodes[j] == t[j]
    {
      if InModel(t, i) && t[i].isMesh {
        nodes[i] := StyleMesh(t[i]);
      }
    }
  }

  /** After styling, a mesh of the model is tagged as the screen exactly
      when one of its materials is the screen's (or it was tagged already);
      no other node is tagged. */
  lemma ScreenTaggedIffBlinn4(s: seq<Node>, i: nat)
    requires ValidScene(s) && i < |s|
    ensures Styled(s)[i].userData.isScreen <==>
              s[i].userData.isScreen || (InModel(s, i) && s[i].isMesh && HasBlinn4Material(s[i]))
    ensures Styled(s)[i].userData.isScreen && !s[i].userData.isScreen ==> Styled(s)[i].userData.clickable
  {
  }

  // ---- the headshot pass ----

  /** A material showing the headshot: the texture replaced, an emissive
      colour dimmed. */
  function WithHeadshot(m: Material): Material {
    m.(headshot := true, emissive := if m.emissive.NoEmissive? then NoEmissive else DimEmissive)
  }

  /** Material `k` of mesh `n` gets the headshot when the mesh's name or the
      material's name mentions `blinn4`. */
  predicate GetsHeadshot(n: Node, k: nat)
    requires k < |n.materials|
  {
    NamesBlinn4(n.name) || NamesBlinn4(n.materials[k].name)
  }

  function HeadshotMesh(n: Node): Node {
    n.(materials := seq(|n.materials|, k requires 0 <= k < |n.materials| =>
         if GetsHeadshot(n, k) then WithHeadshot(n.materials[k]) else n.materials[k]))
  }

  /** The model after the headshot pass. */
  function HeadshotApplied(s: seq<Node>): (r: seq<Node>)
    requires ValidScene(s)
    ensures SameShape(s, r)
  {
    seq(|s|, i requires 0 <= i < |s| => if InModel(s, i) && s[i].isMesh then HeadshotMesh(s[i]) else s[i])
  }

  /** The pass found a material to put the headshot on. */
  predicate ScreenFound(s: seq<Node>)
    requires ValidScene(s)
  {
    exists i, k :: 0 <= i < |s| && InModel(s, i) && s[i].isMesh && 0 <= k < |s[i].materials| && GetsHeadshot(s[i], k)
  }

  /** The loop over one mesh's materials; `found` is whether any was
      replaced. */
  method PutHeadshot(n: Node) returns (r: Node, found: bool)
    ensures r == HeadshotMesh(n)
    ensures found <==> exists k :: 0 <= k < |n.materials| && GetsHeadshot(n, k)
  {
    var isBlinn4Mesh := NamesBlinn4(n.name);
    var materials: seq<Material> := [];
    found := false;
    for k := 0 to |n.materials|
      invariant |materials| == k
      invariant forall j :: 0 <= j < k ==>
                  materials[j] == if GetsHeadshot(n, j) then WithHeadshot(n.materials[j]) else n.materials[j]
      invariant found <==> exists j :: 0 <= j < k && GetsHeadshot(n, j)
    {
      var material := n.materials[k];
      if isBlinn4Mesh || NamesBlinn4(material.name) {
        found := true;
        material := WithHeadshot(material);
      }
      materials := materials + [material];
    }
    r := n.(materials := materials);
  }

  /** The headshot traversal; the result is the `foundBlinn4` flag that
      decides between the success message and the material listing. */
  method ApplyHeadshot(nodes: array<Node>) returns (foundBlinn4: bool)
    requires ValidScene(nodes[..])
    modifies nodes
    ensures nodes[..] == HeadshotApplied(old(nodes[..]))
    ensures foundBlinn4 <==> ScreenFound(old(nodes[..]))
  {
    var t := nodes[..];
    foundBlinn4 := false;
    for i := 0 to nodes.Length
      invariant forall j :: 0 <= j < i ==> nodes[j] == HeadshotApplied(t)[j]
      invariant forall j :: i <= j < nodes.Length ==> nodes[j] == t[j]
      invariant foundBlinn4 <==> exists j, k :: 0 <= j < i && InModel(t, j) && t[j].isMesh
                                               && 0 <= k < |t[j].materials| && GetsHeadshot(t[j], k)
    {
      if InModel(t, i) && t[i].isMesh {
        var r, found := PutHeadshot(t[i]);
        nodes[i] := r;
        foundBlinn4 := foundBlinn4 || found;
      }
    }
  }

  /** The texture arrives after the styling pass has run, and the screen's
      material ends up showing the headshot on a mesh tagged as the
      screen. */
  lemma ScreenShowsHeadshot(s: seq<Node>, i: nat, k: nat)
    requires ValidScene(s) && i < |s| && InModel(s, i) && s[i].isMesh
    requires k < |s[i].materials| && NamesBlinn4(s[i].materials[k].name)
    ensures var r := HeadshotApplied(Styled(s));
            r[i].materials[k].headshot && r[i].userData.isScreen && r[i].userData.clickable
  {
    var t := Styled(s);
    InModelSameShape(s, t, i);
    assert t[i].materials[k].name == s[i].materials[k].name;
  }

  /** A material that is not the screen's, on a mesh whose own name
      mentions `blinn4`, loses its green glow to the headshot's dimmed
      emissive. */
  lemma NamedMeshLosesGlow(s: seq<Node>, i: nat, k: nat)
    requires ValidScene(s) && i < |s| && InModel(s, i) && s[i].isMesh
    requires k < |s[i].materials| && !NamesBlinn4(s[i].materials[k].name)
    requires NamesBlinn4(s[i].name) && !s[i].materials[k].emissive.NoEmissive?
    ensures Styled(s)[i].materials[k].emissive == GreenGlow
    ensures HeadshotApplied(Styled(s))[i].materials[k].emissive == DimEmissive
  {
    InModelSameShape(s, Styled(s), i);
  }

  // ---- clicks ----

  /** A node the click test accepts: tagged as the screen, or carrying the
      screen's material. The hit node's materials are examined whatever it
      is; an ancestor's only when it is a mesh. */
  predicate ScreenLike(n: Node, isHit: bool) {
    n.userData.isScreen || ((isHit || n.isMesh) && HasBlinn4Material(n))
  }

  /** Node `i`, an ancestor of the hit, or one of its own ancestors is
      accepted. */
  predicate AncestorIsScreen(s: seq<Node>, i: nat)
    requires ValidScene(s) && i < |s|
    decreases i
  {
    ScreenLike(s[i], false) || (s[i].parent.Some? && AncestorIsScreen(s, s[i].parent.value))
  }

  predicate HitsScreen(s: seq<Node>, hit: nat)
    requires ValidScene(s) && hit < |s|
  {
    ScreenLike(s[hit], true) || (s[hit].parent.Some? && AncestorIsScreen(s, s[hit].parent.value))
  }

  lemma {:induction false} AncestorIsScreenOnChain(s: seq<Node>, i: nat)
    requires ValidScene(s) && i < |s|
    ensures AncestorIsScreen(s, i) ==> exists m :: 0 <= m < |Chain(s, i)| && ScreenLike(s[Chain(s, i)[m]], false)
    ensures (exists m :: 0 <= m < |Chain(s, i)| && ScreenLike(s[Chain(s, i)[m]], false)) ==> AncestorIsScreen(s, i)
    decreases i
  {
    var c := Chain(s, i);
    if s[i].parent.Some? {
      var p := s[i].parent.value;
      AncestorIsScreenOnChain(s, p);
      var cp := Chain(s, p);
      assert c == [i] + cp;
      if AncestorIsScreen(s, p) {
        var m :| 0 <= m < |cp| && ScreenLike(s[cp[m]], false);
        assert c[m + 1] == cp[m];
      }
      if exists m :: 0 <= m < |c| && ScreenLike(s[c[m]], false) {
        var m :| 0 <= m < |c| && ScreenLike(s[c[m]], false);
        if m > 0 {
          assert c[m] == cp[m - 1];
        }
      }
    } else {
      assert c == [i];
    }
  }

  /** The click test read off the chain from the hit node to the root:
      some node on it is accepted, the hit node under the looser rule. */
  lemma HitsScreenOnChain(s: seq<Node>, hit: nat)
    requires ValidScene(s) && hit < |s|
    ensures HitsScreen(s, hit) ==>
              exists m :: 0 <= m < |Chain(s, hit)| && ScreenLike(s[Chain(s, hit)[m]], m == 0)
    ensures (exists m :: 0 <= m < |Chain(s, hit)| && ScreenLike(s[Chain(s, hit)[m]], m == 0)) ==>
              HitsScreen(s, hit)
  {
    var c := Chain(s, hit);
    if s[hit].parent.Some? {
      var p := s[hit].parent.value;
      AncestorIsScreenOnChain(s, p);
      var cp := Chain(s, p);
      assert c == [hit] + cp;
      if AncestorIsScreen(s, p) {
        var m :| 0 <= m < |cp| && ScreenLike(s[cp[m]], false);
        assert c[m + 1] == cp[m];
      }
      if exists m :: 0 <= m < |c| && ScreenLike(s[c[m]], m == 0) {
        var m :| 0 <= m < |c| && ScreenLike(s[c[m]], m == 0);
        if m > 0 {
          assert c[m] == cp[m - 1];
        }
      }
    } else {
      assert c == [hit];
    }
  }

  /** Whether any material of `n` is the screen's. */
  method FindBlinn4(n: Node) returns (found: bool)
    ensures found == HasBlinn4Material(n)
  {
    for k := 0 to |n.materials|
      invariant forall j :: 0 <= j < k ==> !NamesBlinn4(n.materials[j].name)
    {
      if NamesBlinn4(n.materials[k].name) {
        return true;
      }
    }
    return false;
  }

  /** The canvas click handler. `hit` is the first node the ray meets, if
      any; the result is the view requested. There is no fallback area: a
      click that hits nothing requests nothing. */
  method HandleClick(hasCallback: bool, modelLoaded: bool, s: seq<Node>, hit: Option<nat>)
    returns (request: Option<string>)
    requires ValidScene(s) && (hit.Some? ==> hit.value < |s|)
    ensures request.Some? <==> hasCallback && modelLoaded && hit.Some? && HitsScreen(s, hit.value)
    ensures request.Some? ==> request.value == AppView.AppsView
  {
    if !hasCallback || !modelLoaded || hit.None? {
      return None;
    }
    var clicked := s[hit.value];
    if clicked.userData.isScreen {
      return Some(AppView.AppsView);
    }
    var onScreen := FindBlinn4(clicked);
    if onScreen {
      return Some(AppView.AppsView);
    }
    var current: Option<nat> := clicked.parent;
    while current.Some?
      invariant current.Some? ==> current.value < |s|
      invariant HitsScreen(s, hit.value) == (current.Some? && AncestorIsScreen(s, current.value))
      decreases if current.Some? then current.value + 1 else 0
    {
      var node := s[current.value];
      if node.userData.isScreen {
        return Some(AppView.AppsView);
      }
      if node.isMesh {
        var found := FindBlinn4(node);
        if found {
          return Some(AppView.AppsView);
        }
      }
      current := node.parent;
    }
    return None;
  }

  // ---- placement ----

  /** The scale tier chosen from the largest side of the bounding box. */
  function ScaleFor(maxDim: real): (scale: real)
    ensures 0.0 < scale <= 0.2
  {
    if maxDim > 200.0 then 0.02
    else if maxDim > 100.0 then 0.05
    else if maxDim > 50.0 then 0.1
    else 0.2
  }

  /** A larger model never gets a larger scale. */
  lemma ScaleNonIncreasing(a: real, b: real)
    requires a <= b
    ensures ScaleFor(b) <= ScaleFor(a)
  {
  }

  /** Every model up to 200 units ends up at most 10 units across; every
      model over 50 units ends up more than 4 units across. */
  lemma ScaledSizeBounds(maxDim: real)
    ensures 0.0 <= maxDim <= 200.0 ==> maxDim * ScaleFor(maxDim) <= 10.0
    ensures maxDim > 50.0 ==> maxDim * ScaleFor(maxDim) > 4.0
  {
  }

  datatype Vec3 = Vec3(x: real, y: real, z: real)

  /** The model's position: the centre of its bounding box, scaled and
      negated. */
  function Placement(center: Vec3, maxDim: real): (p: Vec3)
    ensures center.x * ScaleFor(maxDim) + p.x == 0.0
    ensures center.y * ScaleFor(maxDim) + p.y == 0.0
    ensures center.z * ScaleFor(maxDim) + p.z == 0.0
  {
    var scale := ScaleFor(maxDim);
    Vec3(-center.x * scale, -center.y * scale, -center.z * scale)
  }
}
