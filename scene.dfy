/** The scene graph the three 3D components walk, reduced to what their
    decisions read and write: each node's name, parent, whether it is a
    mesh, its materials, and the `userData` tags the components set. Nodes
    are numbered so that a parent comes before its children; node 0 is the
    root of the loaded model. Detaching a node (`parent.remove(child)`)
    clears its parent. */
module Scene {
  import opened Wrappers

  /** The state of a material's emissive colour: absent, as loaded, the
      green glow of the styling pass, or the dim setting of the headshot
      pass. */
  datatype Emissive = NoEmissive | LoadedEmissive | GreenGlow | DimEmissive

  /** A material's name, its emissive colour, and whether the headshot
      texture has been put on it. */
  datatype Material = Material(name: string, emissive: Emissive, headshot: bool)

  /** The `userData` tags: `clickable`, `isScreen` and `fingerIndex`. */
  datatype UserData = UserData(clickable: bool, isScreen: bool, fingerIndex: Option<int>)

  datatype Node = Node(name: string, parent: Option<nat>, isMesh: bool, materials: seq<Material>, userData: UserData)

  /** Every parent link points to an earlier node, so the graph is a forest
      and every parent chain ends. */
  predicate ValidScene(s: seq<Node>) {
    |s| > 0 && forall i :: 0 <= i < |s| && s[i].parent.Some? ==> s[i].parent.value < i
  }

  /** Node `i` is reached by a traversal of the model: its parent chain
      leads to node 0. */
  predicate InModel(s: seq<Node>, i: nat)
    requires ValidScene(s) && i < |s|
    decreases i
  {
    i == 0 || (s[i].parent.Some? && InModel(s, s[i].parent.value))
  }

  /** Node `i` followed by its ancestors, nearest first. */
  function Chain(s: seq<Node>, i: nat): (c: seq<nat>)
    requires ValidScene(s) && i < |s|
    ensures |c| > 0 && c[0] == i
    ensures forall m :: 0 <= m < |c| ==> c[m] < |s|
    ensures forall m :: 0 < m < |c| ==> s[c[m - 1]].parent == Some(c[m])
    ensures s[c[|c| - 1]].parent.None?
    decreases i
  {
    match s[i].parent
    case None => [i]
    case Some(p) => [i] + Chain(s, p)
  }

  /** The chain of a node with a parent is the node followed by its
      parent's chain. */
  lemma ChainStep(s: seq<Node>, i: nat)
    requires ValidScene(s) && i < |s| && s[i].parent.Some?
    ensures s[i].parent.value < |s|
    ensures |Chain(s, i)| == |Chain(s, s[i].parent.value)| + 1
    ensures forall m :: 0 < m < |Chain(s, i)| ==> Chain(s, i)[m] == Chain(s, s[i].parent.value)[m - 1]
  {
  }

  /** Two scenes with the same parent links. */
  predicate SameShape(s: seq<Node>, t: seq<Node>) {
    |s| == |t| && forall i :: 0 <= i < |s| ==> s[i].parent == t[i].parent
  }

  /** Membership in the model depends on the parent links alone. */
  lemma {:induction false} InModelSameShape(s: seq<Node>, t: seq<Node>, i: nat)
    requires ValidScene(s) && SameShape(s, t) && i < |s|
    ensures ValidScene(t) && InModel(s, i) == InModel(t, i)
    decreases i
  {
    if i != 0 && s[i].parent.Some? {
      InModelSameShape(s, t, s[i].parent.value);
    }
  }
}
