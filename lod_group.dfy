/**
  The level-of-detail component (lodgroup-component.ts). A `LOD` keeps its
  mesh renderers and the render scene's model list in step; a `LODGroup`
  keeps its LOD levels and the render scene's level list in step. Both pairs
  are edited by the same JavaScript `splice`, except `SetLOD`, which edits
  only the component's own list. Selection of the visible level and the
  walk that collects a node's renderers are modelled beside them.
 */
module LodGroup {
  import opened Wrappers
  import opened JsArray

  /** A render-scene model; only its identity matters here. */
  class Model {
    constructor () {}
  }

  /** A mesh-renderer component and the model it renders (null when it has none). */
  class MeshRenderer {
    const model: Model?

    constructor (model: Model?)
      ensures this.model == model
    {
      this.model := model;
    }
  }

  /** The render scene's data block of one LOD level (`scene.LOD`). */
  class SceneLod {
    var screenRelativeTransitionHeight: real
    var models: seq<Model?>

    constructor ()
      ensures models == []
    {
      screenRelativeTransitionHeight := 1.0;
      models := [];
    }
  }

  /** The render scene's LOD group (`scene.LODGroup`). */
  class SceneLodGroup {
    var size: real
    var lods: seq<SceneLod>

    constructor ()
      ensures lods == []
    {
      size := 1.0;
      lods := [];
    }
  }

  function ModelOf(r: MeshRenderer): Model? {
    r.model
  }

  // ----- LOD -----

  /** One LOD level: its transition height and its renderers, mirrored into `lod`. */
  class LOD {
    var screenRelativeTransitionHeight: real
    var renderers: seq<MeshRenderer>
    const lod: SceneLod

    /** The scene block holds the height and, position by position, the model of each renderer. */
    ghost predicate Valid()
      reads this, lod
    {
      lod.models == Map(ModelOf, renderers) &&
      lod.screenRelativeTransitionHeight == screenRelativeTransitionHeight
    }

    constructor ()
      ensures Valid() && fresh(lod)
      ensures renderers == [] && screenRelativeTransitionHeight == 1.0
    {
      screenRelativeTransitionHeight := 1.0;
      renderers := [];
      var l := new SceneLod();
      l.screenRelativeTransitionHeight := 1.0;
      lod := l;
    }

    /** The height setter writes both copies of the height. */
    method SetScreenRelativeTransitionHeight(val: real)
      requires Valid()
      modifies this, lod
      ensures Valid()
      ensures screenRelativeTransitionHeight == val
      ensures renderers == old(renderers)
    {
      screenRelativeTransitionHeight := val;
      lod.screenRelativeTransitionHeight := val;
    }

    /** `insertRenderer`: the same splice on both lists, returning the renderer inserted. */
    method InsertRenderer(index: int, renderer: MeshRenderer) returns (r: MeshRenderer)
      requires Valid()
      modifies this, lod
      ensures Valid()
      ensures renderers == Splice(old(renderers), index, 0, [renderer])
      ensures lod.models == Splice(old(lod.models), index, 0, [renderer.model])
      ensures screenRelativeTransitionHeight == old(screenRelativeTransitionHeight)
      ensures r == renderer
    {
      SpliceMap(ModelOf, renderers, index, 0, [renderer]);
      renderers := Splice(renderers, index, 0, [renderer]);
      lod.models := Splice(lod.models, index, 0, [renderer.model]);
      r := renderer;
    }

    /**
      `deleteRenderer`: reads the renderer at `index` (undefined unless it is
      a position), then removes one element at that splice start from both lists.
     */
    method DeleteRenderer(index: int) returns (r: Option<MeshRenderer>)
      requires Valid()
      modifies this, lod
      ensures Valid()
      ensures r == At(old(renderers), index)
      ensures renderers == Splice(old(renderers), index, 1, [])
      ensures lod.models == Splice(old(lod.models), index, 1, [])
      ensures screenRelativeTransitionHeight == old(screenRelativeTransitionHeight)
    {
      r := At(renderers, index);
      SpliceMap(ModelOf, renderers, index, 1, []);
      renderers := Splice(renderers, index, 1, []);
      lod.models := Splice(lod.models, index, 1, []);
    }

    /** `getRenderer`: the renderer at a position, undefined at any other index. */
    function GetRenderer(index: int): (r: Option<MeshRenderer>)
      reads this
      ensures r.Some? <==> 0 <= index < RendererCount()
      ensures r.Some? ==> r.value == renderers[index]
    {
      At(renderers, index)
    }

    /** `setRenderer` at a position: that position changes in both lists, nothing else does. */
    method SetRenderer(index: int, renderer: MeshRenderer)
      requires Valid() && 0 <= index < |renderers|
      modifies this, lod
      ensures Valid()
      ensures renderers == old(renderers)[index := renderer]
      ensures lod.models == old(lod.models)[index := renderer.model]
      ensures RendererCount() == old(RendererCount())
      ensures screenRelativeTransitionHeight == old(screenRelativeTransitionHeight)
    {
      renderers := renderers[index := renderer];
      lod.models := lod.models[index := renderer.model];
    }

    /** `rendererCount`; under the invariant it is also the number of scene models. */
    function RendererCount(): (n: nat)
      reads this
      ensures n == |renderers|
    {
      |renderers|
    }
  }

  /** With the pairing in place, the count agrees with the scene block's model list. */
  lemma RendererCountPaired(l: LOD)
    requires l.Valid()
    ensures l.RendererCount() == |l.lod.models|
    ensures forall i :: 0 <= i < l.RendererCount() ==> l.lod.models[i] == l.GetRenderer(i).value.model
  {
  }

  // ----- LODGroup -----

  function SceneLodOf(l: LOD): SceneLod {
    l.lod
  }

  /** The LOD group component: its levels and the scene group they are mirrored into. */
  class LODGroup {
    var size: real
    var lods: seq<LOD>
    const lodGroup: SceneLodGroup

    /** The scene group lists, position by position, the scene block of each level. */
    ghost predicate Paired()
      reads this, lodGroup
    {
      lodGroup.lods == Map(SceneLodOf, lods)
    }

    constructor ()
      ensures Paired() && fresh(lodGroup)
      ensures lods == [] && size == 1.0 && lodGroup.size == 1.0
    {
      size := 1.0;
      lods := [];
      var g := new SceneLodGroup();
      g.size := 1.0;
      lodGroup := g;
    }

    /** `insertLOD`: the same splice on both lists, returning the level inserted. */
    method InsertLOD(index: int, lod: LOD) returns (r: LOD)
      modifies this`lods, lodGroup`lods
      ensures lods == Splice(old(lods), index, 0, [lod])
      ensures lodGroup.lods == Splice(old(lodGroup.lods), index, 0, [lod.lod])
      ensures old(Paired()) ==> Paired()
      ensures r == lod
    {
      SpliceMap(SceneLodOf, lods, index, 0, [lod]);
      lods := Splice(lods, index, 0, [lod]);
      lodGroup.lods := Splice(lodGroup.lods, index, 0, [lod.lod]);
      r := lod;
    }

    /** `deleteLOD`: reads the level at `index`, then removes one element at that splice start from both lists. */
    method DeleteLOD(index: int) returns (r: Option<LOD>)
      modifies this`lods, lodGroup`lods
      ensures r == At(old(lods), index)
      ensures lods == Splice(old(lods), index, 1, [])
      ensures lodGroup.lods == Splice(old(lodGroup.lods), index, 1, [])
      ensures old(Paired()) ==> Paired()
    {
      r := At(lods, index);
      SpliceMap(SceneLodOf, lods, index, 1, []);
      lods := Splice(lods, index, 1, []);
      lodGroup.lods := Splice(lodGroup.lods, index, 1, []);
    }

    /** `getLOD`: the level at a position, undefined at any other index. */
    function GetLOD(index: int): (r: Option<LOD>)
      reads this
      ensures r.Some? <==> 0 <= index < LodCount()
      ensures r.Some? ==> r.value == lods[index]
    {
      At(lods, index)
    }

    /**
      `setLOD` at a position replaces the level in the component's list only;
      the scene group keeps the old block, so the pairing survives exactly
      when the new level shares the old one's block.
     */
    method SetLOD(index: int, lod: LOD)
      requires 0 <= index < |lods|
      modifies this`lods
      ensures lods == old(lods)[index := lod]
      ensures LodCount() == old(LodCount())
      ensures old(Paired()) ==> (Paired() <==> lod.lod == old(lods[index]).lod)
    {
      lods := lods[index := lod];
      assert old(Paired()) && lod.lod != old(lods[index]).lod ==> lodGroup.lods[index] != Map(SceneLodOf, lods)[index];
    }

    /** `lodCount`. */
    function LodCount(): (n: nat)
      reads this
      ensures n == |lods|
    {
      |lods|
    }
  }

  /** Every splice keeps two lists that mirror each other in step; replacing one entry of one side breaks that. */
  lemma SetLODBreaksPairing(lods: seq<LOD>, scene: seq<SceneLod>, index: nat, lod: LOD)
    requires scene == Map(SceneLodOf, lods) && index < |lods|
    requires lod.lod != lods[index].lod
    ensures scene != Map(SceneLodOf, lods[index := lod])
  {
    assert Map(SceneLodOf, lods[index := lod])[index] == lod.lod;
  }

  // ----- Selecting the visible level -----

  /** The transition heights of a list of levels, in order. */
  function Heights(lods: seq<LOD>): (hs: seq<real>)
    reads lods
    ensures |hs| == |lods|
    ensures forall i :: 0 <= i < |lods| ==> hs[i] == lods[i].screenRelativeTransitionHeight
  {
    seq(|lods|, i reads lods requires 0 <= i < |lods| => lods[i].screenRelativeTransitionHeight)
  }

  /**
    The first level whose transition height the relative height reaches, or
    -1 when it reaches none.
   */
  function VisibleIndex(hs: seq<real>, relativeHeight: real): (r: int)
    ensures -1 <= r < |hs|
    ensures r == -1 <==> forall j :: 0 <= j < |hs| ==> relativeHeight < hs[j]
    ensures r >= 0 ==> relativeHeight >= hs[r] && forall j :: 0 <= j < r ==> relativeHeight < hs[j]
  {
    if |hs| == 0 then -1
    else if relativeHeight >= hs[0] then 0
    else
      var j := VisibleIndex(hs[1..], relativeHeight);
      assert forall k :: 1 <= k < |hs| ==> hs[k] == hs[1..][k - 1];
      if j < 0 then -1 else j + 1
  }

  /**
    `getVisibleLOD`: the camera-dependent relative height is an input (None
    when the group has no node, which `|| 0` turns into 0); the loop stops at
    the first level it reaches.
   */
  method GetVisibleLOD(group: LODGroup, relativeHeight: Option<real>) returns (lodIndex: int)
    ensures lodIndex == VisibleIndex(Heights(group.lods), relativeHeight.GetOr(0.0))
  {
    var rh := relativeHeight.GetOr(0.0);
    ghost var hs := Heights(group.lods);
    lodIndex := -1;
    var i := 0;
    while i < group.LodCount()
      invariant 0 <= i <= |group.lods|
      invariant forall j :: 0 <= j < i ==> rh < hs[j]
    {
      var lod := group.GetLOD(i).value;
      if rh >= lod.screenRelativeTransitionHeight {
        lodIndex := i;
        break;
      }
      i := i + 1;
    }
  }

  // ----- Collecting the renderers below a node -----

  /** A scene node: its mesh-renderer component, if any, and its children in order. */
  datatype Node = Node(renderer: Option<MeshRenderer>, children: seq<Node>)

  /**
    The renderers `recuGetSubRenderers` collects from a list of children, in
    order: a child with a renderer contributes it and is not entered, any
    other child contributes what its own children do.
   */
  function Collected(cs: seq<Node>): (r: seq<MeshRenderer>)
    ensures |cs| > 0 && cs[0].renderer.Some? ==> |r| > 0 && r[0] == cs[0].renderer.value
    decreases cs
  {
    if |cs| == 0 then []
    else
      var c := cs[|cs| - 1];
      Collected(cs[..|cs| - 1]) + (if c.renderer.Some? then [c.renderer.value] else Collected(c.children))
  }

  /**
    `path` picks a child at every level, ends at a node that has a renderer,
    and passes only through nodes that have none: a renderer nothing above
    it (below the root) hides.
   */
  predicate Exposed(cs: seq<Node>, path: seq<nat>)
    decreases |path|
  {
    |path| > 0 && path[0] < |cs| &&
    if |path| == 1 then cs[path[0]].renderer.Some?
    else cs[path[0]].renderer.None? && Exposed(cs[path[0]].children, path[1..])
  }

  /** The renderer an exposed path ends at. */
  function Target(cs: seq<Node>, path: seq<nat>): MeshRenderer
    requires Exposed(cs, path)
    decreases |path|
  {
    if |path| == 1 then cs[path[0]].renderer.value
    else Target(cs[path[0]].children, path[1..])
  }

  /** Some exposed path in `cs` ends at `r`. */
  ghost predicate Reaches(cs: seq<Node>, r: MeshRenderer) {
    exists path :: Exposed(cs, path) && Target(cs, path) == r
  }

  /** Collecting from a list is collecting from all but its last child, then from that child. */
  lemma CollectedLast(cs: seq<Node>)
    requires |cs| > 0
    ensures var c := cs[|cs| - 1];
            Collected(cs) == Collected(cs[..|cs| - 1]) + (if c.renderer.Some? then [c.renderer.value] else Collected(c.children))
  {
  }

  /** An exposed path into the leading children is exposed, to the same renderer, in the whole list. */
  lemma ExposedExtend(cs: seq<Node>, c: Node, path: seq<nat>)
    requires Exposed(cs, path)
    ensures Exposed(cs + [c], path) && Target(cs + [c], path) == Target(cs, path)
  {
    assert (cs + [c])[path[0]] == cs[path[0]];
  }

  /** Every collected renderer is reached by an exposed path. */
  lemma {:induction false} CollectedIsExposed(cs: seq<Node>, r: MeshRenderer)
    requires r in Collected(cs)
    ensures exists path :: Exposed(cs, path) && Target(cs, path) == r
    decreases cs
  {
    var last := |cs| - 1;
    var init, c := cs[..last], cs[last];
    assert cs == init + [c];
    CollectedLast(cs);
    if r in Collected(init) {
      CollectedIsExposed(init, r);
      var path :| Exposed(init, path) && Target(init, path) == r;
      ExposedExtend(init, c, path);
    } else if c.renderer.Some? {
      assert Exposed(cs, [last]) && Target(cs, [last]) == r;
    } else {
      CollectedIsExposed(c.children, r);
      var q :| Exposed(c.children, q) && Target(c.children, q) == r;
      var path := [last] + q;
      assert path[1..] == q;
      assert Exposed(cs, path) && Target(cs, path) == r;
    }
  }

  /** The renderer at the end of every exposed path is collected. */
  lemma {:induction false} ExposedIsCollected(cs: seq<Node>, path: seq<nat>)
    requires Exposed(cs, path)
    ensures Target(cs, path) in Collected(cs)
    decreases cs
  {
    var last := |cs| - 1;
    var init, c := cs[..last], cs[last];
    CollectedLast(cs);
    if path[0] < last {
      assert cs[path[0]] == init[path[0]];
      assert Exposed(init, path) && Target(init, path) == Target(cs, path);
      ExposedIsCollected(init, path);
    } else if |path| > 1 {
      ExposedIsCollected(c.children, path[1..]);
    }
  }

  /**
    `recuGetSubRenderers(node, renderers)`: pushes onto the accumulator what
    the node's children collect; a child without a renderer is entered only
    when it has children of its own.
   */
  method CollectSubRenderers(node: Node, renderers: seq<MeshRenderer>) returns (out: seq<MeshRenderer>)
    ensures out == renderers + Collected(node.children)
    decreases node
  {
    out := renderers;
    for i := 0 to |node.children|
      invariant out == renderers + Collected(node.children[..i])
    {
      var subNode := node.children[i];
      CollectedLast(node.children[..i + 1]);
      assert node.children[..i + 1][..i] == node.children[..i];
      if subNode.renderer.Some? {
        out := out + [subNode.renderer.value];
      } else if |subNode.children| > 0 {
        out := CollectSubRenderers(subNode, out);
      }
    }
    assert node.children[..|node.children|] == node.children;
  }

  /** `getAvailableRenderers`: the renderers collected below the group's node, starting from an empty list. */
  method GetAvailableRenderers(root: Node) returns (renderers: seq<MeshRenderer>)
    ensures renderers == Collected(root.children)
    ensures forall r :: r in renderers <==> Reaches(root.children, r)
  {
    renderers := CollectSubRenderers(root, []);
    forall r | r in renderers
      ensures Reaches(root.children, r)
    {
      CollectedIsExposed(root.children, r);
    }
    forall r | Reaches(root.children, r)
      ensures r in renderers
    {
      var path :| Exposed(root.children, path) && Target(root.children, path) == r;
      ExposedIsCollected(root.children, path);
    }
  }

  // ----- How `_createLODGroup` orders the levels it creates -----

  /**
    The order the levels made from an available-renderers list end up in
    when each new level is inserted with `insertLOD(-1, …)`, as written.
   */
  function CreatedOrder<T>(levels: seq<T>): seq<T> {
    if |levels| == 0 then []
    else Splice(CreatedOrder(levels[..|levels| - 1]), -1, 0, [levels[|levels| - 1]])
  }

  /** As written, the first level created ends up last and the others keep their order. */
  lemma {:induction false} CreatedOrderRotates<T>(levels: seq<T>)
    requires |levels| > 0
    ensures CreatedOrder(levels) == levels[1..] + [levels[0]]
  {
    var n := |levels|;
    if n > 1 {
      var init := levels[..n - 1];
      CreatedOrderRotates(init);
      InsertMinusOne(CreatedOrder(init), levels[n - 1]);
      assert init[1..] + [init[0]] == levels[1..n - 1] + [levels[0]];
      assert levels[1..] == levels[1..n - 1] + [levels[n - 1]];
    }
  }

  /** The same construction with the documented "-1 appends" insertion. */
  function IntendedOrder<T>(levels: seq<T>): seq<T> {
    if |levels| == 0 then []
    else InsertIntended(IntendedOrder(levels[..|levels| - 1]), -1, levels[|levels| - 1])
  }

  /** With the documented insertion the levels stay in creation order. */
  lemma {:induction false} IntendedOrderKeeps<T>(levels: seq<T>)
    ensures IntendedOrder(levels) == levels
  {
    if |levels| > 0 {
      IntendedOrderKeeps(levels[..|levels| - 1]);
      assert levels == levels[..|levels| - 1] + [levels[|levels| - 1]];
    }
  }

  /** Heights that strictly decrease from the first level to the last, as the created levels' do. */
  predicate StrictlyDecreasing(hs: seq<real>) {
    forall i, j :: 0 <= i < j < |hs| ==> hs[j] < hs[i]
  }

  /** The heights `1 - k / (n + 1)`, k = 1..n, that level k of n created levels receives. */
  function CreatedHeights(n: nat): (hs: seq<real>)
    ensures |hs| == n && StrictlyDecreasing(hs)
  {
    var hs := seq(n, k requires 0 <= k < n => 1.0 - (k + 1) as real / (n + 1) as real);
    forall i, j | 0 <= i < j < n
      ensures hs[j] < hs[i]
    {
      DivideMonotone((i + 1) as real, (j + 1) as real, (n + 1) as real);
    }
    hs
  }

  lemma DivideMonotone(a: real, b: real, c: real)
    requires a < b && c > 0.0
    ensures a / c < b / c
  {
    assert b / c - a / c == (b - a) / c;
  }

  /**
    As written, with two or more created levels the first one (the highest
    threshold) is never the visible level: any height that reaches it also
    reaches the level now in front.
   */
  lemma FirstCreatedLevelNeverVisible(hs: seq<real>, relativeHeight: real)
    requires |hs| >= 2 && StrictlyDecreasing(hs)
    ensures VisibleIndex(CreatedOrder(hs), relativeHeight) != |hs| - 1
  {
    CreatedOrderRotates(hs);
    var order := CreatedOrder(hs);
    assert order[0] == hs[1] && order[|hs| - 1] == hs[0];
  }

  /** With the intended order every created level is visible at its own threshold. */
  lemma EveryIntendedLevelVisible(hs: seq<real>, k: nat)
    requires StrictlyDecreasing(hs) && k < |hs|
    ensures VisibleIndex(IntendedOrder(hs), hs[k]) == k
  {
    IntendedOrderKeeps(hs);
  }
}
