/**
 * The zoomable treemap: a fixed hierarchy of cells whose boxes and depths
 * d3.treemap has already laid out, the zoom state that a click on a cell or
 * on the "up" button changes, and the colour lookup that climbs to the
 * ancestor-or-self at depth min(depth, 2).
 */
module Treemap {
  import opened JsValues

  type NodeId = nat

  datatype Box = Box(x0: real, y0: real, x1: real, y1: real)

  /** A node of the laid-out hierarchy. A leaf has no children. */
  datatype Node = Node(name: string, depth: nat, parent: Option<NodeId>, children: seq<NodeId>, box: Box)

  /** The hierarchy, with `cells` the nodes in the order of
      nodes.descendants(), one div per node. */
  datatype Tree = Tree(nodes: map<NodeId, Node>, root: NodeId, cells: seq<NodeId>)

  /** A non-root node has a parent in the tree, one level up, which is not a leaf. */
  ghost predicate ParentOk(t: Tree, n: NodeId)
    requires n in t.nodes
  {
    && t.nodes[n].parent.Some?
    && t.nodes[n].parent.value in t.nodes
    && t.nodes[t.nodes[n].parent.value].depth + 1 == t.nodes[n].depth
    && |t.nodes[t.nodes[n].parent.value].children| > 0
  }

  /** What d3.hierarchy guarantees: a root at depth 0 without a parent, every
      other node one level below a parent that is not a leaf, children that
      point back to their parent, and one cell per node. */
  ghost predicate WellFormed(t: Tree)
  {
    && t.root in t.nodes
    && t.nodes[t.root].depth == 0
    && t.nodes[t.root].parent == None
    && (forall n {:trigger ParentOk(t, n)} :: n in t.nodes && n != t.root ==> ParentOk(t, n))
    && (forall n, c :: n in t.nodes && c in t.nodes[n].children ==>
          c in t.nodes && t.nodes[c].parent == Some(n))
    && (forall c :: c in t.cells <==> c in t.nodes)
  }

  /** The facts WellFormed gives about one node's parent. */
  lemma ParentFacts(t: Tree, n: NodeId)
    requires WellFormed(t) && n in t.nodes && n != t.root
    ensures t.nodes[n].parent.Some? && t.nodes[n].parent.value in t.nodes
    ensures t.nodes[t.nodes[n].parent.value].depth + 1 == t.nodes[n].depth
    ensures |t.nodes[t.nodes[n].parent.value].children| > 0
  {
    assert ParentOk(t, n);
  }

  predicate HasChildren(t: Tree, n: NodeId)
    requires n in t.nodes
  {
    |t.nodes[n].children| > 0
  }

  /** The datum the up button gets: `d.parent || nodes`. */
  function UpTarget(t: Tree, n: NodeId): (r: NodeId)
    requires WellFormed(t) && n in t.nodes
    ensures r in t.nodes
    ensures n != t.root ==> t.nodes[r].depth + 1 == t.nodes[n].depth
    ensures n == t.root ==> r == t.root
  {
    match t.nodes[n].parent
    case Some(p) => ParentFacts(t, n); p
    case None => if n != t.root then ParentFacts(t, n); t.root else t.root
  }

  /** The node reached from n by k clicks on the up button. */
  function Climb(t: Tree, n: NodeId, k: nat): (r: NodeId)
    requires WellFormed(t) && n in t.nodes
    ensures r in t.nodes
  {
    if k == 0 then n else UpTarget(t, Climb(t, n, k - 1))
  }

  function Max0(x: int): nat
  {
    if x < 0 then 0 else x
  }

  /** Each up click goes one level up until the root, which it keeps: after
      k clicks from n the focus is at depth max(0, depth(n) - k), so after
      depth(n) clicks, and ever after, it is the root. */
  lemma {:induction false} UpClicksReachRoot(t: Tree, n: NodeId, k: nat)
    requires WellFormed(t) && n in t.nodes
    ensures t.nodes[Climb(t, n, k)].depth == Max0(t.nodes[n].depth - k)
    ensures k >= t.nodes[n].depth ==> Climb(t, n, k) == t.root
  {
    if k > 0 {
      UpClicksReachRoot(t, n, k - 1);
      var m := Climb(t, n, k - 1);
      if m != t.root {
        ParentFacts(t, m);
      }
    }
    var r := Climb(t, n, k);
    if r != t.root {
      ParentFacts(t, r);
    }
  }

  /** The whole zoom state visible to the page. */
  datatype View = View(
    currentDepth: Option<nat>, upTarget: NodeId,
    xDomain: (real, real), yDomain: (real, real), hidden: map<NodeId, bool>)

  /** The `hide` class every cell gets when zooming to depth `depth`: hidden
      exactly when it has children and sits at that depth or above. */
  function HideFlags(t: Tree, depth: nat): map<NodeId, bool>
  {
    map c | c in t.nodes :: HasChildren(t, c) && t.nodes[c].depth <= depth
  }

  /** The state zoom(d) leaves, whatever the state before it. */
  function Zoomed(t: Tree, d: NodeId): View
    requires WellFormed(t) && d in t.nodes
  {
    var node := t.nodes[d];
    View(Some(node.depth), UpTarget(t, d),
         (node.box.x0, node.box.x1), (node.box.y0, node.box.y1),
         HideFlags(t, node.depth))
  }

  /** After zoom(d) every cell deeper than d is shown; a cell at d's depth or
      above is hidden exactly when it has children, so no leaf is hidden. */
  lemma ZoomVisibility(t: Tree, d: NodeId, c: NodeId)
    requires WellFormed(t) && d in t.nodes && c in t.nodes
    ensures c in Zoomed(t, d).hidden
    ensures t.nodes[c].depth > t.nodes[d].depth ==> !Zoomed(t, d).hidden[c]
    ensures t.nodes[c].depth <= t.nodes[d].depth ==> (Zoomed(t, d).hidden[c] <==> HasChildren(t, c))
    ensures !HasChildren(t, c) ==> !Zoomed(t, d).hidden[c]
  {
  }

  /** Zooming into a cell shows its children, and hides each strict
      ancestor (the cell k up clicks away, for k from 1 to the cell's
      depth), all of which have children. The cell itself is hidden only
      when it has children (ZoomVisibility). */
  lemma {:induction false} ZoomShowsChildrenHidesAncestors(t: Tree, d: NodeId, k: nat)
    requires WellFormed(t) && d in t.nodes
    requires 0 < k <= t.nodes[d].depth
    ensures forall c :: c in t.nodes[d].children ==> c in t.nodes && !Zoomed(t, d).hidden[c]
    ensures Zoomed(t, d).hidden[Climb(t, d, k)]
  {
    UpClicksReachRoot(t, d, k);
    UpClicksReachRoot(t, d, k - 1);
    var below := Climb(t, d, k - 1);
    ParentFacts(t, below);
    forall c | c in t.nodes[d].children
      ensures c in t.nodes && !Zoomed(t, d).hidden[c]
    {
      ParentFacts(t, c);
    }
  }

  /** Zooming to the root leaves the up button on the root, so clicking it
      again reproduces the same state. */
  lemma ZoomRootFixed(t: Tree)
    requires WellFormed(t)
    ensures UpTarget(t, t.root) == t.root
    ensures Zoomed(t, Zoomed(t, t.root).upTarget) == Zoomed(t, t.root)
  {
  }

  /** The colour accessor: climbs `d = d.parent` while the depth exceeds 2,
      and returns the ancestor-or-self whose name picks the colour. */
  method ColourNode(t: Tree, d: NodeId) returns (r: NodeId)
    requires WellFormed(t) && d in t.nodes
    ensures r in t.nodes
    ensures t.nodes[r].depth == if t.nodes[d].depth > 2 then 2 else t.nodes[d].depth
    ensures r == Climb(t, d, t.nodes[d].depth - t.nodes[r].depth)
  {
    r := d;
    ghost var k: nat := 0;
    while t.nodes[r].depth > 2
      invariant r in t.nodes
      invariant t.nodes[r].depth + k == t.nodes[d].depth
      invariant t.nodes[d].depth > 2 ==> t.nodes[r].depth >= 2
      invariant t.nodes[d].depth <= 2 ==> k == 0
      invariant r == Climb(t, d, k)
      decreases t.nodes[r].depth
    {
      ParentFacts(t, r);
      r := t.nodes[r].parent.value;
      k := k + 1;
    }
  }

  /** The first pass of zoom over every cell: the ancestors() filter lets
      every cell through, and each gets the hide class exactly when it has
      children. */
  method HideThisDepthAndAbove(t: Tree, h: map<NodeId, bool>) returns (r: map<NodeId, bool>)
    requires WellFormed(t) && h.Keys == t.nodes.Keys
    ensures r.Keys == t.nodes.Keys
    ensures forall c :: c in r ==> (r[c] <==> HasChildren(t, c))
  {
    var cells := t.cells;
    r := h;
    var i := 0;
    while i < |cells|
      invariant 0 <= i <= |cells|
      invariant r.Keys == t.nodes.Keys
      invariant forall c :: c in r ==> r[c] == if c in cells[..i] then HasChildren(t, c) else h[c]
    {
      assert cells[..i + 1] == cells[..i] + [cells[i]];
      r := r[cells[i] := HasChildren(t, cells[i])];
      i := i + 1;
    }
    assert cells[..i] == cells;
  }

  /** The second pass of zoom: every cell deeper than `depth` loses the hide
      class; the others keep what they had. */
  method ShowBelow(t: Tree, depth: nat, h: map<NodeId, bool>) returns (r: map<NodeId, bool>)
    requires WellFormed(t) && h.Keys == t.nodes.Keys
    ensures r.Keys == t.nodes.Keys
    ensures forall c :: c in r ==> (r[c] <==> h[c] && t.nodes[c].depth <= depth)
  {
    var cells := t.cells;
    r := h;
    var i := 0;
    while i < |cells|
      invariant 0 <= i <= |cells|
      invariant r.Keys == t.nodes.Keys
      invariant forall c :: c in r ==> r[c] == (h[c] && !(c in cells[..i] && t.nodes[c].depth > depth))
    {
      assert cells[..i + 1] == cells[..i] + [cells[i]];
      if t.nodes[cells[i]].depth > depth {
        r := r[cells[i] := false];
      }
      i := i + 1;
    }
    assert cells[..i] == cells;
  }

  /** The treemap page's state: the laid-out tree, and what zoom changes. */
  class TreemapZoom {
    const tree: Tree
    var currentDepth: Option<nat>
    var upTarget: NodeId
    var xDomain: (real, real)
    var yDomain: (real, real)
    var hidden: map<NodeId, bool>

    ghost predicate Valid()
      reads this
    {
      WellFormed(tree) && upTarget in tree.nodes && hidden.Keys == tree.nodes.Keys
    }

    function Current(): View
      reads this
    {
      View(currentDepth, upTarget, xDomain, yDomain, hidden)
    }

    /** Page load: currentDepth undefined, the up button on the root, both
        domains [0, 100], no cell hidden. */
    constructor (t: Tree)
      requires WellFormed(t)
      ensures Valid() && tree == t
      ensures currentDepth == None && upTarget == t.root
      ensures xDomain == (0.0, 100.0) && yDomain == (0.0, 100.0)
      ensures hidden == map c | c in t.nodes :: false
    {
      tree := t;
      currentDepth := None;
      upTarget := t.root;
      xDomain := (0.0, 100.0);
      yDomain := (0.0, 100.0);
      hidden := map c | c in t.nodes :: false;
    }

    /** zoom(d): records d's depth, points the up button at d's parent (the
        root for the root), sets both domains to d's box, then marks every
        cell hidden when it has children and shows again every cell deeper
        than d. The state after depends on d alone, so zooming to the same
        node twice changes nothing the second time. */
    method Zoom(d: NodeId)
      requires Valid() && d in tree.nodes
      modifies this
      ensures Valid()
      ensures Current() == Zoomed(tree, d)
    {
      var node := tree.nodes[d];
      currentDepth := Some(node.depth);
      upTarget := if node.parent.Some? then node.parent.value else tree.root;
      assert upTarget == UpTarget(tree, d);
      xDomain := (node.box.x0, node.box.x1);
      yDomain := (node.box.y0, node.box.y1);

      var h := HideThisDepthAndAbove(tree, hidden);
      h := ShowBelow(tree, node.depth, h);
      forall c | c in h
        ensures h[c] == HideFlags(tree, node.depth)[c]
      {
      }
      assert h == HideFlags(tree, node.depth);
      hidden := h;
    }

    /** A click on the up button: zoom to the node it holds. */
    method ClickUp()
      requires Valid()
      modifies this
      ensures Valid()
      ensures Current() == Zoomed(tree, old(upTarget))
    {
      Zoom(upTarget);
    }
  }
}
