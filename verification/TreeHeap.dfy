/** Tree nodes on the heap: backing a value up, undoing virtual losses, re-rooting, deleting. */
module TreeHeap {

  class TreeNode {
    var fa: TreeNode?
    var ch: seq<TreeNode>
    var size: int
    var expandState: int
    var move: int
    var visitCount: int
    var virtualLossCount: int
    var totalAction: int
    var value: real

    /** InitNode */
    constructor (fa: TreeNode?, move: int)
      ensures this.fa == fa && ch == [] && this.move == move && Counters() == FreshCounters()
    {
      this.fa := fa;
      ch := [];
      size := 1;
      expandState := 0;
      this.move := move;
      visitCount := 0;
      virtualLossCount := 0;
      totalAction := 0;
      value := 0.0;
    }

    /** What backing up leaves alone. */
    ghost function Place(): (TreeNode?, seq<TreeNode>, int)
      reads this`fa, this`ch, this`move
    {
      (fa, ch, move)
    }

    ghost function Counters(): Counts
      reads this`size, this`expandState, this`visitCount, this`virtualLossCount, this`totalAction
    {
      Counts(size, expandState, visitCount, virtualLossCount, totalAction)
    }
  }

  datatype Counts = Counts(size: int, expandState: int, visitCount: int, virtualLossCount: int, totalAction: int)

  ghost function FreshCounters(): Counts { Counts(1, 0, 0, 0, 0) }

  // ---------- walking up ----------

  /** `path` climbs the fa pointers to a root. */
  ghost predicate Climbs(path: seq<TreeNode>)
    reads path
  {
    && |path| > 0
    && (forall i, j :: 0 <= i < j < |path| ==> path[i] != path[j])
    && (forall i :: 0 <= i < |path| - 1 ==> path[i].fa == path[i + 1])
    && path[|path| - 1].fa == null
  }

  /** The value after `i` changes of side. */
  function Signed(value: int, i: nat): int { if i % 2 == 0 then value else -value }

  ghost function BackedUp(c: Counts, len: int, value: int): Counts {
    c.(size := c.size + len, visitCount := c.visitCount + 1, virtualLossCount := c.virtualLossCount - 1,
       totalAction := c.totalAction + value)
  }

  /** (int64_t)((double)value * k_action_value_base): a power of two scales a float exactly, and the
      cast drops the fraction. */
  function Fixed(value: real): int {
    var scaled := value * 65536.0;
    if scaled >= 0.0 then scaled.Floor else -(-scaled).Floor
  }

  lemma FixedRange(value: real)
    requires -1.0 <= value <= 1.0
    ensures -65536 <= Fixed(value) <= 65536 && Fixed(-value) == -Fixed(value)
  {}

  /** The scaled value without its fraction, towards zero. */
  lemma FixedExact(value: real)
    ensures value >= 0.0 ==> 0 <= Fixed(value) && Fixed(value) as real <= 65536.0 * value < Fixed(value) as real + 1.0
    ensures value <= 0.0 ==> 0 >= Fixed(value) && Fixed(value) as real >= 65536.0 * value > Fixed(value) as real - 1.0
  {}

  lemma SignedAlternates(value: int)
    ensures Signed(value, 0) == value
    ensures forall i: nat :: Signed(value, i + 1) == -Signed(value, i)
  {}

  method Backup(node0: TreeNode, value0: real, len: int, ghost path: seq<TreeNode>)
    requires Climbs(path) && path[0] == node0
    modifies path
    ensures node0.value == value0
    ensures forall i :: 0 <= i < |path| ==> path[i].Counters() == BackedUp(old(path[i].Counters()), len, Signed(Fixed(value0), i))
    ensures forall n :: n in path ==> n.Place() == old(n.Place()) && (n != node0 ==> n.value == old(n.value))
  {
    node0.value := value0;
    var node: TreeNode?, value := node0, Fixed(value0);
    ghost var k := 0;
    while node != null
      invariant 0 <= k <= |path| && node == (if k < |path| then path[k] else null) && value == Signed(Fixed(value0), k)
      invariant forall i :: 0 <= i < k ==> path[i].Counters() == BackedUp(old(path[i].Counters()), len, Signed(Fixed(value0), i))
      invariant forall i :: k <= i < |path| ==> path[i].Counters() == old(path[i].Counters())
      invariant forall n :: n in path ==> n.Place() == old(n.Place()) && (n != node0 ==> n.value == old(n.value))
      invariant node0.value == value0
      decreases |path| - k
    {
      BackupNode(node, value, len);
      assert node.Place() == old(path[k].Place());
      node := node.fa;
      value := -value;
      k := k + 1;
    }
  }

  /** One round of the loop in Backup. */
  method BackupNode(node: TreeNode, value: int, len: int)
    modifies node`size, node`visitCount, node`virtualLossCount, node`totalAction
    ensures node.Counters() == BackedUp(old(node.Counters()), len, value)
  {
    node.size := node.size + len;
    node.visitCount := node.visitCount + 1;
    node.virtualLossCount := node.virtualLossCount - 1;
    node.totalAction := node.totalAction + value;
  }

  method UndoVirtualLoss(node0: TreeNode, ghost path: seq<TreeNode>)
    requires Climbs(path) && path[0] == node0
    modifies path
    ensures forall n :: n in path ==>
              n.Counters() == old(n.Counters()).(virtualLossCount := old(n.virtualLossCount) - 1)
    ensures forall n :: n in path ==> n.Place() == old(n.Place()) && n.value == old(n.value)
  {
    var node: TreeNode? := node0;
    ghost var k := 0;
    while node != null
      invariant 0 <= k <= |path| && node == if k < |path| then path[k] else null
      invariant forall i :: 0 <= i < k ==>
                  path[i].Counters() == old(path[i].Counters()).(virtualLossCount := old(path[i].virtualLossCount) - 1)
      invariant forall i :: k <= i < |path| ==> path[i].Counters() == old(path[i].Counters())
      invariant forall n :: n in path ==> n.Place() == old(n.Place()) && n.value == old(n.value)
      decreases |path| - k
    {
      node.virtualLossCount := node.virtualLossCount - 1;
      assert node.Place() == old(path[k].Place());
      node := node.fa;
      k := k + 1;
    }
  }

  ghost function CountersAlong(path: seq<TreeNode>): seq<Counts>
    reads path
  {
    seq(|path|, i requires 0 <= i < |path| reads path => path[i].Counters())
  }

  // ---------- trees ----------

  /** A tree of heap nodes, as a value. */
  datatype Shape = Shape(node: TreeNode, kids: seq<Shape>)

  ghost function Nodes(s: Shape): set<TreeNode> {
    {s.node} + set i, x | 0 <= i < |s.kids| && x in Nodes(s.kids[i]) :: x
  }

  ghost function Tops(kids: seq<Shape>): seq<TreeNode> {
    seq(|kids|, i requires 0 <= i < |kids| => kids[i].node)
  }

  /** No node occurs twice. */
  ghost predicate Simple(s: Shape) {
    && (forall i :: 0 <= i < |s.kids| ==> Simple(s.kids[i]) && s.node !in Nodes(s.kids[i]))
    && (forall i, j :: 0 <= i < j < |s.kids| ==> Nodes(s.kids[i]) !! Nodes(s.kids[j]))
  }

  datatype Cell = Cell(fa: TreeNode?, ch: seq<TreeNode>)

  type Links = map<TreeNode, Cell>

  /** The pointers of `s`, seen as a value, are those of the links. */
  ghost predicate Forms(L: Links, s: Shape, fa: TreeNode?) {
    && s.node in L && L[s.node] == Cell(fa, Tops(s.kids))
    && forall i :: 0 <= i < |s.kids| ==> Forms(L, s.kids[i], s.node)
  }

  ghost function Snapshot(S: set<TreeNode>): Links
    reads S
  {
    map n | n in S :: Cell(n.fa, n.ch)
  }

  lemma {:induction false} FormsFrame(L: Links, M: Links, s: Shape, fa: TreeNode?)
    requires Forms(L, s, fa) && forall n :: n in Nodes(s) && n in L ==> n in M && M[n] == L[n]
    ensures Forms(M, s, fa)
  {
    assert s.node in Nodes(s);
    forall i | 0 <= i < |s.kids| ensures Forms(M, s.kids[i], s.node) {
      assert forall x :: x in Nodes(s.kids[i]) ==> x in Nodes(s);
      FormsFrame(L, M, s.kids[i], s.node);
    }
  }

  // ---------- cutting a subtree out ----------

  ghost predicate Within(sub: Shape, s: Shape) {
    sub == s || exists i :: 0 <= i < |s.kids| && Within(sub, s.kids[i])
  }

  /** `s` with the children of node `c` cut off. */
  ghost function Pruned(s: Shape, c: TreeNode): Shape {
    if s.node == c then Shape(c, [])
    else Shape(s.node, seq(|s.kids|, i requires 0 <= i < |s.kids| => Pruned(s.kids[i], c)))
  }

  lemma {:induction false} WithinNodes(sub: Shape, s: Shape)
    requires Within(sub, s)
    ensures Nodes(sub) <= Nodes(s) && sub.node in Nodes(s)
    ensures Simple(s) ==> Simple(sub)
  {
    if sub != s {
      var i :| 0 <= i < |s.kids| && Within(sub, s.kids[i]);
      WithinNodes(sub, s.kids[i]);
    }
  }

  lemma {:induction false} PrunedAbsent(s: Shape, c: TreeNode)
    requires c !in Nodes(s)
    ensures Pruned(s, c) == s
  {
    assert s.node in Nodes(s);
    forall i | 0 <= i < |s.kids| ensures Pruned(s.kids[i], c) == s.kids[i] {
      assert forall x :: x in Nodes(s.kids[i]) ==> x in Nodes(s);
      PrunedAbsent(s.kids[i], c);
    }
  }

  lemma KidsMinus(s: Shape, p: Shape, cut: set<TreeNode>)
    requires Simple(s) && p.node == s.node && |p.kids| == |s.kids| && s.node !in cut
    requires forall j :: 0 <= j < |s.kids| ==> Simple(p.kids[j]) && Nodes(p.kids[j]) == Nodes(s.kids[j]) - cut
    ensures Nodes(p) == Nodes(s) - cut && Simple(p)
  {
    hide Nodes;
    forall x | x in Nodes(p) ensures x in Nodes(s) - cut {
      NodesMember(p, x);
      NodesMember(s, x);
      if j :| 0 <= j < |p.kids| && x in Nodes(p.kids[j]) {
        assert x in Nodes(s.kids[j]);
      }
    }
    forall x | x in Nodes(s) - cut ensures x in Nodes(p) {
      NodesMember(p, x);
      NodesMember(s, x);
      if j :| 0 <= j < |s.kids| && x in Nodes(s.kids[j]) {
        assert x in Nodes(p.kids[j]);
      }
    }
    forall i | 0 <= i < |p.kids| ensures p.node !in Nodes(p.kids[i]) {
      assert s.node !in Nodes(s.kids[i]);
    }
    forall i, j | 0 <= i < j < |p.kids| ensures Nodes(p.kids[i]) !! Nodes(p.kids[j]) {
      assert Nodes(s.kids[i]) !! Nodes(s.kids[j]);
    }
  }

  lemma NodesMember(s: Shape, x: TreeNode)
    ensures x in Nodes(s) <==> x == s.node || exists i :: 0 <= i < |s.kids| && x in Nodes(s.kids[i])
  {}

  /** Pruning takes away exactly the nodes strictly below the cut. */
  lemma {:induction false} PrunedNodes(s: Shape, sub: Shape)
    requires Simple(s) && Within(sub, s)
    ensures Nodes(Pruned(s, sub.node)) == Nodes(s) - (Nodes(sub) - {sub.node})
    ensures Simple(Pruned(s, sub.node))
  {
    var c := sub.node;
    WithinNodes(sub, s);
    if sub != s {
      var i :| 0 <= i < |s.kids| && Within(sub, s.kids[i]);
      WithinNodes(sub, s.kids[i]);
      PrunedNodes(s.kids[i], sub);
      var cut := Nodes(sub) - {c};
      var p := Pruned(s, c);
      forall j | 0 <= j < |s.kids| ensures Nodes(p.kids[j]) == Nodes(s.kids[j]) - cut && Simple(p.kids[j]) {
        if j != i {
          assert Nodes(s.kids[i]) !! Nodes(s.kids[j]);
          PrunedAbsent(s.kids[j], c);
        }
      }
      assert s.node !in Nodes(s.kids[i]);
      KidsMinus(s, p, cut);
    } else {
      assert Pruned(s, c) == Shape(c, []);
    }
  }

  /** The links after the cut: `c` has no children, and those it had point to `root`. */
  ghost predicate Cut(L: Links, M: Links, sub: Shape, root: TreeNode) {
    forall n :: n in L ==>
      n in M && M[n] == if n == sub.node then L[n].(ch := [])
                        else if n in Tops(sub.kids) then L[n].(fa := root)
                        else L[n]
  }

  /** A child's tree away from the cut is as before. */
  lemma PrunedSibling(L: Links, M: Links, s: Shape, sub: Shape, root: TreeNode, i: nat, j: nat)
    requires Simple(s) && i < |s.kids| && j < |s.kids| && i != j && Within(sub, s.kids[i])
    requires Forms(L, s.kids[j], s.node) && Cut(L, M, sub, root)
    ensures Pruned(s.kids[j], sub.node) == s.kids[j] && Forms(M, s.kids[j], s.node)
  {
    hide Nodes, Simple, Forms, Within, Cut;
    KidIsTree(s, i);
    KidsApart(s, i, j);
    WithinNodes(sub, s.kids[i]);
    CutElsewhere(L, M, s.kids[i], sub, root);
    PrunedAbsent(s.kids[j], sub.node);
    FormsFrame(L, M, s.kids[j], s.node);
  }

  /** A node above the cut keeps its cell. */
  lemma PrunedTop(L: Links, M: Links, s: Shape, fa: TreeNode?, sub: Shape, root: TreeNode, i: nat)
    requires Simple(s) && i < |s.kids| && Within(sub, s.kids[i]) && Forms(L, s, fa) && Cut(L, M, sub, root)
    ensures s.node != sub.node && s.node in M && M[s.node] == Cell(fa, Tops(s.kids))
    ensures Tops(Pruned(s, sub.node).kids) == Tops(s.kids)
  {
    hide Nodes, Simple, Within, Cut;
    KidIsTree(s, i);
    KidsInside(s, i);
    WithinNodes(sub, s.kids[i]);
    CutElsewhere(L, M, s.kids[i], sub, root);
  }

  lemma {:induction false} PrunedForms(L: Links, M: Links, s: Shape, fa: TreeNode?, sub: Shape, root: TreeNode)
    requires Simple(s) && Within(sub, s) && Forms(L, s, fa) && Cut(L, M, sub, root)
    ensures Forms(M, Pruned(s, sub.node), fa)
  {
    hide Nodes, Simple, Forms, Within, Cut, Tops;
    var c := sub.node;
    if sub == s {
      CutTop(L, M, s, fa, root);
    } else {
      var i := WithinKid(sub, s);
      KidIsTree(s, i);
      FormsAt(L, s, fa);
      PrunedTop(L, M, s, fa, sub, root, i);
      PrunedForms(L, M, s.kids[i], s.node, sub, root);
      forall j | 0 <= j < |s.kids| && j != i ensures Forms(M, Pruned(s.kids[j], c), s.node) {
        PrunedSibling(L, M, s, sub, root, i, j);
      }
      FormsTop(M, Pruned(s, c), fa);
    }
  }

  lemma WithinKid(sub: Shape, s: Shape) returns (i: nat)
    requires Within(sub, s) && sub != s
    ensures i < |s.kids| && Within(sub, s.kids[i])
  {
    i :| i < |s.kids| && Within(sub, s.kids[i]);
  }

  lemma CutTop(L: Links, M: Links, sub: Shape, fa: TreeNode?, root: TreeNode)
    requires Forms(L, sub, fa) && Cut(L, M, sub, root)
    ensures Forms(M, Pruned(sub, sub.node), fa)
  {
    assert Pruned(sub, sub.node) == Shape(sub.node, []);
  }

  lemma TopsInside(s: Shape)
    ensures forall n :: n in Tops(s.kids) ==> n in Nodes(s)
  {
    forall i | 0 <= i < |s.kids| ensures s.kids[i].node in Nodes(s) {
      assert s.kids[i].node in Nodes(s.kids[i]);
    }
  }

  /** The new root takes over: its tree is the old subtree with another top. */
  lemma MovedForms(L: Links, M: Links, sub: Shape, fa: TreeNode?, root: TreeNode)
    requires Simple(sub) && Forms(L, sub, fa) && Cut(L, M, sub, root) && root !in Nodes(sub)
    requires root in M && M[root] == Cell(null, Tops(sub.kids))
    ensures Forms(M, Shape(root, sub.kids), null) && Simple(Shape(root, sub.kids))
    ensures Nodes(Shape(root, sub.kids)) == Nodes(sub) - {sub.node} + {root}
  {
    var t := Shape(root, sub.kids);
    forall i | 0 <= i < |sub.kids| ensures Forms(M, sub.kids[i], root) && root !in Nodes(sub.kids[i]) {
      MovedKid(L, M, sub, i, root);
    }
    forall x ensures x in Nodes(t) <==> x in Nodes(sub) - {sub.node} + {root} {
      if x in Nodes(sub) && x != sub.node {
        var j :| 0 <= j < |sub.kids| && x in Nodes(sub.kids[j]);
      }
    }
  }

  lemma MovedKid(L: Links, M: Links, sub: Shape, i: nat, root: TreeNode)
    requires Simple(sub) && i < |sub.kids| && Forms(L, sub.kids[i], sub.node) && Cut(L, M, sub, root) && root !in Nodes(sub)
    ensures Forms(M, sub.kids[i], root) && root !in Nodes(sub.kids[i])
  {
    hide Nodes, Simple, Forms;
    var kid := sub.kids[i];
    KidsInside(sub, i);
    KidIsTree(sub, i);
    FormsAt(L, kid, sub.node);
    assert kid.node == Tops(sub.kids)[i];
    forall j | 0 <= j < |kid.kids| ensures Forms(M, kid.kids[j], kid.node) {
      KidsInside(kid, j);
      forall x | x in Nodes(kid.kids[j]) ensures x !in Tops(sub.kids) && x != sub.node {
        forall k | 0 <= k < |sub.kids| ensures sub.kids[k].node != x {
          KidsInside(sub, k);
          if k != i { KidsApart(sub, k, i); }
        }
      }
      FormsFrame(L, M, kid.kids[j], kid.node);
    }
    assert Forms(M, kid, root) by { FormsTop(M, kid, root); }
  }

  lemma FormsTop(M: Links, s: Shape, fa: TreeNode?)
    requires s.node in M && M[s.node] == Cell(fa, Tops(s.kids))
    requires forall i :: 0 <= i < |s.kids| ==> Forms(M, s.kids[i], s.node)
    ensures Forms(M, s, fa)
  {}

  // ---------- deleting ----------

  /** What deleting the first `i` children's trees has freed: all below those children. */
  ghost function Freed(s: Shape, i: nat): set<TreeNode>
    requires i <= |s.kids|
  {
    if i == 0 then {} else Freed(s, i - 1) + (Nodes(s.kids[i - 1]) - {s.kids[i - 1].node})
  }

  lemma {:induction false} FreedBefore(s: Shape, i: nat, x: TreeNode)
    requires Simple(s) && i <= |s.kids| && x in Freed(s, i)
    ensures exists j :: 0 <= j < i && x in Nodes(s.kids[j]) && x != s.kids[j].node
  {
    if x in Freed(s, i - 1) { FreedBefore(s, i - 1, x); }
  }

  lemma {:induction false} FreedContains(s: Shape, i: nat, j: nat)
    requires j < i <= |s.kids|
    ensures Nodes(s.kids[j]) - {s.kids[j].node} <= Freed(s, i)
  {
    if j < i - 1 { FreedContains(s, i - 1, j); }
  }

  lemma KidsApart(s: Shape, j: nat, k: nat)
    requires Simple(s) && j < |s.kids| && k < |s.kids| && j != k
    ensures Nodes(s.kids[j]) !! Nodes(s.kids[k])
  {
    assert j < k || k < j;
  }

  lemma KidsInside(s: Shape, j: nat)
    requires Simple(s) && j < |s.kids|
    ensures Nodes(s.kids[j]) <= Nodes(s) && s.node !in Nodes(s.kids[j]) && s.kids[j].node in Nodes(s.kids[j])
  {}

  lemma FreedNode(s: Shape, i: nat, x: TreeNode)
    requires Simple(s) && i <= |s.kids| && x in Freed(s, i)
    ensures x in Nodes(s) && x != s.node && (i < |s.kids| ==> x !in Nodes(s.kids[i]))
    ensures forall j :: 0 <= j < |s.kids| ==> s.kids[j].node != x
  {
    hide Nodes, Simple, Freed;
    FreedBefore(s, i, x);
    var k :| 0 <= k < i && x in Nodes(s.kids[k]) && x != s.kids[k].node;
    KidsInside(s, k);
    if i < |s.kids| { KidsApart(s, k, i); }
    forall j | 0 <= j < |s.kids| ensures s.kids[j].node != x {
      KidsInside(s, j);
      if j != k { KidsApart(s, j, k); }
    }
  }

  /** The part freed so far is apart from the next child's tree and from all the children. */
  lemma FreedApart(s: Shape, i: nat)
    requires Simple(s) && i <= |s.kids|
    ensures i < |s.kids| ==> Freed(s, i) !! Nodes(s.kids[i])
    ensures forall j :: 0 <= j < |s.kids| ==> s.kids[j].node !in Freed(s, i)
    ensures s.node !in Freed(s, i) && Freed(s, i) <= Nodes(s)
  {
    hide Nodes, Simple, Freed;
    forall x | x in Freed(s, i)
      ensures x in Nodes(s) && x != s.node && (i < |s.kids| ==> x !in Nodes(s.kids[i]))
      ensures forall j :: 0 <= j < |s.kids| ==> s.kids[j].node != x
    {
      FreedNode(s, i, x);
    }
  }

  ghost function SetOf(ns: seq<TreeNode>): set<TreeNode> { set n | n in ns }

  ghost function TopSet(s: Shape): set<TreeNode> { SetOf(Tops(s.kids)) }

  /** The children and what lies below them are all the nodes but the top. */
  lemma FreedAll(s: Shape)
    requires Simple(s)
    ensures Freed(s, |s.kids|) + TopSet(s) == Nodes(s) - {s.node}
    ensures Freed(s, |s.kids|) !! TopSet(s)
  {
    hide Freed;
    FreedApart(s, |s.kids|);
    TopsInside(s);
    forall x | x in Nodes(s) - {s.node} ensures x in Freed(s, |s.kids|) + TopSet(s) {
      var i :| 0 <= i < |s.kids| && x in Nodes(s.kids[i]);
      FreedContains(s, |s.kids|, i);
      assert Tops(s.kids)[i] == s.kids[i].node;
    }
    forall i | 0 <= i < |s.kids| ensures s.kids[i].node != s.node {
      NodesMember(s.kids[i], s.kids[i].node);
    }
  }

  lemma {:induction false} TopsCount(kids: seq<Shape>, i: nat)
    requires i <= |kids| && forall j, k :: 0 <= j < k < |kids| ==> kids[j].node != kids[k].node
    ensures |SetOf(Tops(kids[..i]))| == i
  {
    var S := SetOf(Tops(kids[..i]));
    if i > 0 {
      TopsCount(kids, i - 1);
      var S0 := SetOf(Tops(kids[..i - 1]));
      assert Tops(kids[..i]) == Tops(kids[..i - 1]) + [kids[i - 1].node];
      assert S == S0 + {kids[i - 1].node};
    } else {
      assert S == {};
    }
  }

  lemma TopSetCount(s: Shape)
    requires Simple(s)
    ensures |TopSet(s)| == |s.kids|
  {
    forall j, k | 0 <= j < k < |s.kids| ensures s.kids[j].node != s.kids[k].node {
      NodesMember(s.kids[j], s.kids[j].node);
      NodesMember(s.kids[k], s.kids[k].node);
      assert Nodes(s.kids[j]) !! Nodes(s.kids[k]);
    }
    TopsCount(s.kids, |s.kids|);
    assert s.kids[..|s.kids|] == s.kids;
  }

  // ---------- the engine's trees ----------

  ghost function UnionOf(all: seq<Shape>): set<TreeNode> {
    set i, x | 0 <= i < |all| && x in Nodes(all[i]) :: x
  }

  ghost predicate Apart(all: seq<Shape>) {
    && (forall i :: 0 <= i < |all| ==> Simple(all[i]))
    && (forall i, j :: 0 <= i < j < |all| ==> Nodes(all[i]) !! Nodes(all[j]))
  }

  ghost predicate AllForm(L: Links, all: seq<Shape>) {
    forall i :: 0 <= i < |all| ==> Forms(L, all[i], null)
  }

  class Engine {
    var root: TreeNode
    var deleteQueue: seq<TreeNode>
    ghost var tree: Shape
    ghost var discarded: seq<Shape>
    /** The allocated nodes, and those given back by delete. */
    ghost var heap: set<TreeNode>
    ghost var freed: set<TreeNode>

    /** Every allocated node is in the current tree or in exactly one tree that waits to be
        deleted; nothing else is reachable, and nothing freed is. */
    ghost predicate Valid()
      reads this, heap
    {
      && root == tree.node && deleteQueue == Tops(discarded)
      && Apart([tree] + discarded) && heap == UnionOf([tree] + discarded) && heap !! freed
      && AllForm(Snapshot(heap), [tree] + discarded)
    }

    /** Init: ChangeRoot(nullptr) when there is no root yet. */
    constructor ()
      ensures Valid() && fresh(root) && tree == Shape(root, []) && discarded == [] && freed == {}
      ensures root.Counters() == FreshCounters()
    {
      var r := new TreeNode(null, -1);
      root := r;
      deleteQueue := [];
      tree := Shape(r, []);
      discarded := [];
      heap := {r};
      freed := {};
      new;
      assert [tree] + discarded == [tree];
      OneTree(tree);
    }

    /** Makes a new root.  With a node of the tree it takes over that node's counters and
        children; the old tree, without them, is queued for deletion. */
    method ChangeRoot(node: TreeNode?, ghost sub: Shape)
      requires Valid()
      requires node != null ==> sub.node == node && Within(sub, tree)
      modifies this, heap
      ensures Valid() && fresh(root) && freed == old(freed) && heap == old(heap) + {root}
      ensures deleteQueue == old(deleteQueue) + [old(root)]
      ensures node == null ==> tree == Shape(root, []) && discarded == old(discarded) + [old(tree)]
                               && root.Counters() == FreshCounters()
      ensures node != null ==> tree == Shape(root, sub.kids) && discarded == old(discarded) + [Pruned(old(tree), node)]
                               && root.Counters() == old(node.Counters()) && root.move == old(node.move)
                               && Nodes(tree) == Nodes(sub) - {node} + {root}
      ensures node != null ==> root.value == old(node.value)
      ensures forall n :: n in old(heap) ==>
                n.Counters() == old(n.Counters()) && n.move == old(n.move) && n.value == old(n.value)
      ensures node != null ==> Cut(old(Snapshot(heap)), Snapshot(heap), sub, root)
    {
      hide Nodes, Simple, Forms, Apart, AllForm, UnionOf, Within, Tops, Cut, Pruned;
      ghost var all, L := [tree] + discarded, Snapshot(heap);
      ghost var rest := discarded;
      assert all[0] == tree && all[1..] == rest;
      var r := new TreeNode(null, -1);
      ghost var A, B := Shape(r, []), tree;
      if node != null {
        SubtreeFacts(L, all, sub);
        TakeOver(r, node, sub, L);
        A, B := Shape(r, sub.kids), Pruned(tree, node);
        CutMore(L, Snapshot(heap), Snapshot(heap + {r}), sub, r);
        Rerooting(L, Snapshot(heap + {r}), all, sub, r);
      } else {
        FreshTop(L, Snapshot(heap + {r}), all, r);
      }
      ghost var M := Snapshot(heap + {r});
      Install(r, A, B);
      assert Snapshot(heap) == M;
    }

    method Install(r: TreeNode, ghost A: Shape, ghost B: Shape)
      requires root == tree.node == B.node && r == A.node && deleteQueue == Tops(discarded) && freed !! heap + {r}
      requires AllForm(Snapshot(heap + {r}), [A] + discarded + [B]) && Apart([A] + discarded + [B])
      requires UnionOf([A] + discarded + [B]) == heap + {r}
      modifies this
      ensures Valid() && root == r && freed == old(freed) && heap == old(heap) + {r} && tree == A
      ensures discarded == old(discarded) + [B] && deleteQueue == old(deleteQueue) + [old(root)]
    {
      hide AllForm, UnionOf, Apart, Tops;
      TopsAppend(discarded, B);
      ghost var rest := discarded;
      deleteQueue := deleteQueue + [root];
      root := r;
      discarded := discarded + [B];
      tree := A;
      heap := heap + {r};
      assert [tree] + discarded == [A] + rest + [B];
    }

    method TakeOver(r: TreeNode, node: TreeNode, ghost sub: Shape, ghost L: Links)
      requires node in heap && r !in heap && L == Snapshot(heap) && sub.node == node && Tops(sub.kids) == node.ch
      requires forall n :: n in node.ch ==> n in heap && n != node
      modifies r, node`ch, node.ch
      ensures Cut(L, Snapshot(heap), sub, r) && r.fa == null && r.ch == old(node.ch)
      ensures r.Counters() == old(node.Counters()) && r.move == old(node.move) && r.value == old(node.value)
      ensures forall n :: n in heap ==>
                n.Counters() == old(n.Counters()) && n.move == old(n.move) && n.value == old(n.value)
    {
      r.fa := null;
      CopyCounters(r, node);
      r.move := node.move;
      r.value := node.value;
      Reparent(node.ch, r);
      r.ch := node.ch;
      node.ch := [];
    }

    method CopyCounters(r: TreeNode, node: TreeNode)
      requires r != node
      modifies r`size, r`expandState, r`visitCount, r`virtualLossCount, r`totalAction
      ensures r.Counters() == node.Counters()
    {
      r.size := node.size;
      r.expandState := node.expandState;
      r.visitCount := node.visitCount;
      r.virtualLossCount := node.virtualLossCount;
      r.totalAction := node.totalAction;
    }

    method Reparent(ch: seq<TreeNode>, r: TreeNode)
      requires r !in ch
      modifies ch
      ensures forall n :: n in ch ==> n.fa == r && n.ch == old(n.ch) && n.Counters() == old(n.Counters())
                                      && n.move == old(n.move) && n.value == old(n.value)
    {
      for i := 0 to |ch|
        invariant forall j :: 0 <= j < i ==> ch[j].fa == r
        invariant forall n :: n in ch ==> n.ch == old(n.ch) && n.Counters() == old(n.Counters())
                                          && n.move == old(n.move) && n.value == old(n.value)
      {
        ch[i].fa := r;
      }
    }

    /** Backup from a node of the engine's tree: the counters change on the way to the root and
        nowhere else, and the trees stay as they are. */
    method BackupFrom(node: TreeNode, value: real, len: int) returns (ghost path: seq<TreeNode>)
      requires Valid() && node in Nodes(tree)
      modifies heap
      ensures Valid() && Climbs(path) && path[0] == node && path[|path| - 1] == root
      ensures forall i :: 0 <= i < |path| ==>
                path[i] in heap && path[i].Counters() == BackedUp(old(path[i].Counters()), len, Signed(Fixed(value), i))
      ensures forall i :: 0 <= i < |path| ==>
                && path[i].size == old(path[i].size) + len && path[i].visitCount == old(path[i].visitCount) + 1
                && path[i].virtualLossCount == old(path[i].virtualLossCount) - 1
                && path[i].expandState == old(path[i].expandState)
      ensures forall i {:trigger path[i].totalAction} :: 0 <= i < |path| - 1 ==>
                path[i + 1].totalAction - old(path[i + 1].totalAction) == old(path[i].totalAction) - path[i].totalAction
      ensures var d := node.totalAction - old(node.totalAction);
              if value >= 0.0 then 0 <= d && d as real <= 65536.0 * value < d as real + 1.0
              else 0 >= d && d as real >= 65536.0 * value > d as real - 1.0
      ensures forall n :: n in heap ==>
                && n.Place() == old(n.Place())
                && (n !in path ==> n.Counters() == old(n.Counters()))
                && n.value == if n == node then value else old(n.value)
    {
      hide Nodes, Simple, Forms, UnionOf, Apart, AllForm, Tops, Signed, Fixed, BackedUp;
      path := PathUp(node);
      ghost var L := Snapshot(heap);
      Backup(node, value, len, path);
      forall n | n in heap ensures n.fa == old(n.fa) && n.ch == old(n.ch) {
        assert n.Place() == old(n.Place());
      }
      assert Snapshot(heap) == L;
      FixedExact(value);
      SignedAlternates(Fixed(value));
      BackedFields(path, old(CountersAlong(path)), len, Fixed(value));
    }

    method UndoFrom(node: TreeNode) returns (ghost path: seq<TreeNode>)
      requires Valid() && node in Nodes(tree)
      modifies heap
      ensures Valid() && Climbs(path) && path[0] == node && path[|path| - 1] == root
      ensures forall n :: n in heap ==>
                && n.Place() == old(n.Place()) && n.value == old(n.value)
                && n.Counters() == if n in path then old(n.Counters()).(virtualLossCount := old(n.virtualLossCount) - 1)
                                   else old(n.Counters())
    {
      hide Nodes, Simple, Forms, UnionOf, Apart, AllForm, Tops, Signed, Fixed, BackedUp;
      path := PathUp(node);
      ghost var L := Snapshot(heap);
      UndoVirtualLoss(node, path);
      forall n | n in heap ensures n.fa == old(n.fa) && n.ch == old(n.ch) {
        assert n.Place() == old(n.Place());
      }
      assert Snapshot(heap) == L;
    }

    /** What a backup along `path` does to each field, from what it does to the counters. */
    lemma BackedFields(path: seq<TreeNode>, before: seq<Counts>, len: int, value: int)
      requires |before| == |path|
      requires forall i :: 0 <= i < |path| ==> path[i].Counters() == BackedUp(before[i], len, Signed(value, i))
      ensures forall i :: 0 <= i < |path| ==>
                && path[i].size == before[i].size + len && path[i].visitCount == before[i].visitCount + 1
                && path[i].virtualLossCount == before[i].virtualLossCount - 1 && path[i].expandState == before[i].expandState
                && path[i].totalAction == before[i].totalAction + Signed(value, i)
    {
      forall i | 0 <= i < |path|
        ensures && path[i].size == before[i].size + len && path[i].visitCount == before[i].visitCount + 1
                && path[i].virtualLossCount == before[i].virtualLossCount - 1 && path[i].expandState == before[i].expandState
                && path[i].totalAction == before[i].totalAction + Signed(value, i)
      {
        assert path[i].Counters() == BackedUp(before[i], len, Signed(value, i));
      }
    }

    /** From every node of the tree the fa pointers climb to the root. */
    lemma PathUp(node: TreeNode) returns (path: seq<TreeNode>)
      requires Valid() && node in Nodes(tree)
      ensures Climbs(path) && path[0] == node && path[|path| - 1] == root
      ensures forall i :: 0 <= i < |path| ==> path[i] in heap
    {
      hide Nodes, Simple, Forms, UnionOf, Apart, AllForm;
      TreeAt(Snapshot(heap), [tree] + discarded, 0);
      path := ClimbingPath(Snapshot(heap), tree, null, node);
    }

    /** delete[] */
    ghost method FreeAll(nodes: seq<TreeNode>)
      requires forall n :: n in nodes ==> n !in freed
      modifies this`freed
      ensures freed == old(freed) + SetOf(nodes)
    {
      freed := freed + SetOf(nodes);
    }

    /** Frees everything below `node`, each node once and none before its children; returns how
        many there were. */
    method DeleteTree(node: TreeNode, ghost s: Shape, ghost region: set<TreeNode>, ghost fa: TreeNode?) returns (size: int)
      requires s.node == node && Simple(s) && Nodes(s) <= region && Forms(Snapshot(region), s, fa)
      requires Nodes(s) !! freed
      modifies this`freed
      ensures freed == old(freed) + (Nodes(s) - {node})
      ensures size == |Nodes(s)| - 1
      decreases s, 1
    {
      hide Nodes, Simple, Freed, Forms, SetOf;
      TopIn(s);
      FormsAt(Snapshot(region), s, fa);
      var ch := node.ch;
      size := DeleteBelow(ch, s, region);
      size := size + |ch|;
      AllFreed(s);
      FreeAll(ch);
    }

    /** The loop of DeleteTree over the children. */
    method DeleteBelow(ch: seq<TreeNode>, ghost s: Shape, ghost region: set<TreeNode>) returns (size: int)
      requires ch == Tops(s.kids) && Simple(s) && Nodes(s) <= region && Nodes(s) !! freed
      requires forall i :: 0 <= i < |s.kids| ==> Forms(Snapshot(region), s.kids[i], s.node) && ch[i] == s.kids[i].node
      modifies this`freed
      ensures freed == old(freed) + Freed(s, |ch|) && size == |Freed(s, |ch|)|
      decreases s, 0
    {
      hide Nodes, Simple, Freed, Forms;
      size := 0;
      NothingFreed(s);
      for i := 0 to |ch|
        invariant freed == old(freed) + Freed(s, i) && size == |Freed(s, i)|
      {
        NextKid(s, i);
        var k := DeleteTree(ch[i], s.kids[i], region, s.node);
        size := size + k;
      }
    }

    /** DeleteRoutine: takes the next tree off the queue and frees all of it. */
    method DeleteNext() returns (count: int)
      requires Valid() && deleteQueue != []
      modifies this
      ensures Valid() && root == old(root) && tree == old(tree) && discarded == old(discarded[1..])
      ensures freed == old(freed) + Nodes(old(discarded)[0]) && heap == old(heap) - Nodes(old(discarded)[0])
      ensures count == |Nodes(old(discarded)[0])|
    {
      hide Nodes, Simple, Forms, Apart, AllForm, UnionOf;
      ghost var s, all := discarded[0], [tree] + discarded;
      assert all[1] == s && deleteQueue[1..] == Tops(discarded[1..]);
      TopIn(s);
      TreeAt(Snapshot(heap), all, 1);
      var node := deleteQueue[0];
      deleteQueue := deleteQueue[1..];
      var size := DeleteTree(node, s, heap, null);
      FreeAll([node]);
      count := size + 1;
      ghost var L := Snapshot(heap);
      TakeOff(all);
      discarded := discarded[1..];
      heap := heap - Nodes(s);
      assert [tree] + discarded == [all[0]] + all[2..];
      TakeOffForms(L, Snapshot(heap), all);
    }
  }

  lemma TopsBelow(s: Shape)
    requires Simple(s)
    ensures forall n :: n in Tops(s.kids) ==> n in Nodes(s) && n != s.node
  {
    TopsInside(s);
    forall i | 0 <= i < |s.kids| ensures s.kids[i].node != s.node { KidsInside(s, i); }
  }

  lemma AllFormJoin(M: Links, A: Shape, rest: seq<Shape>, B: Shape)
    requires Forms(M, A, null) && AllForm(M, rest) && Forms(M, B, null)
    ensures AllForm(M, [A] + rest + [B])
  {
    hide Forms;
  }

  /** What the move of a subtree needs to know about it. */
  lemma SubtreeFacts(L: Links, all: seq<Shape>, sub: Shape)
    requires AllForm(L, all) && Apart(all) && |all| > 0 && Within(sub, all[0])
    ensures sub.node in UnionOf(all) && sub.node in L && L[sub.node].ch == Tops(sub.kids)
    ensures forall n :: n in Tops(sub.kids) ==> n in UnionOf(all) && n != sub.node
  {
    hide Nodes, Simple, Forms, Within, Tops, UnionOf;
    TreeAt(L, all, 0);
    WithinNodes(sub, all[0]);
    WithinForms(L, all[0], null, sub);
    TopsBelow(sub);
  }

  lemma Rerooting(L: Links, M: Links, all: seq<Shape>, sub: Shape, r: TreeNode)
    requires AllForm(L, all) && Apart(all) && |all| > 0 && Within(sub, all[0]) && r !in UnionOf(all)
    requires Cut(L, M, sub, r) && r in M && M[r] == Cell(null, Tops(sub.kids))
    ensures var A, B := Shape(r, sub.kids), Pruned(all[0], sub.node);
            && AllForm(M, [A] + all[1..] + [B]) && Apart([A] + all[1..] + [B])
            && UnionOf([A] + all[1..] + [B]) == UnionOf(all) + {r}
            && Nodes(A) == Nodes(sub) - {sub.node} + {r} && B.node == all[0].node
  {
    hide Nodes, Simple, Forms, Within, Tops, UnionOf, Cut, Apart, AllForm, Pruned;
    var A, B := Shape(r, sub.kids), Pruned(all[0], sub.node);
    TreeAt(L, all, 0);
    SplitForms(L, M, all[0], sub, r);
    CutElsewhere(L, M, all[0], sub, r);
    OthersForm(L, M, all);
    TopIn(sub);
    Rearranged(all, A, B, r);
    AllFormJoin(M, A, all[1..], B);
  }

  lemma FreshTop(L: Links, M: Links, all: seq<Shape>, r: TreeNode)
    requires AllForm(L, all) && Apart(all) && |all| > 0 && r !in UnionOf(all)
    requires (forall n :: n in L ==> n in M && M[n] == L[n]) && r in M && M[r] == Cell(null, [])
    ensures var A := Shape(r, []);
            && AllForm(M, [A] + all[1..] + [all[0]]) && Apart([A] + all[1..] + [all[0]])
            && UnionOf([A] + all[1..] + [all[0]]) == UnionOf(all) + {r}
  {
    hide Nodes, Simple, Forms, UnionOf, Apart, AllForm;
    var A := Shape(r, []);
    TreeAt(L, all, 0);
    OneTree(A);
    NewTop(M, r);
    FormsFrame(L, M, all[0], null);
    OthersForm(L, M, all);
    Rearranged(all, A, all[0], r);
    AllFormJoin(M, A, all[1..], all[0]);
  }

  lemma TopsAppend(kids: seq<Shape>, s: Shape)
    ensures Tops(kids + [s]) == Tops(kids) + [s.node]
  {}

  lemma NewTop(M: Links, r: TreeNode)
    requires r in M && M[r] == Cell(null, [])
    ensures Forms(M, Shape(r, []), null)
  {}

  lemma CutMore(L: Links, M0: Links, M: Links, sub: Shape, root: TreeNode)
    requires Cut(L, M0, sub, root) && forall n :: n in M0 ==> n in M && M[n] == M0[n]
    ensures Cut(L, M, sub, root)
  {}

  /** Both halves of the old tree are trees again, and share no node. */
  lemma SplitForms(L: Links, M: Links, tree: Shape, sub: Shape, root: TreeNode)
    requires Simple(tree) && Within(sub, tree) && Forms(L, tree, null) && Cut(L, M, sub, root) && root !in Nodes(tree)
    requires root in M && M[root] == Cell(null, Tops(sub.kids))
    ensures var A, B := Shape(root, sub.kids), Pruned(tree, sub.node);
            && Forms(M, A, null) && Forms(M, B, null) && Simple(A) && Simple(B)
            && Nodes(A) == Nodes(sub) - {sub.node} + {root}
            && Nodes(B) == Nodes(tree) - (Nodes(sub) - {sub.node}) && Nodes(sub) <= Nodes(tree)
            && B.node == tree.node
  {
    hide Nodes, Simple, Forms, Within, Tops, Cut;
    WithinNodes(sub, tree);
    WithinForms(L, tree, null, sub);
    var up :| Forms(L, sub, up);
    PrunedForms(L, M, tree, null, sub, root);
    PrunedNodes(tree, sub);
    MovedForms(L, M, sub, up, root);
  }

  lemma CutElsewhere(L: Links, M: Links, tree: Shape, sub: Shape, root: TreeNode)
    requires Cut(L, M, sub, root) && Simple(tree) && Within(sub, tree)
    ensures forall n :: n in L && n !in Nodes(tree) ==> n in M && M[n] == L[n]
  {
    WithinNodes(sub, tree);
    TopsInside(sub);
  }

  lemma OthersForm(L: Links, M: Links, all: seq<Shape>)
    requires AllForm(L, all) && Apart(all) && |all| > 0
    requires forall n :: n in L && n !in Nodes(all[0]) ==> n in M && M[n] == L[n]
    ensures AllForm(M, all[1..])
  {
    hide Nodes, Forms, Simple;
    forall i | 0 <= i < |all| - 1 ensures Forms(M, all[1..][i], null) {
      ApartAt(all, 0, i + 1);
      FormsFrame(L, M, all[i + 1], null);
    }
  }

  /** The first tree split in two, one half with a new top. */
  lemma Rearranged(all: seq<Shape>, A: Shape, B: Shape, r: TreeNode)
    requires Apart(all) && |all| > 0 && r !in UnionOf(all) && Simple(A) && Simple(B)
    requires Nodes(A) !! Nodes(B) && Nodes(A) + Nodes(B) == Nodes(all[0]) + {r}
    ensures Apart([A] + all[1..] + [B]) && UnionOf([A] + all[1..] + [B]) == UnionOf(all) + {r}
  {
    hide Nodes, Simple, UnionOf;
    var m := |all|;
    var now := [A] + all[1..] + [B];
    forall i | 0 <= i < m + 1 ensures now[i] == if i == 0 then A else if i == m then B else all[i] {}
    forall i, j | 0 <= i < j < |now| ensures Nodes(now[i]) !! Nodes(now[j]) {
      InUnion(all, if j < m then j else i);
      if 0 < j < m { ApartAt(all, 0, j); }
      if 0 < i { ApartAt(all, 0, i); }
      if 0 < i && j < m { ApartAt(all, i, j); }
    }
    RearrangedUnion(all, A, B, r);
  }

  lemma RearrangedUnion(all: seq<Shape>, A: Shape, B: Shape, r: TreeNode)
    requires |all| > 0 && Nodes(A) + Nodes(B) == Nodes(all[0]) + {r}
    ensures UnionOf([A] + all[1..] + [B]) == UnionOf(all) + {r}
  {
    hide Nodes, UnionOf;
    var m := |all|;
    var now := [A] + all[1..] + [B];
    forall x | x in UnionOf(now) ensures x in UnionOf(all) + {r} {
      var i := UnionAt(now, x);
      InUnion(all, if 0 < i < m then i else 0);
    }
    InUnion(now, 0);
    InUnion(now, m);
    forall x | x in UnionOf(all) ensures x in UnionOf(now) {
      var i := UnionAt(all, x);
      if i > 0 { InUnion(now, i); }
    }
  }

  lemma UnionAt(all: seq<Shape>, x: TreeNode) returns (i: nat)
    requires x in UnionOf(all)
    ensures i < |all| && x in Nodes(all[i])
  {
    i :| i < |all| && x in Nodes(all[i]);
  }

  lemma {:induction false} WithinForms(L: Links, s: Shape, fa: TreeNode?, sub: Shape)
    requires Forms(L, s, fa) && Within(sub, s)
    ensures exists up :: Forms(L, sub, up)
    ensures sub.node in L && L[sub.node].ch == Tops(sub.kids)
  {
    if sub != s {
      var i :| 0 <= i < |s.kids| && Within(sub, s.kids[i]);
      WithinForms(L, s.kids[i], s.node, sub);
    }
  }

  lemma OneTree(s: Shape)
    requires s.kids == []
    ensures Nodes(s) == {s.node} && UnionOf([s]) == {s.node} && Simple(s)
  {
    InUnion([s], 0);
  }

  lemma TreeAt(L: Links, all: seq<Shape>, i: nat)
    requires AllForm(L, all) && Apart(all) && i < |all|
    ensures Forms(L, all[i], null) && Simple(all[i]) && Nodes(all[i]) <= UnionOf(all)
  {}

  lemma TakeOffForms(L: Links, M: Links, all: seq<Shape>)
    requires AllForm(L, all) && Apart(all) && |all| >= 2
    requires forall n :: n in L && n !in Nodes(all[1]) ==> n in M && M[n] == L[n]
    ensures AllForm(M, [all[0]] + all[2..])
  {
    hide Nodes, Forms, Simple;
    var rest := [all[0]] + all[2..];
    forall k | 0 <= k < |rest| ensures Forms(M, rest[k], null) {
      var i := if k == 0 then 0 else k + 1;
      assert rest[k] == all[i];
      ApartAt(all, 1, i);
      FormsFrame(L, M, all[i], null);
    }
  }

  lemma FormsAt(L: Links, s: Shape, fa: TreeNode?)
    requires Forms(L, s, fa)
    ensures s.node in L && L[s.node] == Cell(fa, Tops(s.kids)) && |Tops(s.kids)| == |s.kids|
    ensures forall i :: 0 <= i < |s.kids| ==> Forms(L, s.kids[i], s.node) && Tops(s.kids)[i] == s.kids[i].node
  {}

  /** The next child's tree is still whole, and deleting it frees all of it but its top. */
  lemma NextKid(s: Shape, i: nat)
    requires Simple(s) && i < |s.kids|
    ensures Simple(s.kids[i]) && Nodes(s.kids[i]) <= Nodes(s) && Freed(s, i) !! Nodes(s.kids[i])
    ensures Freed(s, i + 1) == Freed(s, i) + (Nodes(s.kids[i]) - {s.kids[i].node})
    ensures |Freed(s, i + 1)| == |Freed(s, i)| + |Nodes(s.kids[i])| - 1
  {
    KidIsTree(s, i);
    FreedApart(s, i);
    FreedStep(s, i);
  }

  /** The children themselves are not freed before the last step, which completes the tree. */
  lemma AllFreed(s: Shape)
    requires Simple(s)
    ensures Freed(s, |s.kids|) + SetOf(Tops(s.kids)) == Nodes(s) - {s.node}
    ensures |Freed(s, |s.kids|)| + |s.kids| == |Nodes(s)| - 1
    ensures forall n :: n in Tops(s.kids) ==> n in Nodes(s) && n !in Freed(s, |s.kids|)
  {
    hide Simple, Freed, Nodes;
    TopsInside(s);
    FreedAll(s);
    TopSetCount(s);
    TopIn(s);
    assert |Freed(s, |s.kids|) + TopSet(s)| == |Freed(s, |s.kids|)| + |TopSet(s)|;
  }

  /** The chain of fa pointers from a node of a tree to its top. */
  ghost predicate ChainTo(L: Links, path: seq<TreeNode>, n: TreeNode, top: TreeNode, fa: TreeNode?) {
    && |path| > 0 && path[0] == n && path[|path| - 1] == top
    && (forall i, j :: 0 <= i < j < |path| ==> path[i] != path[j])
    && (forall i :: 0 <= i < |path| ==> path[i] in L)
    && (forall i :: 0 <= i < |path| - 1 ==> L[path[i]].fa == path[i + 1])
    && L[top].fa == fa
  }

  lemma {:induction false} ClimbingPath(L: Links, s: Shape, fa: TreeNode?, n: TreeNode) returns (path: seq<TreeNode>)
    requires Forms(L, s, fa) && Simple(s) && n in Nodes(s)
    ensures ChainTo(L, path, n, s.node, fa) && forall x :: x in path ==> x in Nodes(s)
  {
    hide Nodes, Simple;
    TopIn(s);
    if n == s.node {
      path := [n];
    } else {
      NodesMember(s, n);
      var i :| 0 <= i < |s.kids| && n in Nodes(s.kids[i]);
      KidIsTree(s, i);
      KidsInside(s, i);
      var below := ClimbingPath(L, s.kids[i], s.node, n);
      path := below + [s.node];
      assert forall j :: 0 <= j < |below| ==> below[j] in below;
    }
  }

  lemma NothingFreed(s: Shape)
    ensures Freed(s, 0) == {}
  {}

  lemma TopIn(s: Shape)
    ensures s.node in Nodes(s)
  {}

  lemma KidIsTree(s: Shape, i: nat)
    requires Simple(s) && i < |s.kids|
    ensures Simple(s.kids[i]) && Nodes(s.kids[i]) <= Nodes(s)
  {}

  lemma FreedStep(s: Shape, i: nat)
    requires Simple(s) && i < |s.kids|
    ensures Freed(s, i + 1) == Freed(s, i) + (Nodes(s.kids[i]) - {s.kids[i].node})
    ensures |Freed(s, i + 1)| == |Freed(s, i)| + |Nodes(s.kids[i])| - 1
  {
    FreedApart(s, i);
    TopIn(s.kids[i]);
  }

  lemma InUnion(all: seq<Shape>, i: nat)
    requires i < |all|
    ensures Nodes(all[i]) <= UnionOf(all)
  {}

  lemma ApartAt(all: seq<Shape>, i: nat, j: nat)
    requires Apart(all) && i < |all| && j < |all| && i != j
    ensures Nodes(all[i]) !! Nodes(all[j])
  {
    assert i < j || j < i;
  }

  lemma TakeOff(all: seq<Shape>)
    requires Apart(all) && |all| >= 2
    ensures var rest := [all[0]] + all[2..];
            Apart(rest) && UnionOf(rest) == UnionOf(all) - Nodes(all[1])
  {
    hide Nodes, Simple;
    var rest := [all[0]] + all[2..];
    forall x | x in UnionOf(all) - Nodes(all[1]) ensures x in UnionOf(rest) {
      var i :| 0 <= i < |all| && x in Nodes(all[i]);
      var k := if i == 0 then 0 else i - 1;
      assert rest[k] == all[i];
    }
    forall x | x in UnionOf(rest) ensures x in UnionOf(all) - Nodes(all[1]) {
      var k :| 0 <= k < |rest| && x in Nodes(rest[k]);
      var i := if k == 0 then 0 else k + 1;
      assert rest[k] == all[i];
      ApartAt(all, 1, i);
    }
    forall i, j | 0 <= i < j < |rest| ensures Nodes(rest[i]) !! Nodes(rest[j]) {
      ApartAt(all, if i == 0 then 0 else i + 1, j + 1);
    }
  }
}
