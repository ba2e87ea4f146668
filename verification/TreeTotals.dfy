/** What the node-by-node law says about whole subtrees. */
module TreeTotals {
  import opened GoRules
  import opened GoGame
  import opened SearchTree
  import opened Flow

  // ---------- sums over sets of nodes ----------

  /** The shares of the nodes of `S`, among the first `k` nodes. */
  ghost function ShareOf(own: seq<int>, S: set<int>, k: nat): int
    requires k <= |own|
  {
    if k == 0 then 0 else ShareOf(own, S, k - 1) + if k - 1 in S then own[k - 1] else 0
  }

  /** What the threads still carry to nodes of `S`. */
  ghost function LoadIn(p: Load, S: set<int>): int {
    if p == [] then 0
    else LoadIn(p[..|p| - 1], S) + if p[|p| - 1].0 in S then p[|p| - 1].1 else 0
  }

  lemma {:induction false} ShareSplit(own: seq<int>, A: set<int>, B: set<int>, k: nat)
    requires k <= |own| && A !! B
    ensures ShareOf(own, A + B, k) == ShareOf(own, A, k) + ShareOf(own, B, k)
  {
    if k > 0 { ShareSplit(own, A, B, k - 1); }
  }

  lemma {:induction false} LoadSplit(p: Load, A: set<int>, B: set<int>)
    requires A !! B
    ensures LoadIn(p, A + B) == LoadIn(p, A) + LoadIn(p, B)
  {
    if p != [] { LoadSplit(p[..|p| - 1], A, B); }
  }

  lemma {:induction false} ShareOfOne(own: seq<int>, n: int, k: nat)
    requires k <= |own|
    ensures ShareOf(own, {n}, k) == if 0 <= n < k then own[n] else 0
  {
    if k > 0 { ShareOfOne(own, n, k - 1); }
  }

  lemma {:induction false} LoadInOne(p: Load, n: int)
    ensures LoadIn(p, {n}) == LoadAt(p, n)
  {
    if p != [] { LoadInOne(p[..|p| - 1], n); }
  }

  lemma {:induction false} LoadInNone(p: Load, S: set<int>)
    requires Unloaded(p)
    ensures LoadIn(p, S) == 0
  {
    if p != [] { LoadInNone(p[..|p| - 1], S); }
  }

  // ---------- a subtree is its top and its children's subtrees ----------

  /** Nodes of equal depth have no common descendant. */
  lemma {:induction false} SubtreesApart(t: Tree, a: int, b: int, m: int)
    requires Allocated(t, a) && Allocated(t, b) && t.links[a].depth == t.links[b].depth
    requires InSubtree(t, a, m) && InSubtree(t, b, m)
    ensures a == b
    decreases if Allocated(t, m) then t.links[m].depth else 0
  {
    if m == a {
      if a != b { SubtreeDeeper(t, b, m); }
    } else if m == b {
      SubtreeDeeper(t, a, m);
    } else {
      SubtreesApart(t, a, b, t.links[m].fa);
    }
  }

  /** A node below `n` is below one of its children. */
  lemma {:induction false} BelowChild(r: Rules, t: Tree, board: Position, n: int, m: int) returns (i: nat)
    requires TreeOk(r, t, board) && n in t.live && m in t.live && InSubtree(t, n, m) && m != n
    ensures Allocated(t, n) && i < |t.links[n].ch| && InSubtree(t, t.links[n].ch[i], m)
    decreases if Allocated(t, m) then t.links[m].depth else 0
  {
    hide ValidPosition, LegalMove, Step;
    ChildFacts(r, t, board, m);
    ChildFacts(r, t, board, n);
    var p := t.links[m].fa;
    if p == n {
      i :| 0 <= i < |t.links[n].ch| && t.links[n].ch[i] == m;
    } else {
      i := BelowChild(r, t, board, n, p);
    }
  }

  /** The top of a subtree and the subtrees of the first `j` children. */
  ghost function Upper(t: Tree, n: int, j: nat): set<int>
    requires Allocated(t, n) && j <= |t.links[n].ch|
  {
    set m | m in t.live && (m == n || exists i :: 0 <= i < j && InSubtree(t, t.links[n].ch[i], m))
  }

  lemma UpperAll(r: Rules, t: Tree, board: Position, n: int)
    requires TreeOk(r, t, board) && n in t.live
    ensures Allocated(t, n) && Upper(t, n, |t.links[n].ch|) == Subtree(t, n)
  {
    hide ValidPosition, LegalMove, Step, InSubtree;
    ChildFacts(r, t, board, n);
    forall m | m in t.live ensures m in Upper(t, n, |t.links[n].ch|) <==> InSubtree(t, n, m) {
      ItsOwnSubtree(t, n);
      if InSubtree(t, n, m) && m != n { var i := BelowChild(r, t, board, n, m); }
      if i :| 0 <= i < |t.links[n].ch| && InSubtree(t, t.links[n].ch[i], m) {
        SubtreeGoesUp(r, t, board, n, t.links[n].ch[i], m);
      }
    }
  }

  lemma ItsOwnSubtree(t: Tree, n: int)
    ensures InSubtree(t, n, n)
  {}

  lemma {:induction false} SubtreeGoesUp(r: Rules, t: Tree, board: Position, n: int, c: int, m: int)
    requires TreeOk(r, t, board) && n in t.live && Allocated(t, n) && c in t.links[n].ch && m in t.live && InSubtree(t, c, m)
    ensures InSubtree(t, n, m)
    decreases if Allocated(t, m) then t.links[m].depth else 0
  {
    hide ValidPosition, LegalMove, Step;
    ChildFacts(r, t, board, n);
    ChildFacts(r, t, board, m);
    if m != c { SubtreeGoesUp(r, t, board, n, c, t.links[m].fa); }
  }

  lemma UpperStep(r: Rules, t: Tree, board: Position, n: int, j: nat)
    requires TreeOk(r, t, board) && n in t.live && Allocated(t, n) && j < |t.links[n].ch|
    ensures Upper(t, n, j + 1) == Upper(t, n, j) + Subtree(t, t.links[n].ch[j])
    ensures Upper(t, n, j) !! Subtree(t, t.links[n].ch[j])
  {
    hide ValidPosition, LegalMove, Step, InSubtree;
    ChildrenListed(r, t, board, n);
    ChildrenOnce(r, t, board, n);
    var ch := t.links[n].ch;
    forall i | 0 <= i < |ch| ensures ChildOk(r, t, n, ch[i]) {
      assert ch[i] in ch;
      ChildFacts(r, t, board, n);
    }
    forall m | m in Upper(t, n, j) && m in Subtree(t, ch[j]) ensures false {
      assert ch[j] != n;
      if m == n {
        SubtreeDeeper(t, ch[j], n);
      } else {
        var i :| 0 <= i < j && InSubtree(t, ch[i], m);
        SubtreesApart(t, ch[i], ch[j], m);
      }
    }
  }

  lemma UpperNone(t: Tree, n: int)
    requires Allocated(t, n) && n in t.live
    ensures Upper(t, n, 0) == {n}
  {}

  // ---------- the totals ----------

  ghost predicate DepthBound(t: Tree, h: nat) {
    forall n :: n in t.live && Allocated(t, n) ==> t.links[n].depth <= h
  }

  lemma {:induction false} SomeDepthBound(links: seq<Link>) returns (h: nat)
    ensures forall n :: 0 <= n < |links| ==> links[n].depth <= h
  {
    h := 0;
    for i := 0 to |links|
      invariant forall n :: 0 <= n < i ==> links[n].depth <= h
    {
      if h < links[i].depth { h := links[i].depth; }
    }
  }

  /** What is stored at `n` and carried into its subtree is the subtree's share. */
  lemma {:induction false} FlowBelow(r: Rules, t: Tree, board: Position, F: seq<int>, own: seq<int>, p: Load, n: int, h: nat)
    requires TreeOk(r, t, board) && Flows(t, F, own, 1, p) && n in t.live && Allocated(t, n) && DepthBound(t, h)
    ensures F[n] + LoadIn(p, Subtree(t, n)) == ShareOf(own, Subtree(t, n), |own|)
    decreases h - t.links[n].depth, 1, 0
  {
    hide TreeOk, Subtree, DepthBound;
    assert Balanced(t, F, own, 1, p, n);
    UpperAll(r, t, board, n);
    var ch := t.links[n].ch;
    assert t.links[n].depth <= h by { InBound(t, n, h); }
    UpperFlow(r, t, board, F, own, p, n, h, |ch|);
    assert ch[..|ch|] == ch;
  }

  lemma InBound(t: Tree, n: int, h: nat)
    requires DepthBound(t, h) && n in t.live && Allocated(t, n)
    ensures t.links[n].depth <= h
  {}

  lemma {:induction false} UpperFlow(r: Rules, t: Tree, board: Position, F: seq<int>, own: seq<int>, p: Load, n: int, h: nat, j: nat)
    requires TreeOk(r, t, board) && Flows(t, F, own, 1, p) && n in t.live && Allocated(t, n) && DepthBound(t, h)
    requires j <= |t.links[n].ch|
    ensures ShareOf(own, Upper(t, n, j), |own|) - LoadIn(p, Upper(t, n, j)) ==
            own[n] - LoadAt(p, n) + SumAt(F, t.links[n].ch[..j])
    decreases h - t.links[n].depth, 0, j
  {
    hide TreeOk, Upper, Subtree, DepthBound;
    if j == 0 {
      UpperNone(t, n);
      ShareOfOne(own, n, |own|);
      LoadInOne(p, n);
    } else {
      var c := t.links[n].ch[j - 1];
      assert ChildOk(r, t, n, c) by { assert c in t.links[n].ch; ChildFacts(r, t, board, n); }
      InBound(t, c, h);
      UpperFlow(r, t, board, F, own, p, n, h, j - 1);
      FlowBelow(r, t, board, F, own, p, c, h);
      UpperStep(r, t, board, n, j - 1);
      var A, B := Upper(t, n, j - 1), Subtree(t, c);
      ShareSplit(own, A, B, |own|);
      LoadSplit(p, A, B);
      assert t.links[n].ch[..j][..j - 1] == t.links[n].ch[..j - 1];
    }
  }

  lemma {:induction false} ShareCounts(own: seq<int>, S: set<int>, k: nat)
    requires k <= |own| && forall x :: x in S && 0 <= x < k ==> own[x] == 1
    ensures ShareOf(own, S, k) == |set x | x in S && 0 <= x < k|
  {
    var T := set x | x in S && 0 <= x < k;
    if k > 0 {
      ShareCounts(own, S, k - 1);
      var U := set x | x in S && 0 <= x < k - 1;
      assert T == if k - 1 in S then U + {k - 1} else U;
    } else {
      assert T == {};
    }
  }

  lemma {:induction false} ShareNone(own: seq<int>, S: set<int>, k: nat)
    requires k <= |own| && forall x :: x in S && 0 <= x < k ==> own[x] == 0
    ensures ShareOf(own, S, k) == 0
  {
    if k > 0 { ShareNone(own, S, k - 1); }
  }

  /** With one unit of share a node and nothing carried, a node stores the size of its subtree. */
  lemma FlowIsSize(r: Rules, t: Tree, board: Position, F: seq<int>, own: seq<int>, p: Load, n: int)
    requires TreeOk(r, t, board) && Flows(t, F, own, 1, p) && n in t.live && Allocated(t, n) && Unloaded(p)
    requires forall x :: x in t.live && 0 <= x < |own| ==> own[x] == 1
    ensures F[n] == |Subtree(t, n)|
  {
    var h := SomeDepthBound(t.links);
    FlowBelow(r, t, board, F, own, p, n, h);
    LoadInNone(p, Subtree(t, n));
    ShareCounts(own, Subtree(t, n), |own|);
    forall x | x in t.live ensures 0 <= x < |own| { assert NodeOk(r, t, x); }
    assert (set x | x in Subtree(t, n) && 0 <= x < |own|) == Subtree(t, n);
  }

  /** With no share in the subtree, a node stores what the threads below it still owe. */
  lemma FlowIsDebt(r: Rules, t: Tree, board: Position, F: seq<int>, own: seq<int>, p: Load, n: int)
    requires TreeOk(r, t, board) && Flows(t, F, own, 1, p) && n in t.live && Allocated(t, n)
    requires forall x :: x in Subtree(t, n) && 0 <= x < |own| ==> own[x] == 0
    ensures F[n] == -LoadIn(p, Subtree(t, n))
  {
    var h := SomeDepthBound(t.links);
    FlowBelow(r, t, board, F, own, p, n, h);
    ShareNone(own, Subtree(t, n), |own|);
  }

  // ---------- bounded action totals ----------

  function Abs(x: int): nat { if x < 0 then -x else x }

  /** Shares within `b` per unit of visits give totals within `b` per visit, signs alternating. */
  lemma {:induction false} TotalsBounded(r: Rules, t: Tree, board: Position, V: seq<int>, ownV: seq<int>, T: seq<int>, ownT: seq<int>,
                                         p: Load, q: Load, b: nat, n: int, h: nat)
    requires TreeOk(r, t, board) && n in t.live && Allocated(t, n) && DepthBound(t, h)
    requires Flows(t, V, ownV, 1, p) && Flows(t, T, ownT, -1, q) && Unloaded(p) && Unloaded(q)
    requires forall x :: x in t.live && 0 <= x < |ownV| && x < |ownT| ==> Abs(ownT[x]) <= b * ownV[x]
    ensures Abs(T[n]) <= b * V[n]
    decreases h - t.links[n].depth, 1, 0
  {
    hide TreeOk, DepthBound;
    assert Balanced(t, V, ownV, 1, p, n) && Balanced(t, T, ownT, -1, q, n);
    UnloadedSum(p, n);
    UnloadedSum(q, n);
    InBound(t, n, h);
    var ch := t.links[n].ch;
    SumsBounded(r, t, board, V, ownV, T, ownT, p, q, b, n, h, |ch|);
    assert ch[..|ch|] == ch;
    Distribute(b, ownV[n], SumAt(V, ch));
  }

  lemma Distribute(b: nat, x: int, y: int)
    ensures b * (x + y) == b * x + b * y
  {}

  lemma {:induction false} SumsBounded(r: Rules, t: Tree, board: Position, V: seq<int>, ownV: seq<int>, T: seq<int>, ownT: seq<int>,
                                       p: Load, q: Load, b: nat, n: int, h: nat, j: nat)
    requires TreeOk(r, t, board) && n in t.live && Allocated(t, n) && DepthBound(t, h)
    requires Flows(t, V, ownV, 1, p) && Flows(t, T, ownT, -1, q) && Unloaded(p) && Unloaded(q)
    requires forall x :: x in t.live && 0 <= x < |ownV| && x < |ownT| ==> Abs(ownT[x]) <= b * ownV[x]
    requires j <= |t.links[n].ch|
    ensures Abs(SumAt(T, t.links[n].ch[..j])) <= b * SumAt(V, t.links[n].ch[..j])
    decreases h - t.links[n].depth, 0, j
  {
    hide TreeOk, DepthBound;
    if j > 0 {
      var c := t.links[n].ch[j - 1];
      assert ChildOk(r, t, n, c) by { assert c in t.links[n].ch; ChildFacts(r, t, board, n); }
      InBound(t, c, h);
      SumsBounded(r, t, board, V, ownV, T, ownT, p, q, b, n, h, j - 1);
      TotalsBounded(r, t, board, V, ownV, T, ownT, p, q, b, c, h);
      assert t.links[n].ch[..j][..j - 1] == t.links[n].ch[..j - 1];
      Distribute(b, SumAt(V, t.links[n].ch[..j - 1]), V[c]);
    }
  }
}
