/** The shape of the search tree: who is whose child, by which move, and on which position. */
module SearchTree {
  import opened GoRules
  import opened GoGame

  const NO_NODE: int := -1

  /** The pointers of one TreeNode.  Nodes are numbered in the order of their allocation.
      `depth` and `pos` are history: the moves played to get here, and the position they led to. */
  datatype Link = Link(fa: int, ch: seq<int>, move: int, depth: nat, pos: Position)

  /** `live` holds the nodes of the current tree; the others wait to be deleted. */
  datatype Tree = Tree(links: seq<Link>, root: int, live: set<int>)

  ghost predicate Allocated(t: Tree, n: int) { 0 <= n < |t.links| }

  /** `c` is a child of `n`, reached by a legal move. */
  ghost predicate ChildOk(r: Rules, t: Tree, n: int, c: int)
    requires Allocated(t, n)
  {
    var up := t.links[n];
    && c in t.live && c != t.root && Allocated(t, c) && t.links[c].fa == n
    && t.links[c].depth == up.depth + 1
    && ValidPosition(r, up.pos) && LegalMove(r, up.pos, t.links[c].move)
    && t.links[c].pos == Step(r, up.pos, t.links[c].move)
  }

  ghost predicate DistinctMoves(t: Tree, ids: seq<int>) {
    forall i, j :: 0 <= i < j < |ids| && Allocated(t, ids[i]) && Allocated(t, ids[j]) ==>
      ids[i] != ids[j] && t.links[ids[i]].move != t.links[ids[j]].move
  }

  ghost predicate NodeOk(r: Rules, t: Tree, n: int) {
    && Allocated(t, n) && ValidPosition(r, t.links[n].pos)
    && (n != t.root ==> t.links[n].fa in t.live && Allocated(t, t.links[n].fa) && n in t.links[t.links[n].fa].ch)
    && (forall i :: 0 <= i < |t.links[n].ch| ==> ChildOk(r, t, n, t.links[n].ch[i]))
    && DistinctMoves(t, t.links[n].ch)
  }

  ghost predicate TreeOk(r: Rules, t: Tree, board: Position) {
    && t.root in t.live && Allocated(t, t.root)
    && t.links[t.root].fa == NO_NODE && t.links[t.root].pos == board
    && forall n :: n in t.live ==> NodeOk(r, t, n)
  }

  /** `m` is `n` or one of its descendants. */
  ghost predicate InSubtree(t: Tree, n: int, m: int)
    decreases if Allocated(t, m) then t.links[m].depth + 1 else 0
  {
    || m == n
    || (m in t.live && m != t.root && Allocated(t, m) && Allocated(t, t.links[m].fa)
        && t.links[t.links[m].fa].depth < t.links[m].depth && InSubtree(t, n, t.links[m].fa))
  }

  ghost function Subtree(t: Tree, n: int): set<int> {
    set m | m in t.live && InSubtree(t, n, m)
  }

  // ---------- legal edges ----------

  /** The moves from the root down to `n`. */
  ghost function PathMoves(t: Tree, n: int): seq<int>
    decreases if Allocated(t, n) then t.links[n].depth + 1 else 0
  {
    if n in t.live && n != t.root && Allocated(t, n) && Allocated(t, t.links[n].fa)
       && t.links[t.links[n].fa].depth < t.links[n].depth
    then PathMoves(t, t.links[n].fa) + [t.links[n].move]
    else []
  }

  /** Playing a node's path on the board is legal at every move and ends in the node's position. */
  lemma {:induction false} PathIsLegal(r: Rules, t: Tree, board: Position, n: int)
    requires TreeOk(r, t, board) && n in t.live
    ensures ValidPosition(r, board) && LegalLine(r, board, PathMoves(t, n))
    ensures ReplayOf(r, board, PathMoves(t, n)) == t.links[n].pos
    decreases if Allocated(t, n) then t.links[n].depth else 0
  {
    hide ValidPosition, LegalMove, Step, LegalLine;
    assert NodeOk(r, t, t.root) && NodeOk(r, t, n);
    if n == t.root {
      EmptyLine(r, board);
    } else {
      var p := t.links[n].fa;
      assert NodeOk(r, t, p);
      var i :| 0 <= i < |t.links[p].ch| && t.links[p].ch[i] == n;
      assert ChildOk(r, t, p, n);
      PathIsLegal(r, t, board, p);
      LegalLineExtends(r, board, PathMoves(t, p), t.links[n].move);
    }
  }

  /** Every edge of the tree is a legal move on the board its path leads to. */
  lemma EveryEdgeIsLegal(r: Rules, t: Tree, board: Position, n: int, i: nat)
    requires TreeOk(r, t, board) && n in t.live && Allocated(t, n) && i < |t.links[n].ch|
    ensures ValidPosition(r, board) && Allocated(t, t.links[n].ch[i])
    ensures LegalMove(r, ReplayOf(r, board, PathMoves(t, n)), t.links[t.links[n].ch[i]].move)
  {
    hide ValidPosition, LegalMove, Step, ReplayOf;
    PathIsLegal(r, t, board, n);
    assert NodeOk(r, t, n);
    assert ChildOk(r, t, n, t.links[n].ch[i]);
  }

  // ---------- growing the tree ----------

  ghost predicate Playable(r: Rules, s: Position, moves: seq<int>) {
    && ValidPosition(r, s)
    && (forall i :: 0 <= i < |moves| ==> LegalMove(r, s, moves[i]))
    && (forall i, j :: 0 <= i < j < |moves| ==> moves[i] != moves[j])
  }

  ghost function NewIds(t: Tree, k: nat): seq<int> {
    seq(k, i => |t.links| + i)
  }

  /** The new array of children, all attached to `n`. */
  ghost function WithChildren(r: Rules, t: Tree, n: int, moves: seq<int>): Tree
    requires Allocated(t, n) && Playable(r, t.links[n].pos, moves)
  {
    var up := t.links[n];
    Tree(t.links[n := up.(ch := NewIds(t, |moves|))]
           + seq(|moves|, i requires 0 <= i < |moves| => Link(n, [], moves[i], up.depth + 1, Step(r, up.pos, moves[i]))),
         t.root,
         t.live + set i | i in NewIds(t, |moves|))
  }

  lemma GrowKeepsTree(r: Rules, t: Tree, board: Position, n: int, moves: seq<int>)
    requires TreeOk(r, t, board) && n in t.live && Allocated(t, n) && t.links[n].ch == []
    requires Playable(r, t.links[n].pos, moves)
    ensures TreeOk(r, WithChildren(r, t, n, moves), board)
  {
    hide ValidPosition, LegalMove, Step;
    var u := WithChildren(r, t, n, moves);
    forall m | m in u.live ensures NodeOk(r, u, m) {
      if m in t.live {
        GrowOld(r, t, board, n, moves, m);
      } else {
        GrowNew(r, t, n, moves, m - |t.links|);
      }
    }
  }

  lemma GrowNew(r: Rules, t: Tree, n: int, moves: seq<int>, i: int)
    requires Allocated(t, n) && n in t.live && t.root != |t.links| + i && 0 <= i < |moves|
    requires Playable(r, t.links[n].pos, moves)
    ensures NodeOk(r, WithChildren(r, t, n, moves), |t.links| + i)
  {
    hide LegalMove, Step, ValidPosition;
    StepIsValid(r, t.links[n].pos, moves[i]);
    var u := WithChildren(r, t, n, moves);
    assert u.links[n].ch[i] == |t.links| + i;
  }

  lemma GrowLinks(r: Rules, t: Tree, n: int, moves: seq<int>, m: int)
    requires Allocated(t, n) && Playable(r, t.links[n].pos, moves) && Allocated(t, m)
    ensures var u := WithChildren(r, t, n, moves);
            && Allocated(u, m) && u.root == t.root && t.live <= u.live
            && u.links[m] == if m == n then t.links[n].(ch := NewIds(t, |moves|)) else t.links[m]
  {}

  lemma GrowOldChild(r: Rules, t: Tree, n: int, moves: seq<int>, m: int, d: int)
    requires Allocated(t, n) && Playable(r, t.links[n].pos, moves) && Allocated(t, m) && ChildOk(r, t, m, d)
    ensures Allocated(WithChildren(r, t, n, moves), m) && ChildOk(r, WithChildren(r, t, n, moves), m, d)
  {
    hide ValidPosition, LegalMove, Step, WithChildren, Playable;
    GrowLinks(r, t, n, moves, m);
    GrowLinks(r, t, n, moves, d);
  }

  lemma GrowOld(r: Rules, t: Tree, board: Position, n: int, moves: seq<int>, m: int)
    requires TreeOk(r, t, board) && n in t.live && Allocated(t, n) && t.links[n].ch == []
    requires Playable(r, t.links[n].pos, moves) && m in t.live
    ensures NodeOk(r, WithChildren(r, t, n, moves), m)
  {
    hide ValidPosition, LegalMove, Step;
    assert NodeOk(r, t, m) && NodeOk(r, t, n);
    if m == n {
      GrowTop(r, t, n, moves);
    } else {
      if m != t.root { GrowLinks(r, t, n, moves, t.links[m].fa); }
      GrowLinks(r, t, n, moves, m);
      var u := WithChildren(r, t, n, moves);
      hide WithChildren, ChildOk;
      forall i | 0 <= i < |t.links[m].ch| ensures ChildOk(r, u, m, t.links[m].ch[i]) && Allocated(t, t.links[m].ch[i]) {
        ChildAllocated(r, t, m, t.links[m].ch[i]);
        GrowOldChild(r, t, n, moves, m, t.links[m].ch[i]);
      }
      forall i | 0 <= i < |t.links[m].ch| ensures t.links[m].ch[i] != n ==> u.links[t.links[m].ch[i]] == t.links[t.links[m].ch[i]]
        ensures Allocated(u, t.links[m].ch[i]) && u.links[t.links[m].ch[i]].move == t.links[t.links[m].ch[i]].move
      {
        GrowLinks(r, t, n, moves, t.links[m].ch[i]);
      }
    }
  }

  lemma ChildAllocated(r: Rules, t: Tree, n: int, c: int)
    requires Allocated(t, n) && ChildOk(r, t, n, c)
    ensures Allocated(t, c)
  {}

  lemma GrowTop(r: Rules, t: Tree, n: int, moves: seq<int>)
    requires n in t.live && NodeOk(r, t, n) && t.links[n].ch == [] && Playable(r, t.links[n].pos, moves)
    requires n != t.root ==> t.links[n].fa != n
    requires t.root != NO_NODE && t.root < |t.links|
    ensures NodeOk(r, WithChildren(r, t, n, moves), n)
  {
    hide ValidPosition, LegalMove, Step;
    var u := WithChildren(r, t, n, moves);
    forall i | 0 <= i < |u.links[n].ch| ensures ChildOk(r, u, n, u.links[n].ch[i]) {
      assert u.links[n].ch[i] == |t.links| + i;
    }
  }

  /** Growing adds no old node to a subtree and takes none away. */
  lemma {:induction false} GrowKeepsSubtree(r: Rules, t: Tree, board: Position, n: int, moves: seq<int>, x: int, m: int)
    requires TreeOk(r, t, board) && n in t.live && Allocated(t, n) && t.links[n].ch == []
    requires Playable(r, t.links[n].pos, moves) && m in t.live
    ensures InSubtree(WithChildren(r, t, n, moves), x, m) == InSubtree(t, x, m)
    decreases if Allocated(t, m) then t.links[m].depth else 0
  {
    hide ValidPosition, LegalMove, Step;
    assert NodeOk(r, t, m);
    if m != t.root {
      var p := t.links[m].fa;
      assert NodeOk(r, t, p);
      var i :| 0 <= i < |t.links[p].ch| && t.links[p].ch[i] == m;
      assert ChildOk(r, t, p, m);
      GrowKeepsSubtree(r, t, board, n, moves, x, p);
    }
  }

  lemma {:induction false} GrownInSubtree(r: Rules, t: Tree, board: Position, n: int, moves: seq<int>, x: int, i: nat)
    requires TreeOk(r, t, board) && n in t.live && x in t.live && Allocated(t, n) && t.links[n].ch == []
    requires Playable(r, t.links[n].pos, moves) && i < |moves|
    ensures InSubtree(WithChildren(r, t, n, moves), x, |t.links| + i) <==> InSubtree(t, x, n)
  {
    hide ValidPosition, LegalMove, Step;
    var u := WithChildren(r, t, n, moves);
    assert NodeOk(r, t, x) && NodeOk(r, t, t.root);
    assert NewIds(t, |moves|)[i] == |t.links| + i;
    assert u.links[|t.links| + i].fa == n && u.links[|t.links| + i].depth == u.links[n].depth + 1;
    GrowKeepsSubtree(r, t, board, n, moves, x, n);
  }

  /** Publishing children adds them to the subtrees of the node and of the nodes above it, and
      leaves every other subtree as it was. */
  lemma GrownSubtree(r: Rules, t: Tree, board: Position, n: int, moves: seq<int>, x: int)
    requires TreeOk(r, t, board) && n in t.live && x in t.live && Allocated(t, n) && t.links[n].ch == []
    requires Playable(r, t.links[n].pos, moves)
    ensures Subtree(WithChildren(r, t, n, moves), x) ==
            Subtree(t, x) + if n in Subtree(t, x) then set m | m in NewIds(t, |moves|) else {}
  {
    hide ValidPosition, LegalMove, Step, InSubtree, Playable, TreeOk;
    var u := WithChildren(r, t, n, moves);
    forall m | m in u.live
      ensures InSubtree(u, x, m) <==> (m in t.live && InSubtree(t, x, m)) || (m in NewIds(t, |moves|) && InSubtree(t, x, n))
    {
      if m in t.live { GrowKeepsSubtree(r, t, board, n, moves, x, m); OldId(r, t, board, m); }
      if m in NewIds(t, |moves|) { GrownInSubtree(r, t, board, n, moves, x, m - |t.links|); NewId(r, t, board, m); }
    }
  }

  lemma OldId(r: Rules, t: Tree, board: Position, m: int)
    requires TreeOk(r, t, board) && m in t.live
    ensures m < |t.links|
  {
    assert NodeOk(r, t, m);
  }

  lemma NewId(r: Rules, t: Tree, board: Position, m: int)
    requires TreeOk(r, t, board) && m >= |t.links|
    ensures m !in t.live
  {
    assert forall n :: n in t.live ==> NodeOk(r, t, n);
  }

  // ---------- changing the root ----------

  /** ChangeRoot(nullptr), with the move that led to `board`. */
  ghost function FreshTree(t: Tree, board: Position, move: int): Tree {
    Tree(t.links + [Link(NO_NODE, [], move, 0, board)], |t.links|, {|t.links|})
  }

  lemma FreshIsTree(r: Rules, t: Tree, board: Position, move: int)
    requires ValidPosition(r, board)
    ensures TreeOk(r, FreshTree(t, board, move), board)
  {}

  /** ChangeRoot(c): a new root takes over the children of `c`. */
  ghost function Rerooted(t: Tree, c: int): Tree
    requires Allocated(t, c)
  {
    var root := |t.links|;
    var old0 := t.links[c];
    Tree(seq(|t.links|, i requires 0 <= i < |t.links| =>
           if i == c then t.links[i].(ch := [])
           else if i in old0.ch then t.links[i].(fa := root)
           else t.links[i])
           + [Link(NO_NODE, old0.ch, old0.move, old0.depth, old0.pos)],
         root,
         Subtree(t, c) - {c} + {root})
  }

  lemma ChildFacts(r: Rules, t: Tree, board: Position, n: int)
    requires TreeOk(r, t, board) && n in t.live
    ensures Allocated(t, n)
    ensures n != t.root ==> t.links[n].fa in t.live && Allocated(t, t.links[n].fa)
                            && ChildOk(r, t, t.links[n].fa, n) && n in t.links[t.links[n].fa].ch
    ensures forall c :: c in t.links[n].ch ==> ChildOk(r, t, n, c)
  {
    assert NodeOk(r, t, n);
    if n != t.root {
      var p := t.links[n].fa;
      assert NodeOk(r, t, p);
      var i :| 0 <= i < |t.links[p].ch| && t.links[p].ch[i] == n;
    }
    forall c | c in t.links[n].ch ensures ChildOk(r, t, n, c) {
      var i :| 0 <= i < |t.links[n].ch| && t.links[n].ch[i] == c;
    }
  }

  /** A node's subtree is closed under going down and, below its top, under going up. */
  lemma SubtreeClosed(r: Rules, t: Tree, board: Position, n: int, m: int)
    requires TreeOk(r, t, board) && m in t.live && InSubtree(t, n, m)
    ensures Allocated(t, m)
    ensures forall c :: c in t.links[m].ch ==> c in t.live && Allocated(t, c) && InSubtree(t, n, c)
    ensures m != n ==> m != t.root && t.links[m].fa in t.live && Allocated(t, t.links[m].fa) && InSubtree(t, n, t.links[m].fa)
  {
    hide ValidPosition, LegalMove, Step;
    ChildFacts(r, t, board, m);
    forall c | c in t.links[m].ch ensures c in t.live && InSubtree(t, n, c) {
      ChildFacts(r, t, board, c);
    }
  }

  /** The deeper of two nodes is never above the other. */
  lemma {:induction false} SubtreeDeeper(t: Tree, n: int, m: int)
    requires InSubtree(t, n, m) && n != m
    ensures Allocated(t, n) && Allocated(t, m) && t.links[n].depth < t.links[m].depth
    decreases if Allocated(t, m) then t.links[m].depth + 1 else 0
  {
    if t.links[m].fa != n { SubtreeDeeper(t, n, t.links[m].fa); }
  }

  lemma RerootKeepsTree(r: Rules, t: Tree, board: Position, c: int)
    requires TreeOk(r, t, board) && c in t.live && c != t.root && Allocated(t, c)
    ensures TreeOk(r, Rerooted(t, c), t.links[c].pos)
  {
    hide ValidPosition, LegalMove, Step, InSubtree;
    var u := Rerooted(t, c);
    forall m | m in u.live ensures NodeOk(r, u, m) {
      if m == u.root {
        RerootTop(r, t, board, c);
      } else {
        RerootBelow(r, t, board, c, m);
      }
    }
  }

  lemma RerootTop(r: Rules, t: Tree, board: Position, c: int)
    requires TreeOk(r, t, board) && c in t.live && c != t.root && Allocated(t, c)
    ensures NodeOk(r, Rerooted(t, c), |t.links|)
  {
    hide ValidPosition, LegalMove, Step;
    var u := Rerooted(t, c);
    ChildFacts(r, t, board, c);
    SubtreeClosed(r, t, board, c, c);
    assert NodeOk(r, t, c);
    forall i | 0 <= i < |t.links[c].ch| ensures ChildOk(r, u, u.root, u.links[u.root].ch[i]) {
      var d := t.links[c].ch[i];
      assert d in t.links[c].ch;
      assert ChildOk(r, t, c, d);
    }
  }

  lemma RerootLinks(t: Tree, c: int, m: int)
    requires Allocated(t, c) && Allocated(t, m) && m != c
    ensures var old0, new1 := t.links[m], Rerooted(t, c).links[m];
            && new1.ch == old0.ch && new1.move == old0.move && new1.depth == old0.depth && new1.pos == old0.pos
            && new1.fa == if m in t.links[c].ch then |t.links| else old0.fa
  {}

  lemma RerootChild(r: Rules, t: Tree, board: Position, c: int, m: int, d: int)
    requires TreeOk(r, t, board) && c in t.live && c != t.root && Allocated(t, c)
    requires m in t.live && InSubtree(t, c, m) && m != c && d in t.links[m].ch
    ensures ChildOk(r, Rerooted(t, c), m, d)
  {
    hide ValidPosition, LegalMove, Step, InSubtree, Rerooted, TreeOk, ChildOk;
    assert ChildOk(r, t, m, d) && d in t.live && Allocated(t, d) && d in Subtree(t, c) && d != c
      && (d in t.links[c].ch ==> ChildOk(r, t, c, d)) by {
      ChildFacts(r, t, board, m);
      ChildFacts(r, t, board, c);
      SubtreeClosed(r, t, board, c, m);
      ChildDepth(r, t, m, d);
      SubtreeApart(t, c, d, m);
    }
    RerootLinks(t, c, m);
    RerootLinks(t, c, d);
    MovedChild(r, t, c, m, d);
  }

  lemma ChildDepth(r: Rules, t: Tree, m: int, d: int)
    requires Allocated(t, m) && ChildOk(r, t, m, d)
    ensures Allocated(t, d) && t.links[d].depth == t.links[m].depth + 1
  {}

  lemma MovedChild(r: Rules, t: Tree, c: int, m: int, d: int)
    requires Allocated(t, c) && Allocated(t, m) && m != c && d != c && d in Subtree(t, c) && ChildOk(r, t, m, d)
    requires d in t.links[c].ch ==> ChildOk(r, t, c, d)
    ensures ChildOk(r, Rerooted(t, c), m, d)
  {
    hide ValidPosition, LegalMove, Step, Subtree;
  }

  lemma RerootBelow(r: Rules, t: Tree, board: Position, c: int, m: int)
    requires TreeOk(r, t, board) && c in t.live && c != t.root && Allocated(t, c)
    requires m in t.live && InSubtree(t, c, m) && m != c
    ensures NodeOk(r, Rerooted(t, c), m)
  {
    hide ValidPosition, LegalMove, Step, InSubtree, ChildOk, TreeOk;
    assert NodeOk(r, t, m) by { assert TreeOk(r, t, board); AllNodesOk(r, t, board, m); }
    var u := Rerooted(t, c);
    ChildFacts(r, t, board, m);
    SubtreeClosed(r, t, board, c, m);
    RerootLinks(t, c, m);
    forall i | 0 <= i < |t.links[m].ch| ensures ChildOk(r, u, m, u.links[m].ch[i]) {
      RerootChild(r, t, board, c, m, t.links[m].ch[i]);
    }
    DistinctKept(t, c, t.links[m].ch);
    var p := t.links[m].fa;
    assert p in t.live && m in t.links[p].ch;
    if p != c { RerootLinks(t, c, p); OneParent(r, t, board, c, m); }
  }

  lemma AllNodesOk(r: Rules, t: Tree, board: Position, m: int)
    requires TreeOk(r, t, board) && m in t.live
    ensures NodeOk(r, t, m)
  {}

  lemma OneParent(r: Rules, t: Tree, board: Position, c: int, m: int)
    requires TreeOk(r, t, board) && c in t.live && m in t.live && Allocated(t, m) && t.links[m].fa != c
    ensures Allocated(t, c) && m !in t.links[c].ch
  {
    ChildFacts(r, t, board, c);
  }

  lemma DistinctKept(t: Tree, c: int, ids: seq<int>)
    requires Allocated(t, c) && DistinctMoves(t, ids) && forall i :: 0 <= i < |ids| ==> Allocated(t, ids[i])
    ensures DistinctMoves(Rerooted(t, c), ids)
  {}

  /** A node whose parent is in the subtree is not its top. */
  lemma SubtreeApart(t: Tree, c: int, d: int, m: int)
    requires InSubtree(t, c, m) && Allocated(t, d) && Allocated(t, m) && t.links[d].depth == t.links[m].depth + 1
    ensures d != c
  {
    if m != c { SubtreeDeeper(t, c, m); }
  }
}
