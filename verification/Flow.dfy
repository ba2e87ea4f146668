/** Sums that simulations carry up and down the tree.

    Visit counts, subtree sizes, action totals and virtual losses obey one law: what is stored at
    a node plus what the threads still carry to it equals its own share plus (or minus) what is
    stored at its children. */
module Flow {
  import opened GoRules
  import opened GoGame
  import opened SearchTree

  /** Per thread: the next node it will add to, and how much. */
  type Load = seq<(int, int)>

  function LoadAt(p: Load, n: int): int {
    if p == [] then 0
    else LoadAt(p[..|p| - 1], n) + if p[|p| - 1].0 == n then p[|p| - 1].1 else 0
  }

  /** What is stored at the nodes `ids`. */
  function SumAt(F: seq<int>, ids: seq<int>): int {
    if ids == [] then 0
    else
      var c := ids[|ids| - 1];
      SumAt(F, ids[..|ids| - 1]) + if 0 <= c < |F| then F[c] else 0
  }

  ghost predicate Balanced(t: Tree, F: seq<int>, own: seq<int>, sign: int, p: Load, n: int) {
    && Allocated(t, n) && |F| == |own| == |t.links|
    && F[n] + LoadAt(p, n) == own[n] + sign * SumAt(F, t.links[n].ch)
  }

  ghost predicate Flows(t: Tree, F: seq<int>, own: seq<int>, sign: int, p: Load) {
    && |F| == |own| == |t.links|
    && forall n :: n in t.live ==> Balanced(t, F, own, sign, p, n)
  }

  // ---------- arithmetic of loads and sums ----------

  lemma {:induction false} LoadUpdate(p: Load, k: nat, e: (int, int), n: int)
    requires k < |p|
    ensures LoadAt(p[k := e], n) ==
            LoadAt(p, n) - (if p[k].0 == n then p[k].1 else 0) + (if e.0 == n then e.1 else 0)
  {
    var q := p[k := e];
    if k < |p| - 1 {
      assert q[..|q| - 1] == p[..|p| - 1][k := e];
      LoadUpdate(p[..|p| - 1], k, e, n);
    } else {
      assert q[..|q| - 1] == p[..|p| - 1];
    }
  }

  ghost predicate Unloaded(p: Load) {
    forall k :: 0 <= k < |p| ==> p[k].1 == 0
  }

  lemma {:induction false} UnloadedSum(p: Load, n: int)
    requires Unloaded(p)
    ensures LoadAt(p, n) == 0
  {
    if p != [] { UnloadedSum(p[..|p| - 1], n); }
  }

  ghost predicate Once(ids: seq<int>) {
    forall i, j :: 0 <= i < j < |ids| ==> ids[i] != ids[j]
  }

  lemma {:induction false} SumUpdate(F: seq<int>, n: int, v: int, ids: seq<int>)
    requires 0 <= n < |F| && Once(ids)
    ensures SumAt(F[n := v], ids) == SumAt(F, ids) + if n in ids then v - F[n] else 0
  {
    if ids != [] { SumUpdate(F, n, v, ids[..|ids| - 1]); }
  }

  lemma {:induction false} SumSame(F: seq<int>, G: seq<int>, ids: seq<int>)
    requires forall i :: 0 <= i < |ids| ==> 0 <= ids[i] < |F| && ids[i] < |G| && F[ids[i]] == G[ids[i]]
    ensures SumAt(F, ids) == SumAt(G, ids)
  {
    if ids != [] { SumSame(F, G, ids[..|ids| - 1]); }
  }

  lemma {:induction false} SumConst(F: seq<int>, ids: seq<int>, v: int)
    requires forall i :: 0 <= i < |ids| ==> 0 <= ids[i] < |F| && F[ids[i]] == v
    ensures SumAt(F, ids) == |ids| * v
  {
    if ids != [] { SumConst(F, ids[..|ids| - 1], v); }
  }

  lemma ChildrenOnce(r: Rules, t: Tree, board: Position, n: int)
    requires TreeOk(r, t, board) && n in t.live
    ensures Allocated(t, n) && Once(t.links[n].ch)
  {
    ChildFacts(r, t, board, n);
    assert NodeOk(r, t, n);
  }

  /** A live node other than the root is listed by its parent only. */
  lemma ListedByParent(r: Rules, t: Tree, board: Position, n: int, x: int)
    requires TreeOk(r, t, board) && n in t.live && x in t.live
    ensures Allocated(t, n) && Allocated(t, x)
    ensures n in t.links[x].ch <==> n != t.root && x == t.links[n].fa
  {
    ChildFacts(r, t, board, n);
    ChildFacts(r, t, board, x);
  }

  // ---------- what the steps do to the law ----------

  lemma BalanceUp(t: Tree, F: seq<int>, own: seq<int>, sign: int, p: Load, k: nat, n: int, up: int, x: int)
    requires Balanced(t, F, own, sign, p, x) && k < |p| && p[k].0 == n && Allocated(t, n) && Once(t.links[x].ch)
    requires n in t.links[x].ch <==> x == up
    requires x == up ==> x != n
    ensures Balanced(t, F[n := F[n] + p[k].1], own, sign, p[k := (up, sign * p[k].1)], x)
  {
    LoadUpdate(p, k, (up, sign * p[k].1), x);
    SumUpdate(F, n, F[n] + p[k].1, t.links[x].ch);
    hide LoadAt, SumAt, Once;
    var before, v := SumAt(F, t.links[x].ch), p[k].1;
    assert sign * (before + v) == sign * before + sign * v;
  }

  /** A thread adds its load to node `n` and carries it on to the parent. */
  lemma FlowUp(r: Rules, t: Tree, board: Position, F: seq<int>, own: seq<int>, sign: int, p: Load, k: nat, n: int)
    requires TreeOk(r, t, board) && Flows(t, F, own, sign, p) && k < |p| && p[k].0 == n && n in t.live && Allocated(t, n)
    ensures Flows(t, F[n := F[n] + p[k].1], own, sign, p[k := (t.links[n].fa, sign * p[k].1)])
  {
    hide TreeOk, Balanced, Once;
    var up := t.links[n].fa;
    forall x | x in t.live ensures Balanced(t, F[n := F[n] + p[k].1], own, sign, p[k := (up, sign * p[k].1)], x) {
      assert Balanced(t, F, own, sign, p, x);
      ChildrenOnce(r, t, board, x);
      ListedByParent(r, t, board, n, x);
      RootHasNoParent(r, t, board, n, x);
      BalanceUp(t, F, own, sign, p, k, n, up, x);
    }
  }

  lemma RootHasNoParent(r: Rules, t: Tree, board: Position, n: int, x: int)
    requires TreeOk(r, t, board) && n in t.live && x in t.live
    ensures Allocated(t, n) && (x == t.links[n].fa ==> n != t.root && x != n)
  {
    ChildFacts(r, t, board, x);
    ChildFacts(r, t, board, n);
  }

  /** The reverse: a thread moves its load from a node to one of its children. */
  lemma FlowDown(r: Rules, t: Tree, board: Position, F: seq<int>, own: seq<int>, p: Load, k: nat, n: int, c: int)
    requires TreeOk(r, t, board) && Flows(t, F, own, 1, p) && k < |p| && p[k].0 == n && n in t.live
    requires Allocated(t, n) && c in t.links[n].ch && c in t.live && Allocated(t, c)
    ensures Flows(t, F[c := F[c] - p[k].1], own, 1, p[k := (c, p[k].1)])
  {
    hide TreeOk;
    var v := p[k].1;
    var F', p' := F[c := F[c] - v], p[k := (c, v)];
    forall x | x in t.live ensures Balanced(t, F', own, 1, p', x) {
      assert Balanced(t, F, own, 1, p, x);
      LoadUpdate(p, k, (c, v), x);
      ChildrenOnce(r, t, board, x);
      SumUpdate(F, c, F[c] - v, t.links[x].ch);
      ListedByParent(r, t, board, c, x);
      ListedByParent(r, t, board, c, n);
      RootHasNoParent(r, t, board, c, x);
    }
  }

  /** A thread with nothing to carry takes up a load at `n`, and `n`'s own share grows with it. */
  lemma FlowStart(t: Tree, F: seq<int>, own: seq<int>, sign: int, p: Load, k: nat, n: int, v: int)
    requires Flows(t, F, own, sign, p) && k < |p| && p[k].1 == 0 && 0 <= n < |own|
    ensures Flows(t, F, own[n := own[n] + v], sign, p[k := (n, v)])
  {
    forall x | x in t.live ensures Balanced(t, F, own[n := own[n] + v], sign, p[k := (n, v)], x) {
      assert Balanced(t, F, own, sign, p, x);
      LoadUpdate(p, k, (n, v), x);
    }
  }

  /** A thread enters the tree at the root, charging its own load there. */
  lemma FlowEnter(r: Rules, t: Tree, board: Position, F: seq<int>, own: seq<int>, p: Load, k: nat, v: int)
    requires TreeOk(r, t, board) && Flows(t, F, own, 1, p) && k < |p| && p[k].1 == 0 && Allocated(t, t.root)
    ensures Flows(t, F[t.root := F[t.root] - v], own, 1, p[k := (t.root, v)])
  {
    hide TreeOk;
    var n := t.root;
    assert n in t.live by { RootIsLive(r, t, board); }
    forall x | x in t.live ensures Balanced(t, F[n := F[n] - v], own, 1, p[k := (n, v)], x) {
      assert Balanced(t, F, own, 1, p, x);
      LoadUpdate(p, k, (n, v), x);
      ChildrenOnce(r, t, board, x);
      SumUpdate(F, n, F[n] - v, t.links[x].ch);
      ListedByParent(r, t, board, n, x);
    }
  }

  lemma RootIsLive(r: Rules, t: Tree, board: Position)
    requires TreeOk(r, t, board)
    ensures t.root in t.live && Allocated(t, t.root) && t.links[t.root].fa == NO_NODE
  {}

  /** Loads outside the tree, or of amount 0, are worth nothing. */
  ghost predicate Worthless(t: Tree, e: (int, int)) { e.1 == 0 || e.0 !in t.live }

  lemma FlowIdle(t: Tree, F: seq<int>, own: seq<int>, sign: int, p: Load, k: nat, e: (int, int))
    requires Flows(t, F, own, sign, p) && k < |p| && (p[k] == e || (Worthless(t, p[k]) && Worthless(t, e)))
    ensures Flows(t, F, own, sign, p[k := e])
  {
    forall x | x in t.live ensures Balanced(t, F, own, sign, p[k := e], x) {
      assert Balanced(t, F, own, sign, p, x);
      LoadUpdate(p, k, e, x);
    }
  }

  /** `q` is `p` with one more load of `v` for node `n`. */
  ghost predicate Heavier(t: Tree, p: Load, q: Load, n: int, v: int) {
    forall x :: x in t.live ==> LoadAt(q, x) == LoadAt(p, x) + if x == n then v else 0
  }

  ghost predicate LoadsBelow(p: Load, bound: int) {
    forall j :: 0 <= j < |p| && p[j].1 != 0 ==> p[j].0 < bound
  }

  /** New children with `v` stored at each, and their sum carried to the parent. */
  lemma FlowGrow(r: Rules, t: Tree, board: Position, F: seq<int>, own: seq<int>, sign: int, p: Load, q: Load,
                 n: int, moves: seq<int>, v: int)
    requires TreeOk(r, t, board) && n in t.live && Allocated(t, n) && t.links[n].ch == []
    requires Playable(r, t.links[n].pos, moves)
    requires Flows(t, F, own, sign, p) && Heavier(t, p, q, n, sign * (|moves| * v)) && LoadsBelow(q, |t.links|)
    ensures Flows(WithChildren(r, t, n, moves), F + seq(|moves|, _ => v), own + seq(|moves|, _ => v), sign, q)
  {
    hide TreeOk, Playable;
    var u := WithChildren(r, t, n, moves);
    var F', own' := F + seq(|moves|, _ => v), own + seq(|moves|, _ => v);
    forall x | x in u.live ensures Balanced(u, F', own', sign, q, x) {
      if x == n {
        assert Balanced(t, F, own, sign, p, x);
        SumConst(F', u.links[n].ch, v);
      } else if x in t.live {
        assert Balanced(t, F, own, sign, p, x);
        ChildrenListed(r, t, board, x);
        SumSame(F, F', t.links[x].ch);
      } else {
        NothingThere(q, x, |t.links|);
      }
    }
  }

  lemma {:induction false} NothingThere(p: Load, x: int, bound: int)
    requires x >= bound && LoadsBelow(p, bound)
    ensures LoadAt(p, x) == 0
  {
    if p != [] { NothingThere(p[..|p| - 1], x, bound); }
  }

  /** A new root copies what was stored at `c`. */
  lemma FlowReroot(r: Rules, t: Tree, board: Position, F: seq<int>, own: seq<int>, sign: int, p: Load, c: int)
    requires TreeOk(r, t, board) && Flows(t, F, own, sign, p) && Unloaded(p) && c in t.live && Allocated(t, c)
    ensures Flows(Rerooted(t, c), F + [F[c]], own + [own[c]], sign, p)
  {
    hide TreeOk, InSubtree;
    var u := Rerooted(t, c);
    forall x | x in u.live ensures Balanced(u, F + [F[c]], own + [own[c]], sign, p, x) {
      UnloadedSum(p, x);
      var y := if x == u.root then c else x;
      UnloadedSum(p, y);
      assert Balanced(t, F, own, sign, p, y);
      ChildrenListed(r, t, board, y);
      SumSame(F, F + [F[c]], t.links[y].ch);
    }
  }

  lemma ChildrenListed(r: Rules, t: Tree, board: Position, n: int)
    requires TreeOk(r, t, board) && n in t.live
    ensures Allocated(t, n)
    ensures forall i :: 0 <= i < |t.links[n].ch| ==> Allocated(t, t.links[n].ch[i]) && t.links[n].ch[i] in t.live
  {
    ChildFacts(r, t, board, n);
    forall i | 0 <= i < |t.links[n].ch| ensures ChildOk(r, t, n, t.links[n].ch[i]) {
      assert t.links[n].ch[i] in t.links[n].ch;
    }
  }

  lemma FlowFresh(t: Tree, board: Position, move: int, F: seq<int>, own: seq<int>, sign: int, p: Load, v: int)
    requires |F| == |own| == |t.links| && Unloaded(p)
    ensures Flows(FreshTree(t, board, move), F + [v], own + [v], sign, p)
  {
    UnloadedSum(p, |t.links|);
  }

  // ---------- changes made while no thread runs ----------

  /** What is added at the root and to its own share cancels out. */
  lemma FlowAtRoot(r: Rules, t: Tree, board: Position, F: seq<int>, own: seq<int>, sign: int, p: Load, v: int)
    requires TreeOk(r, t, board) && Flows(t, F, own, sign, p) && Allocated(t, t.root)
    ensures Flows(t, F[t.root := F[t.root] + v], own[t.root := own[t.root] + v], sign, p)
  {
    hide TreeOk;
    var n := t.root;
    RootIsLive(r, t, board);
    forall x | x in t.live ensures Balanced(t, F[n := F[n] + v], own[n := own[n] + v], sign, p, x) {
      assert Balanced(t, F, own, sign, p, x);
      ChildrenOnce(r, t, board, x);
      SumUpdate(F, n, F[n] + v, t.links[x].ch);
      ListedByParent(r, t, board, n, x);
    }
  }

  /** The root itself takes the load of its new children. */
  lemma FlowGrowRoot(r: Rules, t: Tree, board: Position, F: seq<int>, own: seq<int>, p: Load, moves: seq<int>, v: int)
    requires TreeOk(r, t, board) && Allocated(t, t.root) && t.links[t.root].ch == []
    requires Playable(r, t.links[t.root].pos, moves) && Flows(t, F, own, 1, p) && Unloaded(p)
    ensures Flows(WithChildren(r, t, t.root, moves), (F + seq(|moves|, _ => v))[t.root := F[t.root] + |moves| * v],
                  own + seq(|moves|, _ => v), 1, p)
  {
    hide TreeOk, Playable, WithChildren;
    var n, u := t.root, WithChildren(r, t, t.root, moves);
    var F', own' := F + seq(|moves|, _ => v), own + seq(|moves|, _ => v);
    var e := |moves| * v;
    var q := p + [(n, e)];
    assert q[..|p|] == p;
    RootIsLive(r, t, board);
    FlowGrow(r, t, board, F, own, 1, p, q, n, moves, v);
    GrowKeepsTree(r, t, board, n, moves);
    RootIsLive(r, u, board);
    GrownRoot(r, t, moves);
    FlowUp(r, u, board, F', own', 1, q, |p|, n);
    FlowDrop(r, u, board, F'[n := F'[n] + e], own', q[|p| := (NO_NODE, e)], p);
  }

  lemma GrownRoot(r: Rules, t: Tree, moves: seq<int>)
    requires Allocated(t, t.root) && Playable(r, t.links[t.root].pos, moves)
    ensures var u := WithChildren(r, t, t.root, moves);
            u.root == t.root && Allocated(u, u.root) && u.links[u.root].fa == t.links[t.root].fa
  {}

  lemma FlowDrop(r: Rules, t: Tree, board: Position, F: seq<int>, own: seq<int>, q: Load, p: Load)
    requires TreeOk(r, t, board) && Flows(t, F, own, 1, q) && |q| > 0 && q[..|q| - 1] == p && q[|q| - 1].0 == NO_NODE
    ensures Flows(t, F, own, 1, p)
  {
    forall x | x in t.live ensures Balanced(t, F, own, 1, p, x) {
      assert NodeOk(r, t, x);
      assert Balanced(t, F, own, 1, q, x);
    }
  }
}
