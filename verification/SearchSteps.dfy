/** Every step of the search keeps the tree, the claims and the accounts. */
module SearchSteps {
  import opened GoRules
  import opened GoGame
  import opened SearchTree
  import opened Flow
  import opened SearchRun

  // ---------- accounts ----------

  lemma LoadsAfter(s: State, k: nat, th: Thread)
    requires k < |s.threads|
    ensures SizeLoads(WithThread(s, k, th)) == SizeLoads(s)[k := SizeLoad(s.tree, th)]
    ensures VisitLoads(WithThread(s, k, th)) == VisitLoads(s)[k := VisitLoad(s.tree, th)]
    ensures LossLoads(WithThread(s, k, th)) == LossLoads(s)[k := LossLoad(s.tree, th)]
    ensures TotalLoads(WithThread(s, k, th)) == TotalLoads(s)[k := TotalLoad(s.tree, th)]
  {}

  lemma LoadsFrame(s: State, u: State)
    requires u.tree == s.tree && u.threads == s.threads
    ensures SizeLoads(u) == SizeLoads(s) && VisitLoads(u) == VisitLoads(s)
    ensures LossLoads(u) == LossLoads(s) && TotalLoads(u) == TotalLoads(s)
  {}

  /** Two loads that weigh the same on every live node. */
  ghost predicate SameLoad(t: Tree, e: (int, int), f: (int, int)) {
    e == f || (Worthless(t, e) && Worthless(t, f))
  }

  ghost predicate SameLoads(t: Tree, th: Thread, to: Thread) {
    && SameLoad(t, SizeLoad(t, th), SizeLoad(t, to)) && SameLoad(t, VisitLoad(t, th), VisitLoad(t, to))
    && SameLoad(t, LossLoad(t, th), LossLoad(t, to)) && SameLoad(t, TotalLoad(t, th), TotalLoad(t, to))
  }

  /** A step that moves no load keeps the accounts. */
  lemma AccountsIdle(s: State, k: nat, th: Thread)
    requires Accounts(s) && k < |s.threads| && SameLoads(s.tree, s.threads[k], th)
    ensures Accounts(WithThread(s, k, th))
  {
    hide Flows, SizeLoad, VisitLoad, LossLoad, TotalLoad;
    LoadsAfter(s, k, th);
    FlowIdle(s.tree, s.sizes, s.ownSizes, 1, SizeLoads(s), k, SizeLoad(s.tree, th));
    FlowIdle(s.tree, s.visits, s.ownVisits, 1, VisitLoads(s), k, VisitLoad(s.tree, th));
    FlowIdle(s.tree, s.losses, s.ownLosses, 1, LossLoads(s), k, LossLoad(s.tree, th));
    FlowIdle(s.tree, s.totals, s.ownTotals, -1, TotalLoads(s), k, TotalLoad(s.tree, th));
  }

  lemma AccountsEnter(c: Config, s: State, k: nat)
    requires Inv(c, s) && k < |s.threads| && s.threads[k].Idle?
    ensures Accounts(WithThread(AddLoss(s, s.tree.root, 1), k, Looking(s.tree.root, s.board)))
  {
    hide Offers, Flows, TreeOk, ThreadsOk, NodesOk, ClaimsOk, ValidRules;
    var th := Looking(s.tree.root, s.board);
    LoadsAfter(s, k, th);
    AccountsUnlike(s, k, th);
    RootIsLive(c.rules, s.tree, s.board);
    FlowEnter(c.rules, s.tree, s.board, s.losses, s.ownLosses, LossLoads(s), k, -1);
    LoadsFrame(WithThread(s, k, th), WithThread(AddLoss(s, s.tree.root, 1), k, th));
  }

  /** The three accounts that a move of the cursor does not touch. */
  lemma AccountsUnlike(s: State, k: nat, th: Thread)
    requires Accounts(s) && k < |s.threads|
    requires SameLoad(s.tree, SizeLoad(s.tree, s.threads[k]), SizeLoad(s.tree, th))
    requires SameLoad(s.tree, VisitLoad(s.tree, s.threads[k]), VisitLoad(s.tree, th))
    requires SameLoad(s.tree, TotalLoad(s.tree, s.threads[k]), TotalLoad(s.tree, th))
    ensures var u := WithThread(s, k, th);
            && Flows(s.tree, s.sizes, s.ownSizes, 1, SizeLoads(u)) && Flows(s.tree, s.visits, s.ownVisits, 1, VisitLoads(u))
            && Flows(s.tree, s.totals, s.ownTotals, -1, TotalLoads(u))
  {
    hide Flows, SizeLoad, VisitLoad, LossLoad, TotalLoad;
    LoadsAfter(s, k, th);
    FlowIdle(s.tree, s.sizes, s.ownSizes, 1, SizeLoads(s), k, SizeLoad(s.tree, th));
    FlowIdle(s.tree, s.visits, s.ownVisits, 1, VisitLoads(s), k, VisitLoad(s.tree, th));
    FlowIdle(s.tree, s.totals, s.ownTotals, -1, TotalLoads(s), k, TotalLoad(s.tree, th));
  }

  lemma AccountsDescend(c: Config, s: State, k: nat, n: int, child: int, b: Position)
    requires Inv(c, s) && k < |s.threads| && s.threads[k].Choosing? && s.threads[k].n == n
    requires n in s.tree.live && Allocated(s.tree, n) && child in s.tree.links[n].ch
    requires child in s.tree.live && Allocated(s.tree, child)
    ensures Accounts(WithThread(AddLoss(s, child, 1), k, Looking(child, b)))
  {
    hide Offers, Flows, TreeOk, ThreadsOk, NodesOk, ClaimsOk, ValidRules;
    var th := Looking(child, b);
    LoadsAfter(s, k, th);
    AccountsUnlike(s, k, th);
    FlowDown(c.rules, s.tree, s.board, s.losses, s.ownLosses, LossLoads(s), k, n, child);
    LoadsFrame(WithThread(s, k, th), WithThread(AddLoss(s, child, 1), k, th));
  }

  lemma AccountsUndo(c: Config, s: State, k: nat)
    requires Inv(c, s) && k < |s.threads| && s.threads[k].Undoing?
    requires s.threads[k].n in s.tree.live && Allocated(s.tree, s.threads[k].n)
    ensures Accounts(Undone(s, k))
  {
    hide Offers, Flows, TreeOk, ThreadsOk, NodesOk, ClaimsOk, ValidRules;
    var n := s.threads[k].n;
    var up := s.tree.links[n].fa;
    var th := if up == NO_NODE then Idle else Undoing(up);
    LoadsAfter(s, k, th);
    AccountsUnlike(s, k, th);
    FlowUp(c.rules, s.tree, s.board, s.losses, s.ownLosses, 1, LossLoads(s), k, n);
    var F, p := s.losses[n := s.losses[n] - 1], LossLoads(s)[k := (up, -1)];
    NoNodeIsNotLive(c, s);
    FlowIdle(s.tree, F, s.ownLosses, 1, p, k, LossLoad(s.tree, th));
    assert p[k := LossLoad(s.tree, th)] == LossLoads(s)[k := LossLoad(s.tree, th)];
    LoadsFrame(WithThread(s, k, th), Undone(s, k));
  }

  lemma NoNodeIsNotLive(c: Config, s: State)
    requires TreeOk(c.rules, s.tree, s.board)
    ensures NO_NODE !in s.tree.live
  {
    assert forall n :: n in s.tree.live ==> NodeOk(c.rules, s.tree, n);
  }

  lemma AccountsBack(c: Config, s: State, k: nat)
    requires Inv(c, s) && k < |s.threads| && s.threads[k].Backing? && s.threads[k].field < 4
    requires s.threads[k].n in s.tree.live && Allocated(s.tree, s.threads[k].n)
    ensures Accounts(Backed(s, k))
  {
    hide Offers, Flows, TreeOk, ThreadsOk, NodesOk, ClaimsOk, ValidRules;
    var th := s.threads[k];
    var n := th.n;
    var up := s.tree.links[n].fa;
    var to := if th.field < 3 then Backing(n, th.field + 1, th.value, th.len)
              else if up == NO_NODE then Idle else Backing(up, 0, -th.value, th.len);
    NoNodeIsNotLive(c, s);
    ParentAllocated(c, s, n);
    LoadsAfter(s, k, to);
    LoadsFrame(WithThread(s, k, to), Backed(s, k));
    if th.field == 0 {
      FlowUp(c.rules, s.tree, s.board, s.sizes, s.ownSizes, 1, SizeLoads(s), k, n);
      FlowIdle(s.tree, s.visits, s.ownVisits, 1, VisitLoads(s), k, VisitLoad(s.tree, to));
      FlowIdle(s.tree, s.losses, s.ownLosses, 1, LossLoads(s), k, LossLoad(s.tree, to));
      FlowIdle(s.tree, s.totals, s.ownTotals, -1, TotalLoads(s), k, TotalLoad(s.tree, to));
    } else if th.field == 1 {
      FlowUp(c.rules, s.tree, s.board, s.visits, s.ownVisits, 1, VisitLoads(s), k, n);
      FlowIdle(s.tree, s.sizes, s.ownSizes, 1, SizeLoads(s), k, SizeLoad(s.tree, to));
      FlowIdle(s.tree, s.losses, s.ownLosses, 1, LossLoads(s), k, LossLoad(s.tree, to));
      FlowIdle(s.tree, s.totals, s.ownTotals, -1, TotalLoads(s), k, TotalLoad(s.tree, to));
    } else if th.field == 2 {
      FlowUp(c.rules, s.tree, s.board, s.losses, s.ownLosses, 1, LossLoads(s), k, n);
      AccountsUnlike(s, k, to);
    } else {
      FlowUp(c.rules, s.tree, s.board, s.totals, s.ownTotals, -1, TotalLoads(s), k, n);
      var F, p := s.totals[n := s.totals[n] + th.value], TotalLoads(s)[k := (up, -1 * th.value)];
      FlowIdle(s.tree, F, s.ownTotals, -1, p, k, TotalLoad(s.tree, to));
      assert p[k := TotalLoad(s.tree, to)] == TotalLoads(s)[k := TotalLoad(s.tree, to)];
      FlowIdle(s.tree, s.sizes, s.ownSizes, 1, SizeLoads(s), k, SizeLoad(s.tree, to));
      FlowIdle(s.tree, s.visits, s.ownVisits, 1, VisitLoads(s), k, VisitLoad(s.tree, to));
      FlowIdle(s.tree, s.losses, s.ownLosses, 1, LossLoads(s), k, LossLoad(s.tree, to));
    }
  }

  lemma ParentAllocated(c: Config, s: State, n: int)
    requires TreeOk(c.rules, s.tree, s.board) && n in s.tree.live
    ensures Allocated(s.tree, n)
    ensures s.tree.links[n].fa == NO_NODE || (Allocated(s.tree, s.tree.links[n].fa) && s.tree.links[n].fa in s.tree.live)
  {
    ChildFacts(c.rules, s.tree, s.board, n);
  }

  /** A backup of value `v` and `len` new nodes starts at `n`. */
  lemma AccountsCharge(s: State, k: nat, n: int, v: int, len: nat)
    requires Accounts(s) && Sized(s) && k < |s.threads| && Allocated(s.tree, n)
    requires TotalLoad(s.tree, s.threads[k]).1 == 0 && VisitLoad(s.tree, s.threads[k]).1 == 0
    requires SameLoad(s.tree, SizeLoad(s.tree, s.threads[k]), (n, len))
    requires LossLoad(s.tree, s.threads[k]) == (n, -1)
    ensures Accounts(WithThread(Charge(s, n, v), k, Backing(n, 0, v, len)))
  {
    hide Flows;
    var to := Backing(n, 0, v, len);
    LoadsAfter(s, k, to);
    LoadsFrame(WithThread(s, k, to), WithThread(Charge(s, n, v), k, to));
    FlowStart(s.tree, s.visits, s.ownVisits, 1, VisitLoads(s), k, n, 1);
    FlowStart(s.tree, s.totals, s.ownTotals, -1, TotalLoads(s), k, n, v);
    FlowIdle(s.tree, s.sizes, s.ownSizes, 1, SizeLoads(s), k, (n, len));
    FlowIdle(s.tree, s.losses, s.ownLosses, 1, LossLoads(s), k, (n, -1));
  }

  lemma LoadsGrown(c: Config, s: State, n: int, moves: seq<int>)
    requires Sized(s) && TreeOk(c.rules, s.tree, s.board) && ThreadsOk(c, s) && Allocated(s.tree, n)
    requires Playable(c.rules, s.tree.links[n].pos, moves)
    ensures var u := Grown(c, s, n, moves);
            && SizeLoads(u) == SizeLoads(s) && VisitLoads(u) == VisitLoads(s)
            && LossLoads(u) == LossLoads(s) && TotalLoads(u) == TotalLoads(s)
    ensures LoadsBelow(SizeLoads(s), |s.tree.links|) && LoadsBelow(VisitLoads(s), |s.tree.links|)
    ensures LoadsBelow(LossLoads(s), |s.tree.links|) && LoadsBelow(TotalLoads(s), |s.tree.links|)
  {
    hide TreeOk, Playable, Step;
    var u := Grown(c, s, n, moves);
    forall k | 0 <= k < |s.threads|
      ensures SizeLoad(u.tree, u.threads[k]) == SizeLoad(s.tree, s.threads[k])
      ensures VisitLoad(u.tree, u.threads[k]) == VisitLoad(s.tree, s.threads[k])
      ensures LossLoad(u.tree, u.threads[k]) == LossLoad(s.tree, s.threads[k])
      ensures TotalLoad(u.tree, u.threads[k]) == TotalLoad(s.tree, s.threads[k])
      ensures SizeLoads(s)[k].0 < |s.tree.links| && VisitLoads(s)[k].0 < |s.tree.links|
      ensures LossLoads(s)[k].0 < |s.tree.links| && TotalLoads(s)[k].0 < |s.tree.links|
    {
      var th := s.threads[k];
      assert ThreadOk(c, s, th);
      if th.Backing? { ParentAllocated(c, s, th.n); }
    }
  }

  lemma AccountsGrow(c: Config, s: State, k: nat, n: int, moves: seq<int>, v: int)
    requires Inv(c, s) && k < |s.threads| && s.threads[k].Evaluating? && s.threads[k].n == n
    requires n in s.tree.live && Allocated(s.tree, n) && s.tree.links[n].ch == []
    requires Playable(c.rules, s.tree.links[n].pos, moves)
    ensures Accounts(WithThread(Grown(c, s, n, moves), k, Publishing(n, v, |moves|)))
  {
    hide Offers, Flows, TreeOk, ThreadsOk, NodesOk, ClaimsOk, ValidRules, Playable, WithChildren;
    var th := Publishing(n, v, |moves|);
    var u := Grown(c, s, n, moves);
    LoadsGrown(c, s, n, moves);
    LoadsAfter(u, k, th);
    var q := SizeLoads(s)[k := (n, |moves|)];
    forall x ensures LoadAt(q, x) == LoadAt(SizeLoads(s), x) + if x == n then |moves| else 0 {
      LoadUpdate(SizeLoads(s), k, (n, |moves|), x);
    }
    FlowGrow(c.rules, s.tree, s.board, s.sizes, s.ownSizes, 1, SizeLoads(s), q, n, moves, 1);
    FlowGrow(c.rules, s.tree, s.board, s.visits, s.ownVisits, 1, VisitLoads(s), VisitLoads(s), n, moves, 0);
    FlowGrow(c.rules, s.tree, s.board, s.losses, s.ownLosses, 1, LossLoads(s), LossLoads(s), n, moves, 0);
    FlowGrow(c.rules, s.tree, s.board, s.totals, s.ownTotals, -1, TotalLoads(s), TotalLoads(s), n, moves, 0);
    assert VisitLoads(u)[k := VisitLoad(u.tree, th)] == VisitLoads(s);
    assert LossLoads(u)[k := LossLoad(u.tree, th)] == LossLoads(s);
    assert TotalLoads(u)[k := TotalLoad(u.tree, th)] == TotalLoads(s);
  }

  lemma LoadsIdle(s: State)
    requires AllIdle(s)
    ensures Unloaded(SizeLoads(s)) && Unloaded(VisitLoads(s)) && Unloaded(LossLoads(s)) && Unloaded(TotalLoads(s))
  {}

  lemma LoadsSameIdle(s: State, u: State)
    requires AllIdle(s) && u.threads == s.threads
    ensures SizeLoads(u) == SizeLoads(s) && VisitLoads(u) == VisitLoads(s)
    ensures LossLoads(u) == LossLoads(s) && TotalLoads(u) == TotalLoads(s)
  {}

  lemma AccountsRoot(c: Config, s: State, v: int)
    requires Sized(s) && TreeOk(c.rules, s.tree, s.board) && Allocated(s.tree, s.tree.root) && Accounts(s)
    ensures Accounts(RootBacked(s, v, 0))
  {
    hide Flows, TreeOk;
    LoadsFrame(s, RootBacked(s, v, 0));
    var root := s.tree.root;
    FlowAtRoot(c.rules, s.tree, s.board, s.visits, s.ownVisits, 1, VisitLoads(s), 1);
    FlowAtRoot(c.rules, s.tree, s.board, s.losses, s.ownLosses, 1, LossLoads(s), -1);
    FlowAtRoot(c.rules, s.tree, s.board, s.totals, s.ownTotals, -1, TotalLoads(s), v);
    assert s.sizes[root := s.sizes[root] + 0] == s.sizes;
  }

  /** Expanding the root: its new children are counted at the root at once. */
  lemma AccountsInit(c: Config, s: State, moves: seq<int>, v: int)
    requires Inv(c, s) && AllIdle(s) && Allocated(s.tree, s.tree.root) && s.tree.links[s.tree.root].ch == []
    requires Playable(c.rules, s.tree.links[s.tree.root].pos, moves)
    ensures Accounts(RootBacked(SetExpand(Grown(c, s, s.tree.root, moves), s.tree.root, Expanded), v, |moves|))
  {
    hide Offers, Flows, TreeOk, ThreadsOk, NodesOk, ClaimsOk, ValidRules, Playable, WithChildren;
    var n := s.tree.root;
    var u := Grown(c, s, n, moves);
    var w := u.(sizes := u.sizes[n := u.sizes[n] + |moves|]);
    RootIsLive(c.rules, s.tree, s.board);
    LoadsIdle(s);
    LoadsSameIdle(s, w);
    NoLoadsBelow(VisitLoads(s), |s.tree.links|);
    NoLoadsBelow(LossLoads(s), |s.tree.links|);
    NoLoadsBelow(TotalLoads(s), |s.tree.links|);
    FlowGrowRoot(c.rules, s.tree, s.board, s.sizes, s.ownSizes, SizeLoads(s), moves, 1);
    FlowGrow(c.rules, s.tree, s.board, s.visits, s.ownVisits, 1, VisitLoads(s), VisitLoads(s), n, moves, 0);
    FlowGrow(c.rules, s.tree, s.board, s.losses, s.ownLosses, 1, LossLoads(s), LossLoads(s), n, moves, 0);
    FlowGrow(c.rules, s.tree, s.board, s.totals, s.ownTotals, -1, TotalLoads(s), TotalLoads(s), n, moves, 0);
    assert Accounts(w);
    GrowKeepsTree(c.rules, s.tree, s.board, n, moves);
    RootKept(c.rules, s.tree, n, moves);
    AccountsRoot(c, w, v);
    var end := RootBacked(SetExpand(u, n, Expanded), v, |moves|);
    LoadsFrame(RootBacked(w, v, 0), end);
    assert end.sizes == RootBacked(w, v, 0).sizes;
  }

  lemma RootKept(r: Rules, t: Tree, n: int, moves: seq<int>)
    requires Allocated(t, n) && Playable(r, t.links[n].pos, moves) && Allocated(t, t.root)
    ensures WithChildren(r, t, n, moves).root == t.root && Allocated(WithChildren(r, t, n, moves), t.root)
    ensures |WithChildren(r, t, n, moves).links| == |t.links| + |moves|
  {}

  lemma NoLoadsBelow(p: Load, bound: int)
    requires Unloaded(p)
    ensures LoadsBelow(p, bound)
  {}

  lemma AccountsFresh(s: State, board: Position, move: int)
    requires Sized(s) && AllIdle(s)
    ensures Accounts(FreshState(s, board, move))
  {
    hide Flows;
    var u := FreshState(s, board, move);
    LoadsIdle(s);
    LoadsSameIdle(s, u);
    FlowFresh(s.tree, board, move, s.sizes, s.ownSizes, 1, SizeLoads(s), 1);
    FlowFresh(s.tree, board, move, s.visits, s.ownVisits, 1, VisitLoads(s), 0);
    FlowFresh(s.tree, board, move, s.losses, s.ownLosses, 1, LossLoads(s), 0);
    FlowFresh(s.tree, board, move, s.totals, s.ownTotals, -1, TotalLoads(s), 0);
  }

  lemma AccountsReroot(c: Config, s: State, n: int)
    requires Inv(c, s) && AllIdle(s) && n in s.tree.live && Allocated(s.tree, n)
    ensures Accounts(ReparentedState(s, n))
  {
    hide Offers, Flows, TreeOk, ThreadsOk, NodesOk, ClaimsOk, ValidRules;
    var u := ReparentedState(s, n);
    LoadsIdle(s);
    LoadsSameIdle(s, u);
    FlowReroot(c.rules, s.tree, s.board, s.sizes, s.ownSizes, 1, SizeLoads(s), n);
    FlowReroot(c.rules, s.tree, s.board, s.visits, s.ownVisits, 1, VisitLoads(s), n);
    FlowReroot(c.rules, s.tree, s.board, s.losses, s.ownLosses, 1, LossLoads(s), n);
    FlowReroot(c.rules, s.tree, s.board, s.totals, s.ownTotals, -1, TotalLoads(s), n);
  }

  // ---------- threads, nodes and claims ----------

  /** Only thread `k` moved, and only node `n` changed its state or history. */
  ghost predicate StepAt(s: State, u: State, k: nat, n: int) {
    && Sized(s) && Sized(u) && u.tree == s.tree && Allocated(s.tree, n)
    && k < |s.threads| == |u.threads|
    && (forall j :: 0 <= j < |s.threads| && j != k ==> u.threads[j] == s.threads[j])
    && (forall m :: 0 <= m < |s.expand| && m != n ==> u.expand[m] == s.expand[m] && SameOwn(s, u, m))
  }

  ghost predicate SameOwn(s: State, u: State, m: int)
    requires Sized(s) && Sized(u) && u.tree == s.tree && 0 <= m < |s.expand|
  {
    && u.ownVisits[m] == s.ownVisits[m] && u.ownTotals[m] == s.ownTotals[m]
    && u.ownSizes[m] == s.ownSizes[m] && u.ownLosses[m] == s.ownLosses[m] && u.values[m] == s.values[m]
  }

  /** No thread but `k` holds `n`. */
  ghost predicate OnlyHolder(s: State, k: nat, n: int) {
    forall j :: 0 <= j < |s.threads| && j != k ==> !Holds(s.threads[j], n)
  }

  lemma LocalThreads(c: Config, s: State, u: State, k: nat, n: int)
    requires StepAt(s, u, k, n) && ThreadsOk(c, s) && ThreadOk(c, u, u.threads[k])
    requires u.expand[n] == s.expand[n] || (!s.expand[n].Expanded? && OnlyHolder(s, k, n))
    ensures ThreadsOk(c, u)
  {
    forall j | 0 <= j < |u.threads| ensures ThreadOk(c, u, u.threads[j]) {
      assert ThreadOk(c, s, s.threads[j]);
      if j != k && OnlyHolder(s, k, n) { assert !Holds(s.threads[j], n); }
    }
  }

  lemma LocalNodes(c: Config, s: State, u: State, k: nat, n: int)
    requires StepAt(s, u, k, n) && NodesOk(c, s) && NodeFacts(c, u, n)
    ensures NodesOk(c, u)
  {
    forall m | m in u.tree.live && Allocated(u.tree, m) ensures NodeFacts(c, u, m) {
      assert NodeFacts(c, s, m);
    }
  }

  lemma LocalClaims(s: State, u: State, k: nat, n: int)
    requires StepAt(s, u, k, n) && ClaimsOk(s)
    requires forall m :: Holds(s.threads[k], m) ==> m == n
    requires forall m :: Holds(u.threads[k], m) ==> m == n && OnlyHolder(s, k, n)
    requires n in u.tree.live && u.expand[n].Expanding? ==> Held(u, n)
    ensures ClaimsOk(u)
  {
    forall m | m in u.tree.live && Allocated(u.tree, m) && u.expand[m].Expanding? ensures Held(u, m) {
      if m != n {
        assert Held(s, m);
        var j :| 0 <= j < |s.threads| && Holds(s.threads[j], m);
        assert j != k && Holds(u.threads[j], m);
      }
    }
    forall i, j | 0 <= i < j < |u.threads| ensures !Clash(u.threads[i], u.threads[j]) {
      assert !Clash(s.threads[i], s.threads[j]);
      assert i == k ==> !Clash(u.threads[i], u.threads[j]);
      assert j == k ==> !Clash(u.threads[i], u.threads[j]);
    }
  }

  /** A holder is the only one. */
  lemma HolderAlone(s: State, k: nat, n: int)
    requires Sized(s) && ClaimsOk(s) && k < |s.threads| && Holds(s.threads[k], n)
    ensures OnlyHolder(s, k, n)
  {
    forall j | 0 <= j < |s.threads| && j != k ensures !Holds(s.threads[j], n) {
      assert j < k ==> !Clash(s.threads[j], s.threads[k]);
      assert k < j ==> !Clash(s.threads[k], s.threads[j]);
    }
  }

  /** Nobody holds a node that is not being expanded. */
  lemma NoHolder(c: Config, s: State, n: int)
    requires Sized(s) && ThreadsOk(c, s) && Allocated(s.tree, n) && !s.expand[n].Expanding?
    ensures forall j :: 0 <= j < |s.threads| ==> !Holds(s.threads[j], n)
  {
    forall j | 0 <= j < |s.threads| ensures !Holds(s.threads[j], n) {
      assert ThreadOk(c, s, s.threads[j]);
    }
  }

  /** A step that changes one thread and nothing of the tree, states or history. */
  lemma QuietStep(c: Config, s: State, u: State, k: nat, th: Thread)
    requires Inv(c, s) && k < |s.threads| && Sized(u) && u.tree == s.tree && u.board == s.board && u.expand == s.expand
    requires u.ownVisits == s.ownVisits && u.ownTotals == s.ownTotals && u.ownSizes == s.ownSizes && u.ownLosses == s.ownLosses
    requires u.values == s.values
    requires u.threads == s.threads[k := th] && ThreadOk(c, u, th)
    requires forall m :: !Holds(s.threads[k], m) && !Holds(th, m)
    requires Accounts(u)
    ensures Inv(c, u)
  {
    hide Offers, TreeOk, ThreadsOk, NodesOk, ClaimsOk, Accounts, ThreadOk, NodeFacts, Holds, ValidRules;
    var n := s.tree.root;
    RootIsLive(c.rules, s.tree, s.board);
    LocalThreads(c, s, u, k, n);
    assert NodeFacts(c, u, n) by { OneNode(c, s, n); SameFacts(c, s, u, n); }
    LocalNodes(c, s, u, k, n);
    assert n in u.tree.live && u.expand[n].Expanding? ==> Held(u, n) by { StillHeld(s, u, k, n); }
    LocalClaims(s, u, k, n);
  }

  lemma OneNode(c: Config, s: State, n: int)
    requires Sized(s) && NodesOk(c, s) && n in s.tree.live && Allocated(s.tree, n)
    ensures NodeFacts(c, s, n)
  {}

  lemma SameFacts(c: Config, s: State, u: State, n: int)
    requires Sized(s) && Sized(u) && u.tree == s.tree && Allocated(s.tree, n) && u.expand[n] == s.expand[n] && SameOwn(s, u, n)
    ensures NodeFacts(c, u, n) == NodeFacts(c, s, n)
  {}

  lemma StillHeld(s: State, u: State, k: nat, n: int)
    requires Sized(s) && Sized(u) && ClaimsOk(s) && u.tree == s.tree && u.expand == s.expand
    requires k < |s.threads| == |u.threads| && forall j :: 0 <= j < |s.threads| && j != k ==> u.threads[j] == s.threads[j]
    requires !Holds(s.threads[k], n) && Allocated(s.tree, n)
    ensures n in u.tree.live && u.expand[n].Expanding? ==> Held(u, n)
  {
    if n in u.tree.live && u.expand[n].Expanding? {
      assert Held(s, n);
      var j :| 0 <= j < |s.threads| && Holds(s.threads[j], n);
      assert Holds(u.threads[j], n);
    }
  }

  lemma OneThread(c: Config, s: State, k: nat)
    requires Sized(s) && ThreadsOk(c, s) && k < |s.threads|
    ensures ThreadOk(c, s, s.threads[k])
  {}

  // ---------- the steps, one by one ----------

  lemma EnterKeeps(c: Config, s: State, k: nat)
    requires Inv(c, s) && Enabled(c, s, Enter(k))
    ensures Inv(c, After(c, s, Enter(k)))
  {
    hide Offers, TreeOk, NodesOk, ClaimsOk, Accounts, ValidRules;
    AccountsEnter(c, s, k);
    RootIsLive(c.rules, s.tree, s.board);
    assert s.tree.links[s.tree.root].pos == s.board by { RootBoard(c.rules, s.tree, s.board); }
    QuietStep(c, s, After(c, s, Enter(k)), k, Looking(s.tree.root, s.board));
  }

  lemma RootBoard(r: Rules, t: Tree, board: Position)
    requires TreeOk(r, t, board)
    ensures Allocated(t, t.root) && t.links[t.root].pos == board
  {}

  lemma LookKeeps(c: Config, s: State, k: nat)
    requires Inv(c, s) && Enabled(c, s, Look(k))
    ensures Inv(c, After(c, s, Look(k)))
  {
    hide Offers, TreeOk, NodesOk, ClaimsOk, Accounts, ValidRules;
    OneThread(c, s, k);
    var th := After(c, s, Look(k)).threads[k];
    AccountsIdle(s, k, th);
    QuietStep(c, s, After(c, s, Look(k)), k, th);
  }

  /** The move of a chosen child is legal on the thread's own board: the check in Select holds. */
  lemma DescendIsLegal(c: Config, s: State, k: nat, i: nat)
    requires Inv(c, s) && Enabled(c, s, Descend(k, i))
    ensures var th := s.threads[k]; var ch := s.tree.links[th.n].ch;
            && i < |ch| && Allocated(s.tree, ch[i]) && ch[i] in s.tree.live
            && ValidPosition(c.rules, th.board) && LegalMove(c.rules, th.board, s.tree.links[ch[i]].move)
            && s.tree.links[ch[i]].pos == Step(c.rules, th.board, s.tree.links[ch[i]].move)
  {
    hide Offers, ValidPosition, LegalMove, Step, Accounts, ClaimsOk;
    OneThread(c, s, k);
    var n := s.threads[k].n;
    OneNode(c, s, n);
    ChildFacts(c.rules, s.tree, s.board, n);
    assert s.tree.links[n].ch[i] in s.tree.links[n].ch;
  }

  lemma DescendKeeps(c: Config, s: State, k: nat, i: nat)
    requires Inv(c, s) && Enabled(c, s, Descend(k, i))
    ensures Inv(c, After(c, s, Descend(k, i)))
  {
    hide Offers, TreeOk, NodesOk, ClaimsOk, Accounts, ValidRules, ValidPosition, LegalMove, Step;
    OneThread(c, s, k);
    DescendIsLegal(c, s, k, i);
    var u := After(c, s, Descend(k, i));
    var child := s.tree.links[s.threads[k].n].ch[i];
    AccountsDescend(c, s, k, s.threads[k].n, child, s.tree.links[child].pos);
    QuietStep(c, s, u, k, Looking(child, s.tree.links[child].pos));
  }

  lemma UndoKeeps(c: Config, s: State, k: nat)
    requires Inv(c, s) && Enabled(c, s, UndoStep(k))
    ensures Inv(c, After(c, s, UndoStep(k)))
  {
    hide Offers, TreeOk, NodesOk, ClaimsOk, Accounts, ValidRules;
    OneThread(c, s, k);
    AccountsUndo(c, s, k);
    ParentAllocated(c, s, s.threads[k].n);
    QuietStep(c, s, Undone(s, k), k, Undone(s, k).threads[k]);
  }

  lemma BackKeeps(c: Config, s: State, k: nat)
    requires Inv(c, s) && Enabled(c, s, BackStep(k))
    ensures Inv(c, After(c, s, BackStep(k)))
  {
    hide Offers, TreeOk, NodesOk, ClaimsOk, Accounts, ValidRules;
    OneThread(c, s, k);
    AccountsBack(c, s, k);
    ParentAllocated(c, s, s.threads[k].n);
    QuietStep(c, s, Backed(s, k), k, Backed(s, k).threads[k]);
  }

  /** A step of thread `k` that changes the state of its node `n`. */
  lemma NodeStep(c: Config, s: State, u: State, k: nat, n: int)
    requires Inv(c, s) && StepAt(s, u, k, n) && u.board == s.board && n in s.tree.live
    requires !s.expand[n].Expanded? && OnlyHolder(s, k, n)
    requires ThreadOk(c, u, u.threads[k]) && NodeFacts(c, u, n) && Accounts(u)
    requires forall m :: Holds(s.threads[k], m) || Holds(u.threads[k], m) ==> m == n
    requires u.expand[n].Expanding? ==> Holds(u.threads[k], n)
    ensures Inv(c, u)
  {
    hide Offers, TreeOk, ThreadsOk, NodesOk, ClaimsOk, Accounts, ThreadOk, NodeFacts, Holds, ValidRules;
    LocalThreads(c, s, u, k, n);
    LocalNodes(c, s, u, k, n);
    LocalClaims(s, u, k, n);
  }

  lemma ClaimKeeps(c: Config, s: State, k: nat)
    requires Inv(c, s) && Enabled(c, s, Claim(k))
    ensures Inv(c, After(c, s, Claim(k)))
  {
    hide Offers, TreeOk, NodesOk, ClaimsOk, Accounts, ValidRules;
    OneThread(c, s, k);
    var u := After(c, s, Claim(k));
    var n, th := s.threads[k].n, u.threads[k];
    AccountsIdle(s, k, th);
    if s.expand[n].Unexpanded? {
      OneNode(c, s, n);
      NoHolder(c, s, n);
      assert Accounts(u) by { AccountsFrame(WithThread(s, k, th), u); }
      NodeStep(c, s, u, k, n);
    } else {
      QuietStep(c, s, u, k, th);
    }
  }

  lemma AccountsFrame(s: State, u: State)
    requires Accounts(s) && u.tree == s.tree && u.threads == s.threads
    requires u.sizes == s.sizes && u.visits == s.visits && u.losses == s.losses && u.totals == s.totals
    requires u.ownSizes == s.ownSizes && u.ownVisits == s.ownVisits && u.ownLosses == s.ownLosses && u.ownTotals == s.ownTotals
    ensures Accounts(u)
  {
    LoadsFrame(s, u);
  }

  lemma EvalFailsKeeps(c: Config, s: State, k: nat)
    requires Inv(c, s) && Enabled(c, s, EvalFails(k))
    ensures Inv(c, After(c, s, EvalFails(k)))
  {
    hide Offers, TreeOk, NodesOk, ClaimsOk, Accounts, ValidRules;
    OneThread(c, s, k);
    var u := After(c, s, EvalFails(k));
    var n, th := s.threads[k].n, u.threads[k];
    AccountsIdle(s, k, th);
    AccountsFrame(WithThread(s, k, th), u);
    OneNode(c, s, n);
    HolderAlone(s, k, n);
    NodeStep(c, s, u, k, n);
  }

  lemma ChargeFacts(c: Config, s: State, u: State, n: int, v: int)
    requires Sized(s) && Sized(u) && u.tree == s.tree && Allocated(s.tree, n) && NodeFacts(c, s, n) && InValue(v)
    requires !s.expand[n].Expanded? && !u.expand[n].Expanding?
    requires u.ownVisits[n] == s.ownVisits[n] + 1 && u.ownTotals[n] == s.ownTotals[n] + v && u.values[n] == v
    requires Scored(c, s.tree.links[n].pos) ==> v == ScoredValue(c, s.tree.links[n].pos)
    requires u.ownSizes[n] == s.ownSizes[n] && u.ownLosses[n] == s.ownLosses[n]
    requires u.expand[n].Expanded? <==> !Scored(c, s.tree.links[n].pos)
    requires u.expand[n].Expanded? <==> s.tree.links[n].ch != []
    ensures NodeFacts(c, u, n)
  {}

  lemma EvalScoredKeeps(c: Config, s: State, k: nat)
    requires Inv(c, s) && Enabled(c, s, EvalScored(k))
    ensures Inv(c, After(c, s, EvalScored(k)))
  {
    hide Offers, TreeOk, NodesOk, ClaimsOk, Accounts, ValidRules, NodeFacts;
    OneThread(c, s, k);
    var u := After(c, s, EvalScored(k));
    var n, v := s.threads[k].n, ScoredValue(c, s.threads[k].board);
    AccountsCharge(s, k, n, v, 0);
    AccountsFrame(WithThread(Charge(s, n, v), k, Backing(n, 0, v, 0)), u);
    OneNode(c, s, n);
    ChargeFacts(c, s, u, n, v);
    HolderAlone(s, k, n);
    NodeStep(c, s, u, k, n);
  }

  lemma FinishKeeps(c: Config, s: State, k: nat)
    requires Inv(c, s) && Enabled(c, s, Finish(k))
    ensures Inv(c, After(c, s, Finish(k)))
  {
    hide Offers, TreeOk, NodesOk, ClaimsOk, Accounts, ValidRules, NodeFacts;
    OneThread(c, s, k);
    var u := After(c, s, Finish(k));
    var th := s.threads[k];
    AccountsCharge(s, k, th.n, th.value, th.len);
    AccountsFrame(WithThread(Charge(s, th.n, th.value), k, Backing(th.n, 0, th.value, th.len)), u);
    OneNode(c, s, th.n);
    ChargeFacts(c, s, u, th.n, th.value);
    HolderAlone(s, k, th.n);
    NodeStep(c, s, u, k, th.n);
  }
}
