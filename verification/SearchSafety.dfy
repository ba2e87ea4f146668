/** What holds in every state of every run of the search. */
module SearchSafety {
  import opened GoRules
  import opened GoGame
  import opened SearchTree
  import opened Flow
  import opened TreeTotals
  import opened SearchRun
  import opened SearchSteps

  // ---------- steps that change the tree ----------

  lemma GrownNodes(c: Config, s: State, n: int, moves: seq<int>, m: int)
    requires Sized(s) && TreeOk(c.rules, s.tree, s.board) && NodesOk(c, s) && n in s.tree.live && Allocated(s.tree, n)
    requires Playable(c.rules, s.tree.links[n].pos, moves) && m != n
    requires m in WithChildren(c.rules, s.tree, n, moves).live && Allocated(WithChildren(c.rules, s.tree, n, moves), m)
    ensures Sized(Grown(c, s, n, moves)) && NodeFacts(c, Grown(c, s, n, moves), m)
    ensures !Grown(c, s, n, moves).expand[m].Expanding? || (m in s.tree.live && s.expand[m].Expanding?)
  {
    hide Playable, Step, Grown, WithChildren, NodeFacts, TreeOk;
    RootIsLive(c.rules, s.tree, s.board);
    GrownTop(c, s, n, moves);
    if m in s.tree.live {
      InTree(c.rules, s.tree, s.board, m);
      OneNode(c, s, m);
      GrownOldNode(c, s, n, moves, m);
    } else {
      NewNode(c.rules, s.tree, n, moves, m);
      GrownNewNode(c, s, n, moves, m);
    }
  }

  lemma GrownOldNode(c: Config, s: State, n: int, moves: seq<int>, m: int)
    requires Sized(s) && Allocated(s.tree, n) && Allocated(s.tree, m) && m != n && Playable(c.rules, s.tree.links[n].pos, moves)
    requires Sized(Grown(c, s, n, moves)) && Allocated(Grown(c, s, n, moves).tree, m) && NodeFacts(c, s, m)
    ensures NodeFacts(c, Grown(c, s, n, moves), m) && Grown(c, s, n, moves).expand[m] == s.expand[m]
  {
    hide Playable, Step, ScoredValue, Scored;
  }

  lemma GrownNewNode(c: Config, s: State, n: int, moves: seq<int>, m: int)
    requires Sized(s) && Allocated(s.tree, n) && Playable(c.rules, s.tree.links[n].pos, moves)
    requires Sized(Grown(c, s, n, moves)) && |s.tree.links| <= m < |Grown(c, s, n, moves).tree.links| && m != s.tree.root
    requires Grown(c, s, n, moves).tree.links[m].ch == []
    ensures NodeFacts(c, Grown(c, s, n, moves), m) && Grown(c, s, n, moves).expand[m].Unexpanded?
  {
    hide Playable, Step, ScoredValue, Scored;
  }

  lemma NewNode(r: Rules, t: Tree, n: int, moves: seq<int>, m: int)
    requires Allocated(t, n) && Playable(r, t.links[n].pos, moves) && m !in t.live
    requires m in WithChildren(r, t, n, moves).live
    ensures var u := WithChildren(r, t, n, moves);
            |t.links| <= m < |u.links| && u.links[m].ch == [] && u.root == t.root
  {}

  lemma GrownThread(c: Config, s: State, k: nat, n: int, moves: seq<int>, j: nat)
    requires Sized(s) && ThreadsOk(c, s) && j < |s.threads| && j != k && OnlyHolder(s, k, n)
    requires Allocated(s.tree, n) && s.expand[n].Expanding? && Playable(c.rules, s.tree.links[n].pos, moves)
    ensures ThreadOk(c, Grown(c, s, n, moves), s.threads[j])
  {
    hide Playable, Step;
    assert ThreadOk(c, s, s.threads[j]);
    assert !Holds(s.threads[j], n);
  }

  lemma ThreadFrame(c: Config, s: State, u: State, th: Thread)
    requires Sized(s) && Sized(u) && s.tree == u.tree && s.expand == u.expand
    ensures ThreadOk(c, s, th) == ThreadOk(c, u, th)
  {}

  lemma GrowOffers(c: Config, t: Tree, board: Position, n: int, moves: seq<int>)
    requires TreeOk(c.rules, t, board) && Offers(c, t) && n in t.live && Allocated(t, n) && t.links[n].ch == []
    requires Offer(c, t.links[n].pos, moves) && Playable(c.rules, t.links[n].pos, moves)
    ensures Offers(c, WithChildren(c.rules, t, n, moves))
  {
    hide Offer, Playable, TreeOk, Step;
    var u := WithChildren(c.rules, t, n, moves);
    forall m | m in u.live && Allocated(u, m) && u.links[m].ch != [] ensures Offer(c, u.links[m].pos, ChildMoves(u, m)) {
      if m == n {
        assert ChildMoves(u, n) == moves;
      } else if m in t.live {
        ChildrenListed(c.rules, t, board, m);
        assert ChildMoves(u, m) == ChildMoves(t, m);
      } else {
        NewNode(c.rules, t, n, moves, m);
      }
    }
  }

  lemma FreshOffers(c: Config, t: Tree, board: Position, move: int)
    ensures Offers(c, FreshTree(t, board, move))
  {}

  lemma RerootOffers(c: Config, t: Tree, board: Position, n: int)
    requires TreeOk(c.rules, t, board) && Offers(c, t) && n in t.live && Allocated(t, n)
    ensures Offers(c, Rerooted(t, n))
  {
    hide Offer, TreeOk, InSubtree;
    var u := Rerooted(t, n);
    forall m | m in u.live && Allocated(u, m) && u.links[m].ch != [] ensures Offer(c, u.links[m].pos, ChildMoves(u, m)) {
      var x := if m == u.root then n else m;
      ChildrenListed(c.rules, t, board, x);
      assert ChildMoves(u, m) == ChildMoves(t, x);
    }
  }

  lemma PublishKeeps(c: Config, s: State, k: nat, moves: seq<int>, v: int)
    requires Inv(c, s) && Enabled(c, s, Publish(k, moves, v))
    ensures Inv(c, After(c, s, Publish(k, moves, v)))
  {
    hide Offers, Offer, TreeOk, NodesOk, ClaimsOk, Accounts, ValidRules, Playable, WithChildren, ThreadsOk;
    var n := s.threads[k].n;
    OfferIsNotEmpty(c, s.tree.links[n].pos, moves);
    var u := After(c, s, Publish(k, moves, v));
    GrownTop(c, s, n, moves);
    assert Sized(u);
    OneThread(c, s, k);
    HolderAlone(s, k, n);
    AccountsGrow(c, s, k, n, moves, v);
    GrowKeepsTree(c.rules, s.tree, s.board, n, moves);
    GrowOffers(c, s.tree, s.board, n, moves);
    PublishThreads(c, s, k, n, moves, v);
    PublishNodes(c, s, k, moves, v, u);
  }

  lemma PublishThreads(c: Config, s: State, k: nat, n: int, moves: seq<int>, v: int)
    requires Sized(s) && ThreadsOk(c, s) && k < |s.threads| && OnlyHolder(s, k, n)
    requires Allocated(s.tree, n) && n in s.tree.live && s.expand[n].Expanding? && InValue(v) && moves != []
    requires !Scored(c, s.tree.links[n].pos) && Playable(c.rules, s.tree.links[n].pos, moves)
    requires Sized(Grown(c, s, n, moves))
    ensures ThreadsOk(c, WithThread(Grown(c, s, n, moves), k, Publishing(n, v, |moves|)))
  {
    hide Playable;
    var g := Grown(c, s, n, moves);
    var u := WithThread(g, k, Publishing(n, v, |moves|));
    GrownTop(c, s, n, moves);
    assert ThreadOk(c, u, u.threads[k]);
    hide Grown, ThreadOk;
    forall j | 0 <= j < |u.threads| ensures ThreadOk(c, u, u.threads[j]) {
      if j != k {
        assert u.threads[j] == g.threads[j] == s.threads[j] by { GrownThreads(c, s, n, moves); }
        GrownThread(c, s, k, n, moves, j);
        ThreadFrame(c, g, u, s.threads[j]);
      }
    }
  }

  lemma GrownThreads(c: Config, s: State, n: int, moves: seq<int>)
    requires Allocated(s.tree, n) && Playable(c.rules, s.tree.links[n].pos, moves)
    ensures Grown(c, s, n, moves).threads == s.threads
  {}

  lemma PublishNodes(c: Config, s: State, k: nat, moves: seq<int>, v: int, u: State)
    requires Inv(c, s) && Enabled(c, s, Publish(k, moves, v)) && OnlyHolder(s, k, s.threads[k].n)
    requires u == After(c, s, Publish(k, moves, v)) && Sized(u)
    ensures NodesOk(c, u) && ClaimsOk(u)
  {
    hide Offers, TreeOk, Accounts, ValidRules, Playable, WithChildren, ThreadOk;
    var n := s.threads[k].n;
    var g := Grown(c, s, n, moves);
    assert n in s.tree.live && s.expand[n].Expanding? by { OneThread(c, s, k); assert ThreadOk(c, s, s.threads[k]); ThreadAt(c, s, k); }
    GrownTop(c, s, n, moves);
    forall m | m in u.tree.live && Allocated(u.tree, m)
      ensures NodeFacts(c, u, m) && (u.expand[m].Expanding? ==> Held(u, m))
    {
      if m == n {
        OneNode(c, s, n);
        assert Holds(u.threads[k], n);
      } else {
        GrownNodes(c, s, n, moves, m);
        if u.expand[m].Expanding? {
          assert Held(s, m);
          var j :| 0 <= j < |s.threads| && Holds(s.threads[j], m);
          assert Holds(u.threads[j], m);
        }
      }
    }
    forall i, j | 0 <= i < j < |u.threads| ensures !Clash(u.threads[i], u.threads[j]) {
      assert !Clash(s.threads[i], s.threads[j]);
      assert forall m :: Holds(u.threads[i], m) == Holds(s.threads[i], m);
      assert forall m :: Holds(u.threads[j], m) == Holds(s.threads[j], m);
    }
  }

  lemma ThreadAt(c: Config, s: State, k: nat)
    requires Sized(s) && k < |s.threads| && s.threads[k].Evaluating? && ThreadOk(c, s, s.threads[k])
    ensures var n := s.threads[k].n; n in s.tree.live && Allocated(s.tree, n) && s.expand[n].Expanding?
  {}

  lemma GrownTop(c: Config, s: State, n: int, moves: seq<int>)
    requires Sized(s) && Allocated(s.tree, n) && Playable(c.rules, s.tree.links[n].pos, moves)
    ensures var u := Grown(c, s, n, moves);
            && Sized(u) && u.tree.root == s.tree.root && Allocated(u.tree, n) && |u.tree.links[n].ch| == |moves|
            && u.tree.links[n].pos == s.tree.links[n].pos && u.tree == WithChildren(c.rules, s.tree, n, moves)
            && |u.tree.links| == |s.tree.links| + |moves|
  {}

  /** With no thread in the tree only the nodes and the accounts are left to check. */
  lemma IdleKeeps(c: Config, u: State)
    requires ValidRules(c.rules) && Sized(u) && TreeOk(c.rules, u.tree, u.board) && AllIdle(u) && Accounts(u) && Offers(c, u.tree)
    requires forall n :: n in u.tree.live && Allocated(u.tree, n) ==> NodeFacts(c, u, n) && !u.expand[n].Expanding?
    ensures Inv(c, u)
  {}

  /** While no thread is in the tree, no node is being expanded. */
  lemma NoneExpanding(s: State, n: int)
    requires Sized(s) && ClaimsOk(s) && AllIdle(s) && n in s.tree.live && Allocated(s.tree, n)
    ensures !s.expand[n].Expanding?
  {}

  lemma InitScoredKeeps(c: Config, s: State)
    requires Inv(c, s) && Enabled(c, s, InitScored)
    ensures Inv(c, After(c, s, InitScored))
  {
    hide Offers, TreeOk, NodesOk, ClaimsOk, Accounts, ValidRules;
    var u := After(c, s, InitScored);
    RootIsLive(c.rules, s.tree, s.board);
    RootBoard(c.rules, s.tree, s.board);
    AccountsRoot(c, s, ScoredValue(c, s.board));
    forall n | n in u.tree.live && Allocated(u.tree, n) ensures NodeFacts(c, u, n) && !u.expand[n].Expanding? {
      OneNode(c, s, n);
      NoneExpanding(s, n);
    }
    IdleKeeps(c, u);
  }

  lemma InitExpandKeeps(c: Config, s: State, moves: seq<int>, v: int)
    requires Inv(c, s) && Enabled(c, s, InitExpand(moves, v))
    ensures Inv(c, After(c, s, InitExpand(moves, v)))
  {
    hide Offers, Offer, TreeOk, NodesOk, ClaimsOk, Accounts, ValidRules, Playable, WithChildren, NodeFacts, Scored;
    var root := s.tree.root;
    OfferIsNotEmpty(c, s.tree.links[root].pos, moves);
    var u := After(c, s, InitExpand(moves, v));
    RootIsLive(c.rules, s.tree, s.board);
    OneNode(c, s, root);
    assert s.tree.links[root].ch == [] by { UnexpandedIsLeaf(c, s, root); }
    AccountsInit(c, s, moves, v);
    GrowKeepsTree(c.rules, s.tree, s.board, root, moves);
    GrowOffers(c, s.tree, s.board, root, moves);
    GrownTop(c, s, root, moves);
    forall n | n in u.tree.live && Allocated(u.tree, n) ensures NodeFacts(c, u, n) && !u.expand[n].Expanding? {
      if n == root {
        InitRootFacts(c, s, moves, v);
      } else {
        GrownNodes(c, s, root, moves, n);
        if n in s.tree.live && Allocated(s.tree, n) { NoneExpanding(s, n); }
        InitOtherFacts(c, Grown(c, s, root, moves), v, |moves|, n);
      }
    }
    IdleKeeps(c, u);
  }

  lemma UnexpandedIsLeaf(c: Config, s: State, n: int)
    requires Sized(s) && Allocated(s.tree, n) && NodeFacts(c, s, n) && s.expand[n].Unexpanded?
    ensures s.tree.links[n].ch == []
  {}

  lemma InitRootFacts(c: Config, s: State, moves: seq<int>, v: int)
    requires Sized(s) && Allocated(s.tree, s.tree.root) && Playable(c.rules, s.tree.links[s.tree.root].pos, moves) && moves != []
    requires NodeFacts(c, s, s.tree.root) && !Scored(c, s.tree.links[s.tree.root].pos) && InValue(v)
    requires s.expand[s.tree.root].Unexpanded?
    requires Sized(Grown(c, s, s.tree.root, moves)) && Allocated(Grown(c, s, s.tree.root, moves).tree, s.tree.root)
    ensures var root := s.tree.root;
            var u := RootBacked(SetExpand(Grown(c, s, root, moves), root, Expanded), v, |moves|);
            Sized(u) && u.tree.root == root && Allocated(u.tree, root) && NodeFacts(c, u, root) && !u.expand[root].Expanding?
  {
    hide Playable, Step, ScoredValue, Scored;
    GrownTop(c, s, s.tree.root, moves);
  }

  lemma InitOtherFacts(c: Config, g: State, v: int, len: nat, n: int)
    requires Sized(g) && Allocated(g.tree, g.tree.root) && Allocated(g.tree, n) && n != g.tree.root && NodeFacts(c, g, n)
    ensures var u := RootBacked(SetExpand(g, g.tree.root, Expanded), v, len);
            Sized(u) && NodeFacts(c, u, n) && u.expand[n] == g.expand[n]
  {
    hide ScoredValue, Scored;
  }

  lemma FreshKeeps(c: Config, s: State, board: Position, move: int)
    requires Inv(c, s) && AllIdle(s) && ValidPosition(c.rules, board)
    ensures Inv(c, FreshState(s, board, move))
  {
    hide Offers, TreeOk, NodesOk, ClaimsOk, Accounts, ValidRules, ValidPosition;
    AccountsFresh(s, board, move);
    FreshIsTree(c.rules, s.tree, board, move);
    assert Offers(c, FreshTree(s.tree, board, move)) by { FreshOffers(c, s.tree, board, move); }
    IdleKeeps(c, FreshState(s, board, move));
  }

  lemma RerootKeeps(c: Config, s: State, n: int)
    requires Inv(c, s) && AllIdle(s) && n in s.tree.live && Allocated(s.tree, n) && n != s.tree.root
    ensures Inv(c, ReparentedState(s, n))
  {
    hide Offers, TreeOk, NodesOk, ClaimsOk, Accounts, ValidRules, InSubtree;
    var u := ReparentedState(s, n);
    AccountsReroot(c, s, n);
    RerootKeepsTree(c.rules, s.tree, s.board, n);
    RerootOffers(c, s.tree, s.board, n);
    forall m | m in u.tree.live && Allocated(u.tree, m) ensures NodeFacts(c, u, m) && !u.expand[m].Expanding? {
      var x := if m == u.tree.root then n else m;
      InTree(c.rules, s.tree, s.board, x);
      OneNode(c, s, x);
      NoneExpanding(s, x);
      RootAbove(c.rules, s.tree, s.board, n, x);
      if m != u.tree.root { RerootLinks(s.tree, n, m); }
    }
    IdleKeeps(c, u);
  }

  lemma InTree(r: Rules, t: Tree, board: Position, n: int)
    requires TreeOk(r, t, board) && n in t.live
    ensures Allocated(t, n)
  {
    assert NodeOk(r, t, n);
  }

  /** The root is in no other node's subtree. */
  lemma RootAbove(r: Rules, t: Tree, board: Position, n: int, m: int)
    requires TreeOk(r, t, board) && n in t.live && n != t.root && InSubtree(t, n, m)
    ensures m != t.root
  {}

  lemma PlayMoveKeeps(c: Config, s: State, m: int)
    requires Inv(c, s) && Enabled(c, s, PlayMove(m))
    ensures Inv(c, After(c, s, PlayMove(m)))
  {
    hide Offers, TreeOk, NodesOk, ClaimsOk, Accounts, ValidRules, ValidPosition, LegalMove, Step;
    StepIsValid(c.rules, s.board, m);
    var child := FindChild(s.tree, s.tree.root, m, 0);
    if child == NO_NODE {
      FreshKeeps(c, s, Step(c.rules, s.board, m), m);
    } else {
      RootIsLive(c.rules, s.tree, s.board);
      RootBoard(c.rules, s.tree, s.board);
      ChildFacts(c.rules, s.tree, s.board, s.tree.root);
      assert ChildOk(c.rules, s.tree, s.tree.root, child);
      RerootKeeps(c, s, child);
    }
  }

  lemma FlagKeeps(c: Config, s: State, on: bool)
    requires Inv(c, s)
    ensures Inv(c, s.(searching := on))
  {
    hide Offers, TreeOk, Flows;
    var u := s.(searching := on);
    LoadsFrame(s, u);
    assert forall j :: 0 <= j < |s.threads| ==> ThreadOk(c, u, s.threads[j]) == ThreadOk(c, s, s.threads[j]);
    assert forall n :: Held(u, n) == Held(s, n);
    assert forall n :: n in s.tree.live && Allocated(s.tree, n) ==> NodeFacts(c, u, n) == NodeFacts(c, s, n);
  }

  /** Every step keeps the invariant. */
  lemma StepKeeps(c: Config, s: State, e: Event)
    requires Inv(c, s) && Enabled(c, s, e)
    ensures Inv(c, After(c, s, e))
  {
    hide Inv;
    match e
    case Enter(k) => EnterKeeps(c, s, k);
    case Look(k) => LookKeeps(c, s, k);
    case Descend(k, i) => DescendKeeps(c, s, k, i);
    case Claim(k) => ClaimKeeps(c, s, k);
    case EvalFails(k) => EvalFailsKeeps(c, s, k);
    case EvalScored(k) => EvalScoredKeeps(c, s, k);
    case Publish(k, moves, v) => PublishKeeps(c, s, k, moves, v);
    case Finish(k) => FinishKeeps(c, s, k);
    case BackStep(k) => BackKeeps(c, s, k);
    case UndoStep(k) => UndoKeeps(c, s, k);
    case InitScored => InitScoredKeeps(c, s);
    case InitExpand(moves, v) => InitExpandKeeps(c, s, moves, v);
    case Resume => FlagKeeps(c, s, true);
    case Pause => FlagKeeps(c, s, false);
    case PlayMove(m) => PlayMoveKeeps(c, s, m);
    case Restart(moves) =>
      InitialIsValid(c.rules);
      FreshKeeps(c, s, ReplayOf(c.rules, InitialPosition(c.rules), moves), if moves == [] then COORD_PASS else moves[|moves| - 1]);
    case ClearTree => ClearKeeps(c, s);
  }

  lemma ClearKeeps(c: Config, s: State)
    requires Inv(c, s) && AllIdle(s)
    ensures Inv(c, FreshState(s, s.board, COORD_PASS))
  {
    assert NodeOk(c.rules, s.tree, s.tree.root);
    FreshKeeps(c, s, s.board, COORD_PASS);
  }

  // ---------- runs ----------

  /** A run: any number of threads, any interleaving, any network answers. */
  ghost predicate IsRun(c: Config, states: seq<State>, events: seq<Event>) {
    && |states| == |events| + 1
    && (exists n: nat :: states[0] == InitialState(c, n))
    && forall i :: 0 <= i < |events| ==> Enabled(c, states[i], events[i]) && states[i + 1] == After(c, states[i], events[i])
  }

  /** The invariant holds in every state of every run. */
  lemma {:induction false} RunIsSafe(c: Config, states: seq<State>, events: seq<Event>, i: nat)
    requires ValidRules(c.rules) && IsRun(c, states, events) && i < |states|
    ensures Inv(c, states[i])
  {
    hide Inv, Enabled, After, InitialState;
    if i == 0 {
      var n: nat :| states[0] == InitialState(c, n);
      InvInitially(c, n);
    } else {
      RunIsSafe(c, states, events, i - 1);
      StepKeeps(c, states[i - 1], events[i - 1]);
    }
  }

  /** No thread ever fails the checks of Select: chosen nodes have children, and every move
      down the tree is accepted by the thread's own board. */
  lemma SelectNeverFails(c: Config, states: seq<State>, events: seq<Event>, i: nat, k: nat)
    requires ValidRules(c.rules) && IsRun(c, states, events) && i < |states| && k < |states[i].threads|
    ensures states[i].threads[k] != Crashed
  {
    RunIsSafe(c, states, events, i);
    OneThread(c, states[i], k);
  }

  /** Every edge of the tree is a legal move on the board its path from the engine's board
      leads to. */
  lemma EdgesAreLegal(c: Config, states: seq<State>, events: seq<Event>, i: nat, n: int, j: nat)
    requires ValidRules(c.rules) && IsRun(c, states, events) && i < |states|
    requires n in states[i].tree.live && Allocated(states[i].tree, n) && j < |states[i].tree.links[n].ch|
    ensures var s := states[i]; var child := s.tree.links[n].ch[j];
            && ValidPosition(c.rules, s.board) && Allocated(s.tree, child)
            && LegalLine(c.rules, s.board, PathMoves(s.tree, n) + [s.tree.links[child].move])
  {
    hide ValidPosition, LegalMove, Step, LegalLine, ReplayOf;
    RunIsSafe(c, states, events, i);
    var s := states[i];
    PathIsLegal(c.rules, s.tree, s.board, n);
    EveryEdgeIsLegal(c.rules, s.tree, s.board, n, j);
    LegalLineExtends(c.rules, s.board, PathMoves(s.tree, n), s.tree.links[s.tree.links[n].ch[j]].move);
  }

  /** The children of an expanded node are all the legal moves of its position, each once, unless
      the limit on children cuts them off; then they are as many legal moves as the limit allows. */
  lemma ChildrenAreTheLegalMoves(c: Config, states: seq<State>, events: seq<Event>, i: nat, n: int)
    requires ValidRules(c.rules) && IsRun(c, states, events) && i < |states| && n in states[i].tree.live
    ensures Allocated(states[i].tree, n) && Sized(states[i])
    ensures states[i].expand[n].Expanded? ==>
              && Offer(c, states[i].tree.links[n].pos, ChildMoves(states[i].tree, n))
              && (c.maxChildren <= 0 ==> forall m :: m in ChildMoves(states[i].tree, n) <==>
                                           m in LegalMoves(c.rules, states[i].tree.links[n].pos))
              && (0 < c.maxChildren < |LegalMoves(c.rules, states[i].tree.links[n].pos)| ==>
                    |states[i].tree.links[n].ch| == c.maxChildren)
              && (c.maxChildren >= |LegalMoves(c.rules, states[i].tree.links[n].pos)| ==>
                    forall m :: m in ChildMoves(states[i].tree, n) <==> m in LegalMoves(c.rules, states[i].tree.links[n].pos))
  {
    hide TreeOk, Accounts, ClaimsOk, Playable, LegalMoves;
    RunIsSafe(c, states, events, i);
    var s := states[i];
    InTree(c.rules, s.tree, s.board, n);
    OneNode(c, s, n);
    assert forall m :: m in ChildMoves(s.tree, n) <==> m in MoveSet(ChildMoves(s.tree, n));
  }

  // ---------- virtual losses ----------

  /** The threads that hold a virtual loss somewhere in the subtree of `n`. */
  ghost function Inside(s: State, n: int): set<nat> {
    set k: nat | k < |s.threads| && LossLoads(s)[k].1 == -1 && LossLoads(s)[k].0 in Subtree(s.tree, n)
  }

  lemma {:induction false} LoadsAreThreads(p: Load, S: set<int>)
    requires forall k :: 0 <= k < |p| ==> p[k].1 == -1 || p[k].1 == 0
    ensures LoadIn(p, S) == -|set k: nat | k < |p| && p[k].1 == -1 && p[k].0 in S|
  {
    var K := set k: nat | k < |p| && p[k].1 == -1 && p[k].0 in S;
    if p != [] {
      var q := p[..|p| - 1];
      LoadsAreThreads(q, S);
      var L := set k: nat | k < |q| && q[k].1 == -1 && q[k].0 in S;
      assert K == if p[|q|].1 == -1 && p[|q|].0 in S then L + {|q|} else L;
    } else {
      assert K == {};
    }
  }

  /** The virtual loss of a node other than the root is the number of threads whose cursor is in
      its subtree. */
  lemma VirtualLossIsExact(c: Config, states: seq<State>, events: seq<Event>, i: nat, n: int)
    requires ValidRules(c.rules) && IsRun(c, states, events) && i < |states|
    requires n in states[i].tree.live && n != states[i].tree.root
    ensures Allocated(states[i].tree, n) && n < |states[i].losses|
    ensures states[i].losses[n] == |Inside(states[i], n)|
  {
    hide Offers, InSubtree, Flows;
    RunIsSafe(c, states, events, i);
    var s := states[i];
    InTree(c.rules, s.tree, s.board, n);
    forall x | x in Subtree(s.tree, n) && 0 <= x < |s.ownLosses| ensures s.ownLosses[x] == 0 {
      OneNode(c, s, x);
      RootAbove(c.rules, s.tree, s.board, n, x);
    }
    FlowIsDebt(c.rules, s.tree, s.board, s.losses, s.ownLosses, LossLoads(s), n);
    var p := LossLoads(s);
    LoadsAreThreads(p, Subtree(s.tree, n));
    assert Inside(s, n) == set k: nat | k < |p| && p[k].1 == -1 && p[k].0 in Subtree(s.tree, n);
  }

  /** When no simulation is in flight the virtual losses are all gone. */
  lemma VirtualLossIsReturned(c: Config, states: seq<State>, events: seq<Event>, i: nat, n: int)
    requires ValidRules(c.rules) && IsRun(c, states, events) && i < |states| && AllIdle(states[i])
    requires n in states[i].tree.live && n != states[i].tree.root
    ensures Allocated(states[i].tree, n) && n < |states[i].losses| && states[i].losses[n] == 0
  {
    VirtualLossIsExact(c, states, events, i, n);
    LoadsIdle(states[i]);
    assert Inside(states[i], n) == {};
  }

  // ---------- accounts between searches ----------

  /** What a node's own backups charge is at most one unit a visit. */
  lemma OwnBound(c: Config, s: State, n: int)
    requires Sized(s) && Allocated(s.tree, n) && NodeFacts(c, s, n)
    ensures s.ownSizes[n] == 1 && TreeTotals.Abs(s.ownTotals[n]) <= VALUE_BASE * s.ownVisits[n]
  {}

  lemma SizeAtRest(c: Config, s: State, n: int)
    requires Inv(c, s) && AllIdle(s) && n in s.tree.live && Allocated(s.tree, n)
    ensures s.sizes[n] == |Subtree(s.tree, n)|
    ensures TreeTotals.Abs(s.totals[n]) <= VALUE_BASE * s.visits[n]
  {
    hide Offers, TreeOk, InSubtree, Subtree, Flows, NodeFacts, NodesOk, ThreadsOk, ClaimsOk;
    LoadsIdle(s);
    forall x | x in s.tree.live && 0 <= x < |s.ownSizes|
      ensures s.ownSizes[x] == 1 && TreeTotals.Abs(s.ownTotals[x]) <= VALUE_BASE * s.ownVisits[x]
    {
      OneNode(c, s, x);
      OwnBound(c, s, x);
    }
    FlowIsSize(c.rules, s.tree, s.board, s.sizes, s.ownSizes, SizeLoads(s), n);
    var h := SomeDepthBound(s.tree.links);
    TotalsBounded(c.rules, s.tree, s.board, s.visits, s.ownVisits, s.totals, s.ownTotals,
                  VisitLoads(s), TotalLoads(s), VALUE_BASE, n, h);
  }

  /** With no simulation in flight: the visits of an expanded node are one more than its
      children's, its total is its stored value less the children's totals, the size is the number
      of nodes below, and totals stay within one unit a visit.  A scored node has its score once
      for each visit. */
  lemma AccountsAtRest(c: Config, states: seq<State>, events: seq<Event>, i: nat, n: int)
    requires ValidRules(c.rules) && IsRun(c, states, events) && i < |states| && AllIdle(states[i])
    requires n in states[i].tree.live
    ensures Allocated(states[i].tree, n) && Sized(states[i])
    ensures var s := states[i]; var ch := s.tree.links[n].ch;
            && s.sizes[n] == |Subtree(s.tree, n)|
            && s.visits[n] == s.ownVisits[n] + SumAt(s.visits, ch)
            && s.totals[n] == s.ownTotals[n] - SumAt(s.totals, ch)
            && (s.expand[n].Expanded? ==>
                  && s.visits[n] == 1 + SumAt(s.visits, ch)
                  && s.totals[n] == s.values[n] - SumAt(s.totals, ch) && InValue(s.values[n]))
            && (Scored(c, s.tree.links[n].pos) ==> s.totals[n] == s.visits[n] * ScoredValue(c, s.tree.links[n].pos))
            && TreeTotals.Abs(s.totals[n]) <= VALUE_BASE * s.visits[n]
  {
    hide Offers, InSubtree, Subtree, Flows, TreeOk, NodesOk, ThreadsOk, ScoredValue;
    RunIsSafe(c, states, events, i);
    var s := states[i];
    InTree(c.rules, s.tree, s.board, n);
    LoadsIdle(s);
    OneNode(c, s, n);
    NoneExpanding(s, n);
    SizeAtRest(c, s, n);
    AtRest(s.tree, s.visits, s.ownVisits, 1, VisitLoads(s), n);
    AtRest(s.tree, s.totals, s.ownTotals, -1, TotalLoads(s), n);
  }

  lemma AtRest(t: Tree, F: seq<int>, own: seq<int>, sign: int, p: Load, n: int)
    requires Flows(t, F, own, sign, p) && Unloaded(p) && n in t.live && Allocated(t, n)
    ensures F[n] == own[n] + sign * SumAt(F, t.links[n].ch)
  {
    assert Balanced(t, F, own, sign, p, n);
    UnloadedSum(p, n);
  }

  // ---------- expansion happens once ----------

  /** At most one thread is expanding a node, and a thread that reads "expanded" finds children. */
  lemma ExpansionIsExclusive(c: Config, states: seq<State>, events: seq<Event>, i: nat, n: int)
    requires ValidRules(c.rules) && IsRun(c, states, events) && i < |states|
    requires n in states[i].tree.live
    ensures Allocated(states[i].tree, n) && Sized(states[i])
    ensures var s := states[i];
            && (forall j, k :: 0 <= j < |s.threads| && 0 <= k < |s.threads| && Holds(s.threads[j], n) && Holds(s.threads[k], n) ==> j == k)
            && (s.expand[n].Expanding? <==> exists k :: 0 <= k < |s.threads| && Holds(s.threads[k], n))
            && (s.expand[n].Expanded? ==> s.tree.links[n].ch != [])
            && (s.expand[n].Unexpanded? ==> s.tree.links[n].ch == [])
  {
    hide Offers, TreeOk, Accounts;
    RunIsSafe(c, states, events, i);
    var s := states[i];
    InTree(c.rules, s.tree, s.board, n);
    OneNode(c, s, n);
    forall j | 0 <= j < |s.threads| && Holds(s.threads[j], n) ensures OnlyHolder(s, j, n) && s.expand[n].Expanding? {
      HolderAlone(s, j, n);
      OneThread(c, s, j);
    }
    assert s.expand[n].Expanding? ==> Held(s, n);
  }

  ghost predicate StaysExpanded(s: State, u: State, n: int) {
    0 <= n < |s.expand| && n < |u.expand| && Allocated(s.tree, n) && Allocated(u.tree, n)
    && (s.expand[n].Expanded? ==> u.expand[n].Expanded? && u.tree.links[n].ch == s.tree.links[n].ch)
  }

  lemma GrownStays(c: Config, s: State, x: int, moves: seq<int>, n: int)
    requires Sized(s) && Allocated(s.tree, x) && Playable(c.rules, s.tree.links[x].pos, moves)
    requires Allocated(s.tree, n) && (s.expand[n].Expanded? ==> n != x)
    ensures StaysExpanded(s, Grown(c, s, x, moves), n)
  {
    hide Playable, Step;
  }

  lemma RerootStays(s: State, x: int, n: int)
    requires Sized(s) && Allocated(s.tree, x) && Allocated(s.tree, n) && n in Rerooted(s.tree, x).live
    ensures StaysExpanded(s, ReparentedState(s, x), n)
  {
    hide InSubtree;
    RerootLinks(s.tree, x, n);
  }

  /** A step of a thread changes the state of its own node only, which is not expanded. */
  lemma ThreadStays(c: Config, s: State, e: Event, n: int)
    requires Inv(c, s) && Enabled(c, s, e) && n in s.tree.live && Allocated(s.tree, n)
    requires e.Enter? || e.Look? || e.Descend? || e.Claim? || e.EvalFails? || e.EvalScored? || e.Publish? || e.Finish?
             || e.BackStep? || e.UndoStep?
    ensures StaysExpanded(s, After(c, s, e), n)
  {
    hide Offers, Accounts, ClaimsOk, NodesOk, TreeOk, ThreadsOk, Step, LegalMove, ValidPosition, WithChildren, Playable;
    match e
    case EvalFails(k) => OneThread(c, s, k);
    case EvalScored(k) => OneThread(c, s, k);
    case Publish(k, moves, v) =>
      OneThread(c, s, k);
      GrownStays(c, s, s.threads[k].n, moves, n);
    case Finish(k) => OneThread(c, s, k);
    case _ =>
  }

  /** Once expanded, a node stays expanded and keeps its children as long as it is in the tree. */
  lemma ExpandedStays(c: Config, s: State, e: Event, n: int)
    requires Inv(c, s) && Enabled(c, s, e) && n in s.tree.live && n in After(c, s, e).tree.live
    ensures StaysExpanded(s, After(c, s, e), n)
  {
    hide Offers, Accounts, ClaimsOk, NodesOk, TreeOk, ThreadsOk, Step, LegalMove, ValidPosition, WithChildren, Rerooted, Playable,
      Descended, Backed, Undone, Grown;
    InTree(c.rules, s.tree, s.board, n);
    match e
    case InitScored =>
    case InitExpand(moves, v) =>
      GrownStays(c, s, s.tree.root, moves, n);
      GrownTop(c, s, s.tree.root, moves);
    case Resume =>
    case Pause =>
    case PlayMove(m) =>
      var child := FindChild(s.tree, s.tree.root, m, 0);
      if child != NO_NODE { RerootStays(s, child, n); }
    case Restart(moves) =>
    case ClearTree =>
    case _ => ThreadStays(c, s, e, n);
  }

  /** From the state in which a node was seen expanded, its children never change while it is in
      the tree: the pointer a thread read stays good. */
  lemma {:induction false} ExpandedForGood(c: Config, states: seq<State>, events: seq<Event>, i: nat, j: nat, n: int)
    requires ValidRules(c.rules) && IsRun(c, states, events) && i <= j < |states|
    requires forall k :: i <= k <= j ==> n in states[k].tree.live
    ensures StaysExpanded(states[i], states[j], n)
  {
    hide Inv, Guard, Alone, After, InitialState;
    RunIsSafe(c, states, events, i);
    if i == j {
      assert Sized(states[i]) && Allocated(states[i].tree, n) by { AllocatedInRun(c, states[i], n); }
    } else {
      ExpandedForGood(c, states, events, i, j - 1, n);
      RunIsSafe(c, states, events, j - 1);
      assert states[j] == After(c, states[j - 1], events[j - 1]) by { assert states[(j - 1) + 1] == states[j]; }
      assert n in states[j].tree.live;
      ExpandedStays(c, states[j - 1], events[j - 1], n);
    }
  }

  lemma AllocatedInRun(c: Config, s: State, n: int)
    requires Inv(c, s) && n in s.tree.live
    ensures Sized(s) && Allocated(s.tree, n)
  {
    InTree(c.rules, s.tree, s.board, n);
  }
}
