/** What the engine plays, and what its threads evaluate, in every run of the search. */
module SearchGame {
  import opened GoRules
  import opened GoGame
  import opened SearchTree
  import opened Flow
  import opened SearchRun
  import opened SearchSteps
  import opened SearchSafety
  import Scoring

  // ---------- the engine's board ----------

  /** The game record: the moves of the last Restart and those played since. */
  ghost function Record(events: seq<Event>): seq<int> {
    if events == [] then []
    else
      var before := Record(events[..|events| - 1]);
      match events[|events| - 1]
      case Restart(moves) => moves
      case PlayMove(m) => before + [m]
      case _ => before
  }

  lemma BoardStep(c: Config, s: State, e: Event)
    requires Enabled(c, s, e) && ValidRules(c.rules) && ValidPosition(c.rules, InitialPosition(c.rules))
    ensures After(c, s, e).board ==
            match e
            case Restart(moves) => ReplayOf(c.rules, InitialPosition(c.rules), moves)
            case PlayMove(m) => Step(c.rules, s.board, m)
            case _ => s.board
  {
    hide Step, LegalMove, ValidPosition, Offer, Scored, ScoredValue, Rerooted, FreshTree, WithChildren;
  }

  /** In every state of every run the engine's board is the replay of the game record. */
  lemma {:induction false} BoardIsReplay(c: Config, states: seq<State>, events: seq<Event>, i: nat)
    requires ValidRules(c.rules) && IsRun(c, states, events) && i < |states|
    ensures ValidPosition(c.rules, InitialPosition(c.rules))
    ensures states[i].board == ReplayOf(c.rules, InitialPosition(c.rules), Record(events[..i]))
  {
    InitialIsValid(c.rules);
    hide Guard, Alone, After, ValidPosition, LegalMove, Step;
    if i == 0 {
      var n: nat :| states[0] == InitialState(c, n);
    } else {
      BoardIsReplay(c, states, events, i - 1);
      var s, e := states[i - 1], events[i - 1];
      assert states[i] == After(c, s, e);
      assert events[..i][..i - 1] == events[..i - 1];
      BoardStep(c, s, e);
      if e.PlayMove? {
        var before := Record(events[..i - 1]);
        assert (before + [e.move])[..|before|] == before;
        assert LegalMove(c.rules, s.board, e.move) by { PlayedIsLegal(c, s, e.move); }
      }
    }
  }

  lemma PlayedIsLegal(c: Config, s: State, m: int)
    requires Enabled(c, s, PlayMove(m))
    ensures ValidPosition(c.rules, s.board) && LegalMove(c.rules, s.board, m)
  {}

  /** The children of a node have different moves. */
  lemma OneChildAMove(r: Rules, t: Tree, board: Position, n: int, x: int, y: int)
    requires TreeOk(r, t, board) && n in t.live && Allocated(t, n) && x in t.links[n].ch && y in t.links[n].ch
    ensures Allocated(t, x) && Allocated(t, y) && (t.links[x].move == t.links[y].move ==> x == y)
  {
    ChildFacts(r, t, board, n);
    assert NodeOk(r, t, n);
    var i :| 0 <= i < |t.links[n].ch| && t.links[n].ch[i] == x;
    var j :| 0 <= j < |t.links[n].ch| && t.links[n].ch[j] == y;
    assert i < j ==> t.links[t.links[n].ch[i]].move != t.links[t.links[n].ch[j]].move;
    assert j < i ==> t.links[t.links[n].ch[j]].move != t.links[t.links[n].ch[i]].move;
  }

  /** Node `m` of `u` has all that node `n` of `s` had but its parent. */
  ghost predicate TakesOver(s: State, n: int, u: State, m: int) {
    && Sized(s) && Sized(u) && Allocated(s.tree, n) && Allocated(u.tree, m)
    && u.tree.links[m].ch == s.tree.links[n].ch && u.tree.links[m].move == s.tree.links[n].move
    && u.expand[m] == s.expand[n] && u.visits[m] == s.visits[n] && u.losses[m] == s.losses[n]
    && u.totals[m] == s.totals[n] && u.sizes[m] == s.sizes[n] && u.values[m] == s.values[n]
  }

  ghost predicate FreshRoot(u: State) {
    && Sized(u) && Allocated(u.tree, u.tree.root) && u.tree.live == {u.tree.root} && u.tree.links[u.tree.root].ch == []
    && u.expand[u.tree.root].Unexpanded? && u.visits[u.tree.root] == 0 && u.totals[u.tree.root] == 0
    && u.losses[u.tree.root] == 0 && u.sizes[u.tree.root] == 1
  }

  /** The engine's move: the board moves on; a child of the root with that move becomes the root,
      with its children and counters; only without one a fresh root is made. */
  lemma PlayMoveExact(c: Config, s: State, m: int, child: int)
    requires Inv(c, s) && Enabled(c, s, PlayMove(m))
    ensures var u := After(c, s, PlayMove(m));
            && u.board == Step(c.rules, s.board, m)
            && Allocated(u.tree, u.tree.root) && u.tree.links[u.tree.root].move == m
            && u.tree.links[u.tree.root].pos == u.board && u.tree.links[u.tree.root].fa == NO_NODE
    ensures child in s.tree.links[s.tree.root].ch && Allocated(s.tree, child) && s.tree.links[child].move == m ==>
              TakesOver(s, child, After(c, s, PlayMove(m)), After(c, s, PlayMove(m)).tree.root)
    ensures (forall x :: x in s.tree.links[s.tree.root].ch && Allocated(s.tree, x) ==> s.tree.links[x].move != m) ==>
              FreshRoot(After(c, s, PlayMove(m)))
  {
    hide Offers, TreeOk, NodesOk, ClaimsOk, Accounts, ThreadsOk, ValidRules, ValidPosition, LegalMove, Step, InSubtree;
    RootIsLive(c.rules, s.tree, s.board);
    var found := FindChild(s.tree, s.tree.root, m, 0);
    if found != NO_NODE {
      ChildFacts(c.rules, s.tree, s.board, s.tree.root);
      RootBoard(c.rules, s.tree, s.board);
      assert ChildOk(c.rules, s.tree, s.tree.root, found);
      if child in s.tree.links[s.tree.root].ch {
        OneChildAMove(c.rules, s.tree, s.board, s.tree.root, child, found);
      }
    } else if child in s.tree.links[s.tree.root].ch {
      var j :| 0 <= j < |s.tree.links[s.tree.root].ch| && s.tree.links[s.tree.root].ch[j] == child;
    }
  }

  /** A thread goes to the very child it chose, with the board that follows, and charges that child
      alone. */
  lemma DescendExact(c: Config, s: State, k: nat, i: nat)
    requires Inv(c, s) && Enabled(c, s, Descend(k, i))
    ensures i < |s.tree.links[s.threads[k].n].ch|
    ensures var child := s.tree.links[s.threads[k].n].ch[i];
            Allocated(s.tree, child) && GoesTo(s, After(c, s, Descend(k, i)), k, child)
  {
    hide Inv, After, GoesTo, Step, LegalMove, ValidPosition;
    DescendIsLegal(c, s, k, i);
    DescendEffect(c, s, k, i, s.tree.links[s.threads[k].n].ch[i]);
  }

  lemma DescendEffect(c: Config, s: State, k: nat, i: nat, child: int)
    requires Guard(c, s, Descend(k, i)) && i < |s.tree.links[s.threads[k].n].ch| && s.tree.links[s.threads[k].n].ch[i] == child
    requires Allocated(s.tree, child) && ValidPosition(c.rules, s.threads[k].board)
    requires LegalMove(c.rules, s.threads[k].board, s.tree.links[child].move)
    requires s.tree.links[child].pos == Step(c.rules, s.threads[k].board, s.tree.links[child].move)
    ensures GoesTo(s, After(c, s, Descend(k, i)), k, child)
  {
    hide Step, LegalMove, ValidPosition;
  }

  ghost predicate GoesTo(s: State, u: State, k: nat, child: int)
    requires Allocated(s.tree, child)
  {
    && u.tree == s.tree && k < |s.threads| && u.threads == s.threads[k := Looking(child, s.tree.links[child].pos)]
    && child < |s.losses| && u.losses == s.losses[child := s.losses[child] + 1]
  }

  // ---------- scored positions ----------

  /** The score is a loss for the side that moved there exactly when the side to move has won. */
  lemma ScoredValueByArea(c: Config, p: Position)
    requires IsPlayer(p.player)
    ensures var black, white := |Scoring.Area(c.rules.g, p.board, Black)|, |Scoring.Area(c.rules.g, p.board, White)|;
            && (ScoredValue(c, p) == -65536 <==> (p.player == Black && black >= white + 8) || (p.player == White && black <= white + 7))
            && (ScoredValue(c, p) == 65536 <==> (p.player == Black && black <= white + 7) || (p.player == White && black >= white + 8))
  {}

  // ---------- the network's answers ----------

  /** The network answers `eval`: the value given with an expansion is its answer for the position. */
  ghost predicate Answered(eval: Position -> int, s: State, e: Event) {
    match e
    case Publish(k, moves, v) => k < |s.threads| && s.threads[k].Evaluating? && v == eval(s.threads[k].board)
    case InitExpand(moves, v) => v == eval(s.board)
    case _ => true
  }

  ghost predicate Stored(eval: Position -> int, s: State)
    requires Sized(s)
  {
    && (forall k :: 0 <= k < |s.threads| && s.threads[k].Publishing? && Allocated(s.tree, s.threads[k].n) ==>
          s.threads[k].value == eval(s.tree.links[s.threads[k].n].pos))
    && (forall n :: n in s.tree.live && Allocated(s.tree, n) && s.expand[n].Expanded? ==> s.values[n] == eval(s.tree.links[n].pos))
  }

  /** One thread moved and published nothing; only node `n` may have changed its state or value. */
  lemma StoredAt(eval: Position -> int, s: State, u: State, k: nat, n: int)
    requires Sized(s) && Sized(u) && u.tree == s.tree && k < |s.threads| == |u.threads| && Stored(eval, s)
    requires forall j :: 0 <= j < |s.threads| && j != k ==> u.threads[j] == s.threads[j]
    requires !u.threads[k].Publishing?
    requires forall m :: 0 <= m < |s.expand| && m != n ==> u.expand[m] == s.expand[m] && u.values[m] == s.values[m]
    requires n in s.tree.live && Allocated(s.tree, n) && u.expand[n].Expanded? ==> u.values[n] == eval(s.tree.links[n].pos)
    ensures Stored(eval, u)
  {}

  lemma StoredQuiet(c: Config, eval: Position -> int, s: State, e: Event, k: nat)
    requires Inv(c, s) && Enabled(c, s, e) && Stored(eval, s)
    requires e == Enter(k) || e == Look(k) || (e.Descend? && e.k == k) || e == BackStep(k) || e == UndoStep(k)
    ensures Sized(After(c, s, e)) && Stored(eval, After(c, s, e))
  {
    hide Inv, Step, LegalMove, ValidPosition, Stored;
    StoredAt(eval, s, After(c, s, e), k, NO_NODE);
  }

  lemma StoredThread(c: Config, eval: Position -> int, s: State, e: Event, k: nat)
    requires Inv(c, s) && Enabled(c, s, e) && Stored(eval, s)
    requires e == Claim(k) || e == EvalFails(k) || e == EvalScored(k)
    ensures Sized(After(c, s, e)) && Stored(eval, After(c, s, e))
  {
    hide Inv, Scored, ScoredValue, Stored;
    var n := s.threads[k].n;
    StoredAt(eval, s, After(c, s, e), k, if e.Claim? && !s.expand[n].Unexpanded? then NO_NODE else n);
  }

  lemma StoredFinish(c: Config, eval: Position -> int, s: State, k: nat)
    requires Inv(c, s) && Enabled(c, s, Finish(k)) && Stored(eval, s)
    ensures Sized(After(c, s, Finish(k))) && Stored(eval, After(c, s, Finish(k)))
  {
    hide Inv, Stored, Scored, ScoredValue;
    PublishedValue(eval, s, k);
    StoredAt(eval, s, After(c, s, Finish(k)), k, s.threads[k].n);
  }

  lemma PublishedValue(eval: Position -> int, s: State, k: nat)
    requires Sized(s) && Stored(eval, s) && k < |s.threads| && s.threads[k].Publishing? && Allocated(s.tree, s.threads[k].n)
    ensures s.threads[k].value == eval(s.tree.links[s.threads[k].n].pos)
  {}

  lemma StoredGrown(c: Config, eval: Position -> int, s: State, n: int, moves: seq<int>)
    requires Inv(c, s) && Allocated(s.tree, n) && Playable(c.rules, s.tree.links[n].pos, moves) && Stored(eval, s)
    ensures Sized(Grown(c, s, n, moves)) && Stored(eval, Grown(c, s, n, moves))
  {
    hide Offers, Accounts, ClaimsOk, NodesOk, Step, Playable;
    var u := Grown(c, s, n, moves);
    forall k | 0 <= k < |s.threads| && s.threads[k].Publishing? ensures Allocated(s.tree, s.threads[k].n) {
      OneThread(c, s, k);
    }
    forall m | m in u.tree.live && Allocated(u.tree, m) && u.expand[m].Expanded? ensures u.values[m] == eval(u.tree.links[m].pos) {
      if m !in s.tree.live { NewNode(c.rules, s.tree, n, moves, m); }
    }
  }

  lemma StoredPublish(c: Config, eval: Position -> int, s: State, k: nat, moves: seq<int>, v: int)
    requires Inv(c, s) && Enabled(c, s, Publish(k, moves, v)) && Stored(eval, s) && Answered(eval, s, Publish(k, moves, v))
    ensures Sized(After(c, s, Publish(k, moves, v))) && Stored(eval, After(c, s, Publish(k, moves, v)))
  {
    hide Inv, Stored, Offer, Playable, WithChildren;
    var n := s.threads[k].n;
    OfferIsNotEmpty(c, s.tree.links[n].pos, moves);
    StoredGrown(c, eval, s, n, moves);
    GrownTop(c, s, n, moves);
    GrownThreads(c, s, n, moves);
    StoredPublishing(eval, Grown(c, s, n, moves), k, n, v, |moves|);
  }

  /** A thread begins to publish the answer for its node. */
  lemma StoredPublishing(eval: Position -> int, g: State, k: nat, n: int, v: int, len: nat)
    requires Sized(g) && k < |g.threads| && Allocated(g.tree, n) && v == eval(g.tree.links[n].pos) && Stored(eval, g)
    ensures Sized(WithThread(g, k, Publishing(n, v, len))) && Stored(eval, WithThread(g, k, Publishing(n, v, len)))
  {
    var u := WithThread(g, k, Publishing(n, v, len));
    forall j | 0 <= j < |u.threads| && u.threads[j].Publishing? && Allocated(u.tree, u.threads[j].n)
      ensures u.threads[j].value == eval(u.tree.links[u.threads[j].n].pos)
    {
      if j != k { assert u.threads[j] == g.threads[j]; }
    }
  }

  lemma StoredInit(c: Config, eval: Position -> int, s: State, moves: seq<int>, v: int)
    requires Inv(c, s) && Enabled(c, s, InitExpand(moves, v)) && Stored(eval, s) && Answered(eval, s, InitExpand(moves, v))
    ensures Sized(After(c, s, InitExpand(moves, v))) && Stored(eval, After(c, s, InitExpand(moves, v)))
  {
    var n := s.tree.root;
    OfferIsNotEmpty(c, s.tree.links[n].pos, moves);
    StoredGrown(c, eval, s, n, moves);
    GrownTop(c, s, n, moves);
    hide Inv, Grown, Offer, Playable;
    GrownThreads(c, s, n, moves);
  }

  lemma StoredEngine(c: Config, eval: Position -> int, s: State, e: Event)
    requires Inv(c, s) && Enabled(c, s, e) && Stored(eval, s)
    requires e.InitScored? || e.Resume? || e.Pause? || e.PlayMove? || e.Restart? || e.ClearTree?
    ensures Sized(After(c, s, e)) && Stored(eval, After(c, s, e))
  {
    hide Offers, Accounts, ClaimsOk, NodesOk, Step, LegalMove, ValidPosition, Scored, ScoredValue, InSubtree;
    match e
    case PlayMove(m) =>
      var found := FindChild(s.tree, s.tree.root, m, 0);
      if found != NO_NODE { StoredReroot(c, eval, s, found); }
    case _ =>
  }

  lemma StoredReroot(c: Config, eval: Position -> int, s: State, n: int)
    requires Inv(c, s) && AllIdle(s) && Stored(eval, s) && Allocated(s.tree, n) && n in s.tree.links[s.tree.root].ch
    ensures Sized(ReparentedState(s, n)) && Stored(eval, ReparentedState(s, n))
  {
    hide Offers, Accounts, ClaimsOk, NodesOk, InSubtree;
    ChildFacts(c.rules, s.tree, s.board, s.tree.root);
    var u := ReparentedState(s, n);
    forall m | m in u.tree.live && Allocated(u.tree, m) && u.expand[m].Expanded? ensures u.values[m] == eval(u.tree.links[m].pos) {
      if m != u.tree.root {
        InTree(c.rules, s.tree, s.board, m);
        RerootLinks(s.tree, n, m);
      }
    }
  }

  lemma StoredStep(c: Config, eval: Position -> int, s: State, e: Event)
    requires Inv(c, s) && Enabled(c, s, e) && Stored(eval, s) && Answered(eval, s, e)
    ensures Sized(After(c, s, e)) && Stored(eval, After(c, s, e))
  {
    hide Inv, Guard, Alone, After, Stored;
    match e
    case Publish(k, moves, v) => StoredPublish(c, eval, s, k, moves, v);
    case InitExpand(moves, v) => StoredInit(c, eval, s, moves, v);
    case Enter(k) => StoredQuiet(c, eval, s, e, k);
    case Look(k) => StoredQuiet(c, eval, s, e, k);
    case Descend(k, i) => StoredQuiet(c, eval, s, e, k);
    case Claim(k) => StoredThread(c, eval, s, e, k);
    case EvalFails(k) => StoredThread(c, eval, s, e, k);
    case EvalScored(k) => StoredThread(c, eval, s, e, k);
    case Finish(k) => StoredFinish(c, eval, s, k);
    case BackStep(k) => StoredQuiet(c, eval, s, e, k);
    case UndoStep(k) => StoredQuiet(c, eval, s, e, k);
    case _ => StoredEngine(c, eval, s, e);
  }

  /** In every run whose evaluations are answered by `eval`, each expanded node stores the answer
      for its own position, through re-rooting too. */
  lemma {:induction false} ValuesAreAnswers(c: Config, eval: Position -> int, states: seq<State>, events: seq<Event>, i: nat)
    requires ValidRules(c.rules) && IsRun(c, states, events) && i < |states|
    requires forall k :: 0 <= k < |events| ==> Answered(eval, states[k], events[k])
    ensures Sized(states[i]) && Stored(eval, states[i])
  {
    hide Inv, Guard, Alone, After, Answered;
    RunIsSafe(c, states, events, i);
    if i == 0 {
      var n: nat :| states[0] == InitialState(c, n);
    } else {
      ValuesAreAnswers(c, eval, states, events, i - 1);
      RunIsSafe(c, states, events, i - 1);
      assert states[i] == After(c, states[i - 1], events[i - 1]);
      hide Stored, Sized;
      StoredStep(c, eval, states[i - 1], events[i - 1]);
    }
  }

  // ---------- a thread alone ----------

  /** The one thread, if it has read the state of a leaf, finds it still unexpanded. */
  ghost predicate Undisturbed(s: State) {
    && Sized(s) && |s.threads| == 1
    && (s.threads[0].Claiming? ==> Allocated(s.tree, s.threads[0].n) && s.expand[s.threads[0].n].Unexpanded?)
  }

  lemma UndisturbedStep(c: Config, s: State, e: Event)
    requires Inv(c, s) && Enabled(c, s, e) && Undisturbed(s)
    ensures Undisturbed(After(c, s, e))
  {
    StepKeeps(c, s, e);
    var u := After(c, s, e);
    assert Sized(u);
    hide Offers, Accounts, NodesOk, TreeOk, Step, LegalMove, ValidPosition, Scored, ScoredValue, Playable, Offer, WithChildren,
      Rerooted, FreshTree;
    if e.Look? {
      OneThread(c, s, 0);
      var n := s.threads[0].n;
      assert s.expand[n].Expanding? ==> Held(s, n);
    } else {
      assert |u.threads| == 1 && !u.threads[0].Claiming? by { NoNewClaim(c, s, e); }
    }
  }

  lemma UndisturbedInitially(c: Config, n: nat)
    requires |InitialState(c, n).threads| == 1
    ensures Undisturbed(InitialState(c, n))
  {}

  /** No other step takes a thread that is alone to the claim. */
  lemma NoNewClaim(c: Config, s: State, e: Event)
    requires Enabled(c, s, e) && Undisturbed(s) && !e.Look?
    ensures |After(c, s, e).threads| == 1 && !After(c, s, e).threads[0].Claiming?
  {
    hide Step, LegalMove, ValidPosition, Scored, ScoredValue, Playable, Offer, WithChildren, Rerooted, FreshTree;
  }

  /** With a single search thread no simulation is wasted: every claim succeeds. */
  lemma {:induction false} LoneClaimSucceeds(c: Config, states: seq<State>, events: seq<Event>, i: nat)
    requires ValidRules(c.rules) && IsRun(c, states, events) && i < |states| && |states[0].threads| == 1
    ensures Undisturbed(states[i])
    ensures i < |events| && events[i].Claim? ==> |states[i + 1].threads| == 1 && states[i + 1].threads[0].Evaluating?
  {
    hide Inv, Guard, Alone, After, Undisturbed, InitialState;
    if i == 0 {
      var n: nat :| states[0] == InitialState(c, n);
      UndisturbedInitially(c, n);
    } else {
      LoneClaimSucceeds(c, states, events, i - 1);
      RunIsSafe(c, states, events, i - 1);
      assert states[i] == After(c, states[i - 1], events[i - 1]);
      UndisturbedStep(c, states[i - 1], events[i - 1]);
    }
    if i < |events| && events[i].Claim? { LoneClaim(c, states[i], events[i].k); }
  }

  lemma LoneClaim(c: Config, s: State, k: nat)
    requires Enabled(c, s, Claim(k)) && Undisturbed(s)
    ensures |After(c, s, Claim(k)).threads| == 1 && After(c, s, Claim(k)).threads[0].Evaluating?
  {}
}
