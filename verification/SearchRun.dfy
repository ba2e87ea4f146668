/** The search as a transition system: many threads on one tree, and a controller that changes
    the tree between searches.  Every read, write and compare-and-swap of a shared field is a
    step of its own; the fields of one node are written one after the other. */
module SearchRun {
  import opened GoRules
  import opened GoGame
  import opened SearchTree
  import opened Flow
  import Scoring

  /** k_action_value_base */
  const VALUE_BASE: int := 65536

  datatype Expansion = Unexpanded | Expanding | Expanded

  /** Where a search thread is in the loop of SearchRoutine, with its own copy of the board. */
  datatype Thread =
    | Idle
    | Looking(n: int, board: Position)
    | Choosing(n: int, board: Position)
    | Claiming(n: int, board: Position)
    | Evaluating(n: int, board: Position)
    | Publishing(n: int, value: int, len: nat)
    | Backing(n: int, field: nat, value: int, len: nat)
    | Undoing(n: int)
    | Crashed

  /** `maxChildren` limits the children of a node when it is positive. */
  datatype Config = Config(rules: Rules, scoring: bool, maxChildren: int)

  /** One sequence for each counter of TreeNode, indexed by node; the own... sequences are
      history: what the backups that started at a node have charged to it. */
  datatype State = State(
    tree: Tree, board: Position,
    expand: seq<Expansion>, visits: seq<int>, losses: seq<int>, totals: seq<int>, sizes: seq<int>,
    values: seq<int>,
    ownVisits: seq<int>, ownLosses: seq<int>, ownTotals: seq<int>, ownSizes: seq<int>,
    threads: seq<Thread>, searching: bool)

  datatype Event =
    | Enter(k: nat) | Look(k: nat) | Descend(k: nat, i: nat) | Claim(k: nat)
    | EvalFails(k: nat) | EvalScored(k: nat) | Publish(k: nat, moves: seq<int>, value: int)
    | Finish(k: nat) | BackStep(k: nat) | UndoStep(k: nat)
    | InitScored | InitExpand(moves: seq<int>, value: int)
    | Resume | Pause | PlayMove(move: int) | Restart(moves: seq<int>) | ClearTree

  /** The game is over by two passes and such positions are scored instead of evaluated. */
  ghost predicate Scored(c: Config, s: Position) { c.scoring && s.doublePass }

  /** The value of a scored position for the side that moved there, as Eval gives it. */
  ghost function ScoredValue(c: Config, s: Position): int {
    if Scoring.Winner(c.rules.g, s.board) == s.player then -VALUE_BASE else VALUE_BASE
  }

  ghost predicate AllIdle(s: State) {
    forall k :: 0 <= k < |s.threads| ==> s.threads[k].Idle?
  }

  ghost predicate Sized(s: State) {
    |s.tree.links| == |s.expand| == |s.visits| == |s.losses| == |s.totals| == |s.sizes|
      == |s.values| == |s.ownVisits| == |s.ownLosses| == |s.ownTotals| == |s.ownSizes|
  }

  ghost predicate InValue(v: int) { -VALUE_BASE <= v <= VALUE_BASE }

  ghost function LegalMoves(r: Rules, p: Position): set<int>
    requires ValidPosition(r, p)
  {
    (set m: int | 0 <= m < |p.board| && LegalPoint(r, p, m)) + {COORD_PASS}
  }

  ghost function MoveSet(moves: seq<int>): set<int> { set m | m in moves }

  /** A list of children for position `p`: all legal moves, each once, or, when these are too
      many, as many of them as a node may have. */
  ghost predicate Offer(c: Config, p: Position, moves: seq<int>) {
    && !Scored(c, p) && Playable(c.rules, p, moves)
    && var all := LegalMoves(c.rules, p);
       if 0 < c.maxChildren < |all| then |moves| == c.maxChildren else MoveSet(moves) == all
  }

  lemma OfferIsNotEmpty(c: Config, p: Position, moves: seq<int>)
    requires Offer(c, p, moves)
    ensures moves != [] && !Scored(c, p) && Playable(c.rules, p, moves)
  {
    assert COORD_PASS in LegalMoves(c.rules, p);
    assert moves == [] ==> COORD_PASS !in MoveSet(moves);
  }

  /** The moves of the children of `n`. */
  ghost function ChildMoves(t: Tree, n: int): seq<int>
    requires Allocated(t, n)
  {
    var ch := t.links[n].ch;
    seq(|ch|, i requires 0 <= i < |ch| => if Allocated(t, ch[i]) then t.links[ch[i]].move else NO_NODE)
  }

  /** Nodes with children have those that Expand offers. */
  ghost predicate Offers(c: Config, t: Tree) {
    forall n :: n in t.live && Allocated(t, n) && t.links[n].ch != [] ==> Offer(c, t.links[n].pos, ChildMoves(t, n))
  }

  /** What the program itself tests, or reads from its own data, before a step. */
  ghost predicate Guard(c: Config, s: State, e: Event) {
    && Sized(s) && Allocated(s.tree, s.tree.root)
    && match e
       case Enter(k) => k < |s.threads| && s.threads[k].Idle?
       case Look(k) => k < |s.threads| && s.threads[k].Looking? && Allocated(s.tree, s.threads[k].n)
       case Descend(k, i) =>
         && k < |s.threads| && s.threads[k].Choosing? && Allocated(s.tree, s.threads[k].n)
         && var ch := s.tree.links[s.threads[k].n].ch; ch == [] || (i < |ch| && Allocated(s.tree, ch[i]))
       case Claim(k) => k < |s.threads| && s.threads[k].Claiming? && Allocated(s.tree, s.threads[k].n)
       case EvalFails(k) =>
         k < |s.threads| && s.threads[k].Evaluating? && Allocated(s.tree, s.threads[k].n) && !Scored(c, s.threads[k].board)
       case EvalScored(k) =>
         k < |s.threads| && s.threads[k].Evaluating? && Allocated(s.tree, s.threads[k].n) && Scored(c, s.threads[k].board)
       case Publish(k, moves, v) =>
         && k < |s.threads| && s.threads[k].Evaluating? && Allocated(s.tree, s.threads[k].n)
         && s.tree.links[s.threads[k].n].pos == s.threads[k].board
         && Offer(c, s.threads[k].board, moves) && InValue(v)
       case Finish(k) => k < |s.threads| && s.threads[k].Publishing? && Allocated(s.tree, s.threads[k].n)
       case BackStep(k) => k < |s.threads| && s.threads[k].Backing? && Allocated(s.tree, s.threads[k].n)
       case UndoStep(k) => k < |s.threads| && s.threads[k].Undoing? && Allocated(s.tree, s.threads[k].n)
       case InitScored => s.expand[s.tree.root].Unexpanded? && Scored(c, s.board)
       case InitExpand(moves, v) =>
         && s.expand[s.tree.root].Unexpanded? && s.tree.links[s.tree.root].pos == s.board
         && Offer(c, s.board, moves) && InValue(v)
       case Resume => !s.expand[s.tree.root].Unexpanded?
       case Pause => true
       case PlayMove(m) => ValidPosition(c.rules, s.board) && LegalMove(c.rules, s.board, m)
       case Restart(moves) => ValidRules(c.rules)
       case ClearTree => true
  }

  /** What the pause protocol provides: threads search only between Resume and Pause, and the
      controller touches the tree only when no thread is in it. */
  ghost predicate Alone(s: State, e: Event) {
    match e
    case Enter(_) => s.searching
    case Pause => s.searching && AllIdle(s)
    case InitScored => !s.searching && AllIdle(s)
    case InitExpand(_, _) => !s.searching && AllIdle(s)
    case Resume => !s.searching && AllIdle(s)
    case PlayMove(_) => !s.searching && AllIdle(s)
    case Restart(_) => !s.searching && AllIdle(s)
    case ClearTree => !s.searching && AllIdle(s)
    case _ => true
  }

  ghost predicate Enabled(c: Config, s: State, e: Event) { Guard(c, s, e) && Alone(s, e) }

  // ---------- the steps ----------

  ghost function WithThread(s: State, k: nat, th: Thread): State
    requires k < |s.threads|
  {
    s.(threads := s.threads[k := th])
  }

  ghost function SetExpand(s: State, n: int, x: Expansion): State
    requires 0 <= n < |s.expand|
  {
    s.(expand := s.expand[n := x])
  }

  ghost function AddLoss(s: State, n: int, d: int): State
    requires 0 <= n < |s.losses|
  {
    s.(losses := s.losses[n := s.losses[n] + d])
  }

  /** A backup starts at `n`: its value is stored, and history records what it charges there. */
  ghost function Charge(s: State, n: int, v: int): State
    requires 0 <= n < |s.ownVisits| && n < |s.ownTotals| && n < |s.values|
  {
    s.(values := s.values[n := v], ownVisits := s.ownVisits[n := s.ownVisits[n] + 1], ownTotals := s.ownTotals[n := s.ownTotals[n] + v])
  }

  ghost function Grown(c: Config, s: State, n: int, moves: seq<int>): State
    requires Allocated(s.tree, n) && Playable(c.rules, s.tree.links[n].pos, moves)
  {
    var zero := seq(|moves|, _ => 0);
    var one := seq(|moves|, _ => 1);
    s.(tree := WithChildren(c.rules, s.tree, n, moves),
       expand := s.expand + seq(|moves|, _ => Unexpanded),
       visits := s.visits + zero, losses := s.losses + zero, totals := s.totals + zero, sizes := s.sizes + one,
       values := s.values + zero,
       ownVisits := s.ownVisits + zero, ownLosses := s.ownLosses + zero, ownTotals := s.ownTotals + zero,
       ownSizes := s.ownSizes + one)
  }

  /** Choosing child `i`: charge it a virtual loss and play its move on the thread's board. */
  ghost function Descended(c: Config, s: State, k: nat, i: nat): State
    requires Guard(c, s, Descend(k, i))
  {
    var th := s.threads[k];
    var ch := s.tree.links[th.n].ch;
    if ch == [] then WithThread(s, k, Crashed)
    else
      var child, m := ch[i], s.tree.links[ch[i]].move;
      WithThread(AddLoss(s, child, 1), k,
                 if ValidPosition(c.rules, th.board) && LegalMove(c.rules, th.board, m)
                 then Looking(child, Step(c.rules, th.board, m)) else Crashed)
  }

  /** One of the four updates of Backup at the thread's node; after the last one it moves up. */
  ghost function Backed(s: State, k: nat): State
    requires Sized(s) && k < |s.threads| && s.threads[k].Backing? && Allocated(s.tree, s.threads[k].n)
  {
    var th := s.threads[k];
    var n := th.n;
    var next := Backing(n, th.field + 1, th.value, th.len);
    match th.field
    case 0 => WithThread(s, k, next).(sizes := s.sizes[n := s.sizes[n] + th.len])
    case 1 => WithThread(s, k, next).(visits := s.visits[n := s.visits[n] + 1])
    case 2 => AddLoss(WithThread(s, k, next), n, -1)
    case _ =>
      var up := s.tree.links[n].fa;
      WithThread(s, k, if up == NO_NODE then Idle else Backing(up, 0, -th.value, th.len))
        .(totals := s.totals[n := s.totals[n] + th.value])
  }

  ghost function Undone(s: State, k: nat): State
    requires Sized(s) && k < |s.threads| && s.threads[k].Undoing? && Allocated(s.tree, s.threads[k].n)
  {
    var n := s.threads[k].n;
    var up := s.tree.links[n].fa;
    AddLoss(WithThread(s, k, if up == NO_NODE then Idle else Undoing(up)), n, -1)
  }

  /** InitRoot backs up at the root, which nobody charged a virtual loss for this. */
  ghost function RootBacked(s: State, v: int, len: nat): State
    requires Sized(s) && Allocated(s.tree, s.tree.root)
  {
    var n := s.tree.root;
    Charge(s, n, v).(sizes := s.sizes[n := s.sizes[n] + len], visits := s.visits[n := s.visits[n] + 1],
                     losses := s.losses[n := s.losses[n] - 1], ownLosses := s.ownLosses[n := s.ownLosses[n] - 1],
                     totals := s.totals[n := s.totals[n] + v])
  }

  ghost function FreshState(s: State, board: Position, move: int): State {
    s.(tree := FreshTree(s.tree, board, move), board := board, expand := s.expand + [Unexpanded],
       visits := s.visits + [0], losses := s.losses + [0], totals := s.totals + [0], sizes := s.sizes + [1],
       values := s.values + [0],
       ownVisits := s.ownVisits + [0], ownLosses := s.ownLosses + [0], ownTotals := s.ownTotals + [0],
       ownSizes := s.ownSizes + [1])
  }

  ghost function ReparentedState(s: State, n: int): State
    requires Sized(s) && Allocated(s.tree, n)
  {
    s.(tree := Rerooted(s.tree, n), board := s.tree.links[n].pos, expand := s.expand + [s.expand[n]],
       visits := s.visits + [s.visits[n]], losses := s.losses + [s.losses[n]], totals := s.totals + [s.totals[n]],
       sizes := s.sizes + [s.sizes[n]], values := s.values + [s.values[n]],
       ownVisits := s.ownVisits + [s.ownVisits[n]], ownLosses := s.ownLosses + [s.ownLosses[n]],
       ownTotals := s.ownTotals + [s.ownTotals[n]], ownSizes := s.ownSizes + [s.ownSizes[n]])
  }

  /** FindChild: the first child of `n` with this move, if any. */
  ghost function FindChild(t: Tree, n: int, move: int, i: nat): (r: int)
    requires Allocated(t, n) && i <= |t.links[n].ch|
    ensures r != NO_NODE ==> exists j :: i <= j < |t.links[n].ch| && t.links[n].ch[j] == r
                                          && Allocated(t, r) && t.links[r].move == move
    ensures r == NO_NODE ==> forall j :: i <= j < |t.links[n].ch| && Allocated(t, t.links[n].ch[j]) ==>
              t.links[t.links[n].ch[j]].move != move
    decreases |t.links[n].ch| - i
  {
    var ch := t.links[n].ch;
    if i == |ch| then NO_NODE
    else if Allocated(t, ch[i]) && t.links[ch[i]].move == move then ch[i]
    else FindChild(t, n, move, i + 1)
  }

  /** The engine plays a move: the child takes over as root, or a fresh root is made; either way
      the board of the engine moves on. */
  ghost function Played(c: Config, s: State, m: int): State
    requires Guard(c, s, PlayMove(m))
  {
    var board := Step(c.rules, s.board, m);
    var child := FindChild(s.tree, s.tree.root, m, 0);
    if child == NO_NODE then FreshState(s, board, m) else ReparentedState(s, child).(board := board)
  }

  ghost function After(c: Config, s: State, e: Event): State
    requires Guard(c, s, e)
  {
    match e
    case Enter(k) => WithThread(AddLoss(s, s.tree.root, 1), k, Looking(s.tree.root, s.board))
    case Look(k) =>
      var th := s.threads[k];
      WithThread(s, k, if s.expand[th.n].Expanded? then Choosing(th.n, th.board) else Claiming(th.n, th.board))
    case Descend(k, i) => Descended(c, s, k, i)
    case Claim(k) =>
      var th := s.threads[k];
      if s.expand[th.n].Unexpanded?
      then WithThread(SetExpand(s, th.n, Expanding), k, Evaluating(th.n, th.board))
      else WithThread(s, k, Undoing(th.n))
    case EvalFails(k) =>
      var n := s.threads[k].n;
      WithThread(SetExpand(s, n, Unexpanded), k, Undoing(n))
    case EvalScored(k) =>
      var n, v := s.threads[k].n, ScoredValue(c, s.threads[k].board);
      WithThread(Charge(SetExpand(s, n, Unexpanded), n, v), k, Backing(n, 0, v, 0))
    case Publish(k, moves, v) =>
      var n := s.threads[k].n;
      WithThread(Grown(c, s, n, moves), k, Publishing(n, v, |moves|))
    case Finish(k) =>
      var th := s.threads[k];
      WithThread(Charge(SetExpand(s, th.n, Expanded), th.n, th.value), k, Backing(th.n, 0, th.value, th.len))
    case BackStep(k) => Backed(s, k)
    case UndoStep(k) => Undone(s, k)
    case InitScored => RootBacked(s, ScoredValue(c, s.board), 0)
    case InitExpand(moves, v) =>
      RootBacked(SetExpand(Grown(c, s, s.tree.root, moves), s.tree.root, Expanded), v, |moves|)
    case Resume => s.(searching := true)
    case Pause => s.(searching := false)
    case PlayMove(m) => Played(c, s, m)
    case Restart(moves) =>
      InitialIsValid(c.rules);
      FreshState(s, ReplayOf(c.rules, InitialPosition(c.rules), moves), if moves == [] then COORD_PASS else moves[|moves| - 1])
    case ClearTree => FreshState(s, s.board, COORD_PASS)
  }

  ghost function InitialState(c: Config, threads: nat): State {
    var board := InitialPosition(c.rules);
    State(Tree([Link(NO_NODE, [], COORD_PASS, 0, board)], 0, {0}), board,
          [Unexpanded], [0], [0], [0], [1], [0], [0], [0], [0], [1], seq(threads, _ => Idle), false)
  }

  // ---------- what every step keeps ----------

  /** The node a claimed expansion is for. */
  ghost predicate Holds(th: Thread, n: int) {
    (th.Evaluating? || th.Publishing?) && th.n == n
  }

  ghost predicate ThreadOk(c: Config, s: State, th: Thread)
    requires Sized(s)
  {
    match th
    case Idle => true
    case Looking(n, b) => n in s.tree.live && Allocated(s.tree, n) && b == s.tree.links[n].pos
    case Choosing(n, b) => n in s.tree.live && Allocated(s.tree, n) && b == s.tree.links[n].pos && s.expand[n].Expanded?
    case Claiming(n, b) => n in s.tree.live && Allocated(s.tree, n) && b == s.tree.links[n].pos
    case Evaluating(n, b) =>
      && n in s.tree.live && Allocated(s.tree, n) && b == s.tree.links[n].pos
      && s.expand[n].Expanding? && s.tree.links[n].ch == []
    case Publishing(n, v, len) =>
      && n in s.tree.live && Allocated(s.tree, n) && InValue(v) && !Scored(c, s.tree.links[n].pos)
      && s.expand[n].Expanding? && |s.tree.links[n].ch| == len > 0
    case Backing(n, f, v, len) => n in s.tree.live && Allocated(s.tree, n) && f < 4
    case Undoing(n) => n in s.tree.live && Allocated(s.tree, n)
    case Crashed => false
  }

  ghost predicate ThreadsOk(c: Config, s: State)
    requires Sized(s)
  {
    forall k :: 0 <= k < |s.threads| ==> ThreadOk(c, s, s.threads[k])
  }

  /** Children and state agree; a backup starts at a node once, when it is expanded, unless the
      game is over there. */
  ghost predicate NodeFacts(c: Config, s: State, n: int)
    requires Sized(s) && Allocated(s.tree, n)
  {
    && (s.expand[n].Unexpanded? ==> s.tree.links[n].ch == [])
    && (s.expand[n].Expanded? ==> s.tree.links[n].ch != [])
    && (var p := s.tree.links[n].pos;
        if Scored(c, p) then s.ownVisits[n] >= 0 && !s.expand[n].Expanded? && s.ownTotals[n] == ScoredValue(c, p) * s.ownVisits[n]
        else if s.expand[n].Expanded? then s.ownVisits[n] == 1 && s.ownTotals[n] == s.values[n] && InValue(s.values[n])
        else s.ownVisits[n] == s.ownTotals[n] == 0)
    && s.ownSizes[n] == 1
    && (if n == s.tree.root then s.ownLosses[n] <= 0 else s.ownLosses[n] == 0)
  }

  ghost predicate NodesOk(c: Config, s: State)
    requires Sized(s)
  {
    forall n :: n in s.tree.live && Allocated(s.tree, n) ==> NodeFacts(c, s, n)
  }

  /** A node is being expanded exactly when one thread holds it, and never by two. */
  ghost predicate ClaimsOk(s: State)
    requires Sized(s)
  {
    && (forall n :: n in s.tree.live && Allocated(s.tree, n) && s.expand[n].Expanding? ==> Held(s, n))
    && (forall j, k :: 0 <= j < k < |s.threads| ==> !Clash(s.threads[j], s.threads[k]))
  }

  ghost predicate Held(s: State, n: int) {
    exists k :: 0 <= k < |s.threads| && Holds(s.threads[k], n)
  }

  ghost predicate Clash(x: Thread, y: Thread) {
    exists n :: Holds(x, n) && Holds(y, n)
  }

  // The four loads of a thread: the next node it will change, and by how much.

  ghost function SizeLoad(t: Tree, th: Thread): (int, int) {
    match th
    case Publishing(n, v, len) => (n, len)
    case Backing(n, f, v, len) => (if f == 0 || !Allocated(t, n) then n else t.links[n].fa, len)
    case _ => (NO_NODE, 0)
  }

  ghost function VisitLoad(t: Tree, th: Thread): (int, int) {
    match th
    case Backing(n, f, v, len) => (if f <= 1 || !Allocated(t, n) then n else t.links[n].fa, 1)
    case _ => (NO_NODE, 0)
  }

  /** The cursor: the lowest node that holds a virtual loss of this thread. */
  ghost function LossLoad(t: Tree, th: Thread): (int, int) {
    match th
    case Idle => (NO_NODE, 0)
    case Crashed => (NO_NODE, 0)
    case Backing(n, f, v, len) => (if f <= 2 || !Allocated(t, n) then n else t.links[n].fa, -1)
    case _ => (th.n, -1)
  }

  ghost function TotalLoad(t: Tree, th: Thread): (int, int) {
    match th
    case Backing(n, f, v, len) => (n, v)
    case _ => (NO_NODE, 0)
  }

  ghost function SizeLoads(s: State): Load {
    seq(|s.threads|, k requires 0 <= k < |s.threads| => SizeLoad(s.tree, s.threads[k]))
  }

  ghost function VisitLoads(s: State): Load {
    seq(|s.threads|, k requires 0 <= k < |s.threads| => VisitLoad(s.tree, s.threads[k]))
  }

  ghost function LossLoads(s: State): Load {
    seq(|s.threads|, k requires 0 <= k < |s.threads| => LossLoad(s.tree, s.threads[k]))
  }

  ghost function TotalLoads(s: State): Load {
    seq(|s.threads|, k requires 0 <= k < |s.threads| => TotalLoad(s.tree, s.threads[k]))
  }

  ghost predicate Accounts(s: State) {
    && Flows(s.tree, s.sizes, s.ownSizes, 1, SizeLoads(s))
    && Flows(s.tree, s.visits, s.ownVisits, 1, VisitLoads(s))
    && Flows(s.tree, s.losses, s.ownLosses, 1, LossLoads(s))
    && Flows(s.tree, s.totals, s.ownTotals, -1, TotalLoads(s))
  }

  ghost predicate Inv(c: Config, s: State) {
    && ValidRules(c.rules) && Sized(s) && TreeOk(c.rules, s.tree, s.board)
    && ThreadsOk(c, s) && NodesOk(c, s) && ClaimsOk(s) && Accounts(s) && Offers(c, s.tree)
  }

  lemma InvInitially(c: Config, threads: nat)
    requires ValidRules(c.rules)
    ensures Inv(c, InitialState(c, threads))
  {
    var s := InitialState(c, threads);
    InitialIsValid(c.rules);
    UnloadedSum(SizeLoads(s), 0);
    UnloadedSum(VisitLoads(s), 0);
    UnloadedSum(LossLoads(s), 0);
    UnloadedSum(TotalLoads(s), 0);
  }
}
