/** The game as a plain transition system: a position and the move rule the engine promises. */
module GoGame {
  import opened GoRules
  import opened Placement
  import Zobrist

  const COORD_UNSET: int := -2
  const COORD_PASS: int := -1
  const COORD_RESIGN: int := -3

  /** Everything the rules depend on.  `seen` holds the hashes that were recorded when the legal
      moves of this position were computed, `history` those recorded since: the hash of the
      current position is added only after its legal moves are known. */
  datatype Position = Position(
    board: Board,
    player: Color,
    ko: int,
    last: int,
    doublePass: bool,
    seen: set<Zobrist.Hash>,
    history: set<Zobrist.Hash>)

  /** The fixed parameters of a game. */
  datatype Rules = Rules(g: Graph, z: Zobrist.Table, superko: bool)

  ghost predicate ValidRules(r: Rules) {
    ValidGraph(r.g) && Zobrist.ValidTable(r.z, |r.g|)
  }

  ghost predicate ValidPosition(r: Rules, s: Position) {
    && ValidRules(r) && ValidBoard(r.g, s.board) && IsPlayer(s.player)
    && AllAlive(r.g, s.board)
  }

  ghost function InitialPosition(r: Rules): Position {
    Position(seq(|r.g|, _ => Empty), Black, COORD_UNSET, COORD_UNSET, false, {}, {})
  }

  /** The opponent could take back at `k` and reproduce the board as it was before the move. */
  ghost predicate Retakes(g: Graph, before: Board, after: Board, opponent: Color, k: int) {
    0 <= k < |after| && after[k] == Empty && Play(g, after, opponent, k) == before
  }

  ghost function KoPoint(g: Graph, before: Board, after: Board, opponent: Color): int {
    if k :| Retakes(g, before, after, opponent, k) then k else COORD_UNSET
  }

  /** A point may be played when it is empty, is not the ko point and either has an empty
      neighbour or leaves the stone's group a liberty without repeating a recorded position. */
  ghost predicate LegalPoint(r: Rules, s: Position, i: int)
    requires ValidPosition(r, s)
  {
    && 0 <= i < |s.board| && s.board[i] == Empty && s.ko != i
    && (HasEmptyNeighbour(r.g, s.board, i)
        || (NotSuicide(r.g, s.board, s.player, i)
            && (r.superko ==>
                  Zobrist.HashOf(r.z, Play(r.g, s.board, s.player, i), Opponent(s.player)) !in s.seen)))
  }

  ghost predicate LegalMove(r: Rules, s: Position, to: int)
    requires ValidPosition(r, s)
  {
    to == COORD_PASS || LegalPoint(r, s, to)
  }

  ghost function Step(r: Rules, s: Position, to: int): Position
    requires ValidPosition(r, s) && LegalMove(r, s, to)
  {
    var board := if to == COORD_PASS then s.board else Play(r.g, s.board, s.player, to);
    var player := Opponent(s.player);
    Position(board, player,
             KoPoint(r.g, s.board, board, player),
             to, s.last == COORD_PASS && to == COORD_PASS,
             s.history,
             if r.superko then s.history + {Zobrist.HashOf(r.z, board, player)} else s.history)
  }

  lemma StepIsValid(r: Rules, s: Position, to: int)
    requires ValidPosition(r, s) && LegalMove(r, s, to)
    ensures ValidPosition(r, Step(r, s, to))
  {
    if to != COORD_PASS {
      if HasEmptyNeighbour(r.g, s.board, to) { EmptyNeighbourIsSafe(r.g, s.board, s.player, to); }
      AliveAfterMove(r.g, s.board, s.player, to);
      ValidAfterMove(r.g, s.board, s.player, to);
    }
  }

  lemma InitialIsValid(r: Rules)
    requires ValidRules(r)
    ensures ValidPosition(r, InitialPosition(r))
  {}

  /** Replaying a record in the plain game: illegal moves are skipped. */
  ghost function ReplayOf(r: Rules, s: Position, moves: seq<int>): (t: Position)
    requires ValidPosition(r, s)
    ensures ValidPosition(r, t)
  {
    if moves == [] then s
    else
      var t := ReplayOf(r, s, moves[..|moves| - 1]);
      var m := moves[|moves| - 1];
      if LegalMove(r, t, m) then (StepIsValid(r, t, m); Step(r, t, m)) else t
  }

  lemma ReplayStep(r: Rules, s: Position, moves: seq<int>, i: nat)
    requires ValidPosition(r, s) && i < |moves|
    ensures ReplayOf(r, s, moves[..i + 1]) ==
            var t := ReplayOf(r, s, moves[..i]);
            if LegalMove(r, t, moves[i]) then Step(r, t, moves[i]) else t
  {
    hide ValidPosition, LegalMove, Step;
    assert moves[..i + 1][..i] == moves[..i];
  }

  /** Every move of the list is legal when its turn comes. */
  ghost predicate LegalLine(r: Rules, s: Position, moves: seq<int>)
    requires ValidPosition(r, s)
  {
    forall i :: 0 <= i < |moves| ==> LegalMove(r, ReplayOf(r, s, moves[..i]), moves[i])
  }

  lemma LegalLineExtends(r: Rules, s: Position, moves: seq<int>, m: int)
    requires ValidPosition(r, s) && LegalLine(r, s, moves) && LegalMove(r, ReplayOf(r, s, moves), m)
    ensures LegalLine(r, s, moves + [m])
    ensures ReplayOf(r, s, moves + [m]) == Step(r, ReplayOf(r, s, moves), m)
  {
    hide ValidPosition, LegalMove, Step;
    assert (moves + [m])[..|moves|] == moves;
    forall i | 0 <= i < |moves| + 1 ensures LegalMove(r, ReplayOf(r, s, (moves + [m])[..i]), (moves + [m])[i]) {
      if i < |moves| { assert (moves + [m])[..i] == moves[..i]; }
    }
  }

  lemma EmptyLine(r: Rules, s: Position)
    requires ValidPosition(r, s)
    ensures LegalLine(r, s, []) && ReplayOf(r, s, []) == s
  {}

  // ---------- ko ----------

  /** No reply can undo a pass: the played stone stays on the board. */
  lemma NoKoAfterPass(g: Graph, b: Board, opponent: Color)
    requires ValidGraph(g) && ValidBoard(g, b) && IsPlayer(opponent)
    ensures KoPoint(g, b, b, opponent) == COORD_UNSET
  {
    forall k | 0 <= k < |b| && b[k] == Empty ensures Play(g, b, opponent, k) != b {
      ValidAfterMove(g, b, opponent, k);
    }
  }

  /** After a lone stone with one liberty captured at `k`, a reply at `k` captures no other stone. */
  lemma RetakeTakesOnlyTheStone(g: Graph, b: Board, c: Color, p: int, k: int, q: int)
    requires MoveContext(g, b, c, p) && AllAlive(g, b) && NotSuicide(g, b, c, p)
    requires MoveContext(g, Play(g, b, c, p), Opponent(c), k) && AllAlive(g, Play(g, b, c, p))
    requires b[k] != Empty
    requires IsGroup(g, Play(g, b, c, p), {p}, c)
    requires q in Captured(g, Play(g, b, c, p), Opponent(c), k)
    ensures q == p
  {
    hide GroupOf, Captured, Play, Connected, Maximal;
    var r := Play(g, b, c, p);
    CapturedColour(g, r, Opponent(c), k, q);
    var S := GroupOf(g, r, q);
    ChainIsGroup(g, r, q);
    CapturedInAtari(g, r, Opponent(c), k, S, q);
    if q != p {
      GroupBeforeCapture(g, b, c, p, q);
      assert p !in S by {
        if p in S { SameGroup(g, r, S, {p}, c, c, p); }
      }
      assert b[q] == c;
      var x :| x in Liberties(g, b, S) && (x != p ==> x in Liberties(g, b[p := c], S)) by {
        GroupBeforeMove(g, b, c, p, q);
      }
      GroupBeforeMove(g, b, c, p, q);
      assert false;
    }
  }

  /** A capture of one stone by a lone stone with one liberty can be retaken. */
  lemma RetakeRestores(g: Graph, b: Board, c: Color, p: int, k: int)
    requires MoveContext(g, b, c, p) && AllAlive(g, b) && NotSuicide(g, b, c, p)
    requires Captured(g, b, c, p) == {k}
    requires GroupOf(g, b[p := c], p) == {p}
    requires Liberties(g, Play(g, b, c, p), {p}) == {k}
    ensures Retakes(g, b, Play(g, b, c, p), Opponent(c), k)
  {
    hide GroupOf, Captured, Connected, Maximal, AllAlive, NotSuicide, Liberties;
    var r := Play(g, b, c, p);
    var o := Opponent(c);
    ValidAfterMove(g, b, c, p);
    CapturedColour(g, b, c, p, k);
    AliveAfterMove(g, b, c, p);
    StoneGroupAfterPlay(g, b, c, p);
    var D := Captured(g, r, o, k);
    CapturedInAtari(g, r, o, k, {p}, p);
    forall q | q in D ensures q == p {
      RetakeTakesOnlyTheStone(g, b, c, p, k, q);
    }
    assert D == {p};
    assert Play(g, r, o, k) == b;
  }

  /** A reply that restores the board retakes a lone stone that took one stone. */
  lemma RestoreIsRetake(g: Graph, b: Board, c: Color, p: int, k: int)
    requires MoveContext(g, b, c, p) && AllAlive(g, b) && NotSuicide(g, b, c, p)
    requires Retakes(g, b, Play(g, b, c, p), Opponent(c), k)
    ensures Captured(g, b, c, p) == {k}
    ensures GroupOf(g, b[p := c], p) == {p}
    ensures Liberties(g, Play(g, b, c, p), {p}) == {k}
  {
    hide GroupOf, Connected, Maximal, AllAlive, NotSuicide, Liberties;
    var r := Play(g, b, c, p);
    var o := Opponent(c);
    var r2 := Play(g, r, o, k);
    ValidAfterMove(g, b, c, p);
    CapturedGroups(g, b, c, p);
    AliveAfterMove(g, b, c, p);
    ValidAfterMove(g, r, o, k);
    CapturedGroups(g, r, o, k);
    assert b[k] == o;
    forall q | q in Captured(g, b, c, p) ensures q == k {
      assert r[q] == Empty && r2[q] == b[q] == o;
    }
    assert k in Captured(g, b, c, p) by { assert r[k] == Empty; }
    assert Captured(g, b, c, p) == {k};
    var D := Captured(g, r, o, k);
    forall q | q in D ensures q == p {
      assert r[q] == c && r2[q] == Empty;
    }
    assert p in D by { assert r2[p] == Empty && r[p] == c; }
    StoneGroupAfterPlay(g, b, c, p);
    var S := GroupOf(g, r, p);
    CapturedInAtari(g, r, o, k, S, p);
    forall q | q in S ensures q == p {
      CapturedInAtari(g, r, o, k, S, q);
    }
    assert S == {p};
  }

  /** The board-level ko test: a lone stone with one liberty that captured a lone stone. */
  lemma KoIsExact(g: Graph, b: Board, c: Color, p: int, k: int)
    requires MoveContext(g, b, c, p) && AllAlive(g, b) && NotSuicide(g, b, c, p)
    ensures (Captured(g, b, c, p) == {k} && GroupOf(g, b[p := c], p) == {p}
             && Liberties(g, Play(g, b, c, p), {p}) == {k})
            <==> Retakes(g, b, Play(g, b, c, p), Opponent(c), k)
    ensures Retakes(g, b, Play(g, b, c, p), Opponent(c), k) ==>
              KoPoint(g, b, Play(g, b, c, p), Opponent(c)) == k
  {
    if Captured(g, b, c, p) == {k} && GroupOf(g, b[p := c], p) == {p}
       && Liberties(g, Play(g, b, c, p), {p}) == {k}
    {
      RetakeRestores(g, b, c, p, k);
    }
    if Retakes(g, b, Play(g, b, c, p), Opponent(c), k) {
      RestoreIsRetake(g, b, c, p, k);
      var k2 := KoPoint(g, b, Play(g, b, c, p), Opponent(c));
      RestoreIsRetake(g, b, c, p, k2);
    }
  }
}
