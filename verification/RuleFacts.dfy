/** The rules restated without the definitions they are computed by. */
module RuleFacts {
  import opened GoRules
  import opened Placement
  import opened GoGame
  import Zobrist

  // ---------- one move, point by point ----------

  /** Every point after a move: the stone, emptied opponent groups whose last liberty it took, and
      everything else as before. */
  lemma PlayPointwise(g: Graph, b: Board, c: Color, p: int, q: int)
    requires MoveContext(g, b, c, p) && AllAlive(g, b) && 0 <= q < |b|
    ensures Play(g, b, c, p)[q] ==
            if q == p then c
            else if b[q] == Opponent(c) && Liberties(g, b, GroupOf(g, b, q)) == {p} then Empty
            else b[q]
  {
    hide GroupOf, Liberties;
    CapturedGroups(g, b, c, p);
    if b[q] == Opponent(c) {
      ChainIsGroup(g, b, q);
      CapturedInAtari(g, b, c, p, GroupOf(g, b, q), q);
    }
  }

  /** The board after a legal move or a pass, point by point. */
  lemma StepPointwise(r: Rules, s: Position, to: int, q: int)
    requires ValidPosition(r, s) && LegalMove(r, s, to) && 0 <= q < |s.board|
    ensures |Step(r, s, to).board| == |s.board|
    ensures Step(r, s, to).board[q] ==
            if to != COORD_PASS && q == to then s.player
            else if to != COORD_PASS && s.board[q] == Opponent(s.player) && Liberties(r.g, s.board, GroupOf(r.g, s.board, q)) == {to}
            then Empty
            else s.board[q]
  {
    if to != COORD_PASS { PlayPointwise(r.g, s.board, s.player, to, q); }
  }

  /** The neighbour `q` keeps a stone on `p` alive: it is empty, an own group with another liberty,
      or an opponent group that the stone captures. */
  ghost predicate Saves(g: Graph, b: Board, c: Color, p: int, q: int)
    requires 0 <= q < |b|
  {
    || b[q] == Empty
    || (b[q] == c && Liberties(g, b, GroupOf(g, b, q)) != {p})
    || (b[q] == Opponent(c) && Liberties(g, b, GroupOf(g, b, q)) == {p})
  }

  lemma JoinsStone(g: Graph, b: Board, c: Color, p: int, q: int)
    requires MoveContext(g, b, c, p) && 0 <= q < |b| && Adj(g, p, q) && b[q] == c
    ensures GroupOf(g, b, q) <= GroupOf(g, b[p := c], p)
  {
    var b1 := b[p := c];
    ChainIsGroup(g, b1, p);
    ChainIsGroup(g, b, q);
    var S, G := GroupOf(g, b, q), GroupOf(g, b1, p);
    hide GroupOf;
    assert q in G;
    var T := S * G;
    assert forall x, y :: x in T && y in S && Adj(g, x, y) ==> y in T;
    assert q in T && T <= S;
    assert T == S;
  }

  lemma SaverSaves(g: Graph, b: Board, c: Color, p: int, q: int)
    requires MoveContext(g, b, c, p) && AllAlive(g, b) && 0 <= q < |b| && Adj(g, p, q) && Saves(g, b, c, p, q)
    ensures NotSuicide(g, b, c, p)
  {
    hide GroupOf, Connected, Maximal, Captured, Play;
    if b[q] == Empty {
      EmptyNeighbourIsSafe(g, b, c, p);
    } else {
      var r := Play(g, b, c, p);
      StoneGroupAfterPlay(g, b, c, p);
      var G := GroupOf(g, b[p := c], p);
      if b[q] == c {
        JoinsStone(g, b, c, p, q);
        ChainIsGroup(g, b, q);
        var S := GroupOf(g, b, q);
        assert Adj(g, q, p) && p in Liberties(g, b, S);
        var x :| x in Liberties(g, b, S) && x != p;
        PlayPointwise(g, b, c, p, x);
        var y :| y in S && Adj(g, y, x);
        assert y in G && Touches(g, G, x);
        assert x in Liberties(g, r, G);
      } else {
        PlayPointwise(g, b, c, p, q);
        assert p in G && Touches(g, G, q);
        assert q in Liberties(g, r, G);
      }
    }
  }

  /** An own stone in the new stone's group comes from a group that touched the point. */
  lemma JoinedTouched(g: Graph, b: Board, c: Color, p: int, y: int)
    requires MoveContext(g, b, c, p) && y in GroupOf(g, b[p := c], p) && y != p
    ensures 0 <= y < |b| && b[y] == c && Touches(g, GroupOf(g, b, y), p)
  {
    ChainIsGroup(g, b[p := c], p);
    assert b[y] == c;
    ChainIsGroup(g, b, y);
    var S := GroupOf(g, b, y);
    if !Touches(g, S, p) {
      GroupBesideStone(g, b, c, p, S, c);
      SameGroup(g, b[p := c], S, GroupOf(g, b[p := c], p), c, c, y);
    }
  }

  lemma SameRegion(g: Graph, b: Board, y: int, q: int)
    requires ValidGraph(g) && |b| == |g| && 0 <= y < |b| && q in GroupOf(g, b, y)
    ensures 0 <= q < |b| && b[q] == b[y] && GroupOf(g, b, q) == GroupOf(g, b, y)
  {
    ChainIsGroup(g, b, y);
    GroupIsChain(g, b, GroupOf(g, b, y), b[y], q);
  }

  lemma SafeHasSaver(g: Graph, b: Board, c: Color, p: int) returns (q: int)
    requires MoveContext(g, b, c, p) && AllAlive(g, b) && NotSuicide(g, b, c, p)
    ensures 0 <= q < |b| && Adj(g, p, q) && Saves(g, b, c, p, q)
  {
    hide GroupOf, Connected, Maximal, Captured, Play;
    var r := Play(g, b, c, p);
    StoneGroupAfterPlay(g, b, c, p);
    var G := GroupOf(g, b[p := c], p);
    var x :| x in Liberties(g, r, G);
    var y :| y in G && Adj(g, y, x);
    PlayPointwise(g, b, c, p, x);
    if b[x] == Empty {
      if y == p {
        q := x;
      } else {
        JoinedTouched(g, b, c, p, y);
        var S := GroupOf(g, b, y);
        ChainIsGroup(g, b, y);
        q :| q in S && Adj(g, q, p);
        SameRegion(g, b, y, q);
        assert Touches(g, S, x);
        assert x in Liberties(g, b, S);
      }
    } else {
      var S := GroupOf(g, b, x);
      assert p in Liberties(g, b, S);
      q :| q in S && Adj(g, q, p);
      SameRegion(g, b, x, q);
    }
  }

  /** A move is not suicide exactly when some neighbour of the point saves the stone. */
  lemma NotSuicideIff(g: Graph, b: Board, c: Color, p: int)
    requires MoveContext(g, b, c, p) && AllAlive(g, b)
    ensures NotSuicide(g, b, c, p) <==> exists q :: 0 <= q < |b| && Adj(g, p, q) && Saves(g, b, c, p, q)
  {
    hide NotSuicide, Saves;
    if NotSuicide(g, b, c, p) { var q := SafeHasSaver(g, b, c, p); }
    if q :| 0 <= q < |b| && Adj(g, p, q) && Saves(g, b, c, p, q) { SaverSaves(g, b, c, p, q); }
  }

  // ---------- the reply to a move ----------

  /** The ko point is the one reply that would bring the previous board back. */
  lemma KoIsReturn(r: Rules, s: Position, to: int, i: int)
    requires ValidPosition(r, s) && LegalMove(r, s, to)
    requires var t := Step(r, s, to); 0 <= i < |t.board| && t.board[i] == Empty
    ensures var t := Step(r, s, to); t.ko == i <==> Play(r.g, t.board, t.player, i) == s.board
  {
    var t := Step(r, s, to);
    if to == COORD_PASS {
      NoKoAfterPass(r.g, s.board, t.player);
      ValidAfterMove(r.g, s.board, t.player, i);
    } else {
      if HasEmptyNeighbour(r.g, s.board, to) { EmptyNeighbourIsSafe(r.g, s.board, s.player, to); }
      hide NotSuicide, Play, GroupOf, Liberties, Captured, AllAlive;
      KoIsExact(r.g, s.board, s.player, to, i);
    }
  }

  /** After a legal move, a point may be played exactly when it is empty, some neighbour saves the
      stone, the board before the move does not come back, and, in superko mode and without an
      empty neighbour, no recorded position comes back. */
  lemma LegalAfterStep(r: Rules, s: Position, to: int, i: int)
    requires ValidPosition(r, s) && LegalMove(r, s, to)
    ensures var t := Step(r, s, to); ValidPosition(r, t)
    ensures var t := Step(r, s, to);
            LegalPoint(r, t, i) <==>
              && 0 <= i < |t.board| && t.board[i] == Empty && NotSuicide(r.g, t.board, t.player, i)
              && Play(r.g, t.board, t.player, i) != s.board
              && (r.superko && !HasEmptyNeighbour(r.g, t.board, i) ==>
                    Zobrist.HashOf(r.z, Play(r.g, t.board, t.player, i), Opponent(t.player)) !in s.history)
  {
    StepIsValid(r, s, to);
    var t := Step(r, s, to);
    if 0 <= i < |t.board| && t.board[i] == Empty {
      KoIsReturn(r, s, to, i);
      if HasEmptyNeighbour(r.g, t.board, i) { EmptyNeighbourIsSafe(r.g, t.board, t.player, i); }
    }
    hide NotSuicide, Play, GroupOf, KoPoint, AllAlive;
  }

  // ---------- a whole game ----------

  /** Who is to move after `k` legal moves. */
  function Turn(k: nat): Color { if k % 2 == 0 then Black else White }

  ghost function HashAfter(r: Rules, moves: seq<int>, k: nat): Zobrist.Hash
    requires ValidRules(r) && k <= |moves|
  {
    InitialIsValid(r);
    Zobrist.HashOf(r.z, ReplayOf(r, InitialPosition(r), moves[..k]).board, Turn(k))
  }

  lemma PrefixLine(r: Rules, moves: seq<int>)
    requires ValidRules(r) && |moves| > 0
    requires ValidPosition(r, InitialPosition(r)) && LegalLine(r, InitialPosition(r), moves)
    ensures var init := moves[..|moves| - 1];
            LegalLine(r, InitialPosition(r), init) && LegalMove(r, ReplayOf(r, InitialPosition(r), init), moves[|moves| - 1])
            && ReplayOf(r, InitialPosition(r), moves) == Step(r, ReplayOf(r, InitialPosition(r), init), moves[|moves| - 1])
  {
    hide LegalMove, Step, ValidPosition;
    var init := moves[..|moves| - 1];
    forall i | 0 <= i < |init| ensures LegalMove(r, ReplayOf(r, InitialPosition(r), init[..i]), init[i]) {
      assert init[..i] == moves[..i];
    }
  }

  /** Turn, last move and double pass are those of the moves played. */
  lemma {:induction false} LineState(r: Rules, moves: seq<int>)
    requires ValidRules(r) && ValidPosition(r, InitialPosition(r)) && LegalLine(r, InitialPosition(r), moves)
    ensures var t := ReplayOf(r, InitialPosition(r), moves); var n := |moves|;
            && t.player == Turn(n)
            && t.last == (if n == 0 then COORD_UNSET else moves[n - 1])
            && (t.doublePass <==> n >= 2 && moves[n - 1] == COORD_PASS && moves[n - 2] == COORD_PASS)
  {
    hide ValidPosition, LegalMove, KoPoint, Play;
    if |moves| > 0 {
      PrefixLine(r, moves);
      LineState(r, moves[..|moves| - 1]);
    }
  }

  lemma TableFits(r: Rules, s: Position)
    requires ValidPosition(r, s)
    ensures Zobrist.ValidTable(r.z, |s.board|)
  {}

  /** In superko mode the recorded hashes are those of all positions of the game, and the legal
      map knows all of them but the last. */
  lemma {:induction false} LineHistory(r: Rules, moves: seq<int>, h: Zobrist.Hash)
    requires ValidRules(r) && ValidPosition(r, InitialPosition(r)) && LegalLine(r, InitialPosition(r), moves)
    ensures var t := ReplayOf(r, InitialPosition(r), moves);
            && (h in t.history <==> r.superko && exists k: nat :: 1 <= k <= |moves| && h == HashAfter(r, moves, k))
            && (h in t.seen <==> r.superko && exists k: nat :: 1 <= k < |moves| && h == HashAfter(r, moves, k))
  {
    hide ValidPosition, LegalMove, KoPoint, Play, Zobrist.HashOf;
    var n := |moves|;
    if n > 0 {
      PrefixLine(r, moves);
      var init := moves[..n - 1];
      LineHistory(r, init, h);
      LineState(r, moves);
      var s, t := ReplayOf(r, InitialPosition(r), init), ReplayOf(r, InitialPosition(r), moves);
      TableFits(r, t);
      assert moves[..n] == moves;
      assert HashAfter(r, moves, n) == Zobrist.HashOf(r.z, t.board, t.player);
      assert t.seen == s.history;
      assert t.history == if r.superko then s.history + {HashAfter(r, moves, n)} else s.history;
      if k: nat :| 1 <= k < n && h == HashAfter(r, moves, k) {
        assert init[..k] == moves[..k];
        assert h == HashAfter(r, init, k);
      }
      if k: nat :| 1 <= k <= |init| && h == HashAfter(r, init, k) {
        assert init[..k] == moves[..k];
        assert h == HashAfter(r, moves, k);
      }
      hide HashAfter, Step;
    }
  }

  /** In superko mode a legal move at a point without an empty neighbour gives a position, board
      and side to move together, that differs from all earlier ones of the game but the last. */
  lemma NoRepetition(r: Rules, moves: seq<int>, to: int, k: nat)
    requires ValidRules(r) && ValidPosition(r, InitialPosition(r)) && LegalLine(r, InitialPosition(r), moves)
    requires var t := ReplayOf(r, InitialPosition(r), moves);
             r.superko && to != COORD_PASS && LegalMove(r, t, to) && !HasEmptyNeighbour(r.g, t.board, to)
    requires 1 <= k < |moves|
    ensures var u := Step(r, ReplayOf(r, InitialPosition(r), moves), to);
            var v := ReplayOf(r, InitialPosition(r), moves[..k]);
            u.board != v.board || u.player != Turn(k)
  {
    var t := ReplayOf(r, InitialPosition(r), moves);
    LineHistory(r, moves, HashAfter(r, moves, k));
    hide NotSuicide, Play, KoPoint, Zobrist.HashOf;
  }
}
