/** What one move does to groups and liberties, in terms of the plain rules. */
module Placement {
  import opened GoRules

  ghost predicate MoveContext(g: Graph, b: Board, c: Color, p: int) {
    && ValidGraph(g) && ValidBoard(g, b) && IsPlayer(c)
    && 0 <= p < |b| && b[p] == Empty
  }

  ghost predicate HasEmptyNeighbour(g: Graph, b: Board, p: int) {
    exists q :: 0 <= q < |b| && Adj(g, p, q) && b[q] == Empty
  }

  // ---------- putting the stone down ----------

  /** A group that is not joined by the new stone stays a group and loses at most that liberty. */
  lemma GroupBesideStone(g: Graph, b: Board, c: Color, p: int, S: set<int>, d: Color)
    requires MoveContext(g, b, c, p) && IsPlayer(d) && IsGroup(g, b, S, d)
    requires d == c ==> !Touches(g, S, p)
    ensures IsGroup(g, b[p := c], S, d)
    ensures Liberties(g, b[p := c], S) == Liberties(g, b, S) - {p}
  {
    assert p !in S;
    assert forall q :: q in S && Adj(g, q, p) ==> Touches(g, S, p);
    assert Maximal(g, b[p := c], S, d);
  }

  /** A connected set that holds the new stone, otherwise only own stones, and with each of its
      points all own neighbours, is the new stone's group. */
  lemma GroupOfStone(g: Graph, b: Board, c: Color, p: int, S: set<int>)
    requires MoveContext(g, b, c, p)
    requires p in S && Connected(g, S)
    requires forall q :: q in S && q != p ==> 0 <= q < |b| && b[q] == c
    requires forall q, r :: q in S && 0 <= r < |b| && b[r] == c && Adj(g, q, r) ==> r in S
    ensures IsGroup(g, b[p := c], S, c)
    ensures S == GroupOf(g, b[p := c], p)
  {
    GroupIsChain(g, b[p := c], S, c, p);
  }

  // ---------- taking stones off ----------

  /** `D` is a union of opponent groups of `b`. */
  ghost predicate UnionOfGroups(g: Graph, b: Board, D: set<int>, c: Color) {
    && Uniform(b, D, c)
    && Maximal(g, b, D, c)
  }

  lemma GroupInsideOrOutside(g: Graph, b: Board, D: set<int>, d: Color, S: set<int>, c: Color)
    requires UnionOfGroups(g, b, D, d) && IsGroup(g, b, S, c) && |b| == |g|
    ensures S <= D || S !! D
  {
    if q :| q in S && q in D {
      var T := S * D;
      assert T <= S && q in T;
      assert forall x, y :: x in T && y in S && Adj(g, x, y) ==> y in T;
      assert T == S;
      assert S <= D;
    } else {
      assert forall q :: q in S ==> q !in D;
      assert S !! D;
    }
  }

  /** A group without captured stones stays a group and gains the captured points next to it. */
  lemma GroupAfterRemoval(g: Graph, b: Board, D: set<int>, S: set<int>, c: Color)
    requires ValidGraph(g) && |b| == |g| && IsPlayer(c) && IsGroup(g, b, S, c) && S !! D
    ensures IsGroup(g, Remove(b, D), S, c)
    ensures forall q :: q in Liberties(g, Remove(b, D), S) <==>
                        q in Liberties(g, b, S) || (q in D && 0 <= q < |b| && Touches(g, S, q))
  {
    var r := Remove(b, D);
    assert Uniform(r, S, c);
    assert Maximal(g, r, S, c);
  }

  /** With every group alive, a move captures exactly the opponent groups whose only liberty it
      fills. */
  lemma CapturedInAtari(g: Graph, b: Board, c: Color, p: int, S: set<int>, q: int)
    requires MoveContext(g, b, c, p) && AllAlive(g, b)
    requires IsGroup(g, b, S, Opponent(c)) && q in S
    ensures q in Captured(g, b, c, p) <==> Liberties(g, b, S) == {p}
  {
    hide GroupOf, Connected, Maximal, Liberties;
    GroupBesideStone(g, b, c, p, S, Opponent(c));
    GroupIsChain(g, b, S, Opponent(c), q);
    GroupIsChain(g, b[p := c], S, Opponent(c), q);
    assert Liberties(g, b, S) != {};
    assert Liberties(g, b, S) - {p} == {} <==> Liberties(g, b, S) <= {p};
    if Liberties(g, b, S) <= {p} {
      var x :| x in Liberties(g, b, S);
      assert Liberties(g, b, S) == {p};
    }
  }

  lemma CapturedColour(g: Graph, b: Board, c: Color, p: int, q: int)
    requires 0 <= p < |b| && q in Captured(g, b, c, p)
    ensures 0 <= q < |b| && b[q] == Opponent(c)
  {}

  /** The captured stones are a union of opponent groups. */
  lemma CapturedGroups(g: Graph, b: Board, c: Color, p: int)
    requires MoveContext(g, b, c, p)
    ensures UnionOfGroups(g, b[p := c], Captured(g, b, c, p), Opponent(c))
    ensures p !in Captured(g, b, c, p)
  {
    var b1 := b[p := c];
    var D := Captured(g, b, c, p);
    forall q, r | q in D && 0 <= r < |b1| && b1[r] == Opponent(c) && Adj(g, q, r) ensures r in D {
      ChainIsGroup(g, b1, q);
      assert r in GroupOf(g, b1, q);
      GroupIsChain(g, b1, GroupOf(g, b1, q), Opponent(c), r);
    }
  }

  /** An own group keeps clear of the captured stones. */
  lemma OwnGroupSurvives(g: Graph, b: Board, c: Color, p: int, S: set<int>)
    requires MoveContext(g, b, c, p) && IsGroup(g, b[p := c], S, c)
    ensures S !! Captured(g, b, c, p)
    ensures IsGroup(g, Play(g, b, c, p), S, c)
  {
    GroupAfterRemoval(g, b[p := c], Captured(g, b, c, p), S, c);
  }

  /** The new stone's group is the same set of points before and after the captures. */
  lemma StoneGroupAfterPlay(g: Graph, b: Board, c: Color, p: int)
    requires MoveContext(g, b, c, p)
    ensures GroupOf(g, Play(g, b, c, p), p) == GroupOf(g, b[p := c], p)
    ensures IsGroup(g, Play(g, b, c, p), GroupOf(g, b[p := c], p), c)
    ensures p in GroupOf(g, b[p := c], p)
  {
    ChainIsGroup(g, b[p := c], p);
    OwnGroupSurvives(g, b, c, p, GroupOf(g, b[p := c], p));
    GroupIsChain(g, Play(g, b, c, p), GroupOf(g, b[p := c], p), c, p);
  }

  /** An empty neighbour rules out suicide. */
  lemma EmptyNeighbourIsSafe(g: Graph, b: Board, c: Color, p: int)
    requires MoveContext(g, b, c, p) && HasEmptyNeighbour(g, b, p)
    ensures NotSuicide(g, b, c, p)
  {
    var q :| 0 <= q < |b| && Adj(g, p, q) && b[q] == Empty;
    StoneGroupAfterPlay(g, b, c, p);
    assert Touches(g, GroupOf(g, Play(g, b, c, p), p), q);
    assert q in Liberties(g, Play(g, b, c, p), GroupOf(g, Play(g, b, c, p), p));
  }

  /** A stone that is still there after the move belongs to the same group as before the captures. */
  lemma GroupBeforeCapture(g: Graph, b: Board, c: Color, p: int, q: int)
    requires MoveContext(g, b, c, p) && 0 <= q < |b| && Play(g, b, c, p)[q] != Empty
    ensures GroupOf(g, b[p := c], q) == GroupOf(g, Play(g, b, c, p), q)
    ensures b[p := c][q] == Play(g, b, c, p)[q]
    ensures GroupOf(g, b[p := c], q) !! Captured(g, b, c, p)
    ensures IsGroup(g, Play(g, b, c, p), GroupOf(g, b[p := c], q), b[p := c][q])
    ensures IsGroup(g, b[p := c], GroupOf(g, b[p := c], q), b[p := c][q])
    ensures q in GroupOf(g, b[p := c], q)
    ensures Liberties(g, b[p := c], GroupOf(g, b[p := c], q)) <= Liberties(g, Play(g, b, c, p), GroupOf(g, b[p := c], q))
  {
    var b1 := b[p := c];
    var S := GroupOf(g, b1, q);
    ChainIsGroup(g, b1, q);
    CapturedGroups(g, b, c, p);
    GroupInsideOrOutside(g, b1, Captured(g, b, c, p), Opponent(c), S, b1[q]);
    GroupAfterRemoval(g, b1, Captured(g, b, c, p), S, b1[q]);
    GroupIsChain(g, Play(g, b, c, p), S, b1[q], q);
  }

  /** A stone's group that the new stone does not join was the same group before the move. */
  lemma GroupBeforeMove(g: Graph, b: Board, c: Color, p: int, q: int)
    requires MoveContext(g, b, c, p) && 0 <= q < |b| && b[p := c][q] != Empty
    requires p !in GroupOf(g, b[p := c], q)
    ensures GroupOf(g, b, q) == GroupOf(g, b[p := c], q)
    ensures IsGroup(g, b, GroupOf(g, b, q), b[q]) && q in GroupOf(g, b, q)
    ensures Liberties(g, b[p := c], GroupOf(g, b, q)) == Liberties(g, b, GroupOf(g, b, q)) - {p}
    ensures b[q] == c ==> !Touches(g, GroupOf(g, b, q), p)
  {
    var b1 := b[p := c];
    var S := GroupOf(g, b1, q);
    ChainIsGroup(g, b1, q);
    assert q != p;
    assert Uniform(b, S, b[q]);
    assert Maximal(g, b, S, b[q]);
    GroupIsChain(g, b, S, b[q], q);
    assert forall x :: x in S && Adj(g, x, p) && b1[p] == b1[q] ==> p in S;
    GroupBesideStone(g, b, c, p, S, b[q]);
  }

  /** Every group is alive after a move that is not suicide. */
  lemma AliveAfterMove(g: Graph, b: Board, c: Color, p: int)
    requires MoveContext(g, b, c, p) && AllAlive(g, b) && NotSuicide(g, b, c, p)
    ensures AllAlive(g, Play(g, b, c, p))
  {
    var r := Play(g, b, c, p);
    forall q | 0 <= q < |r| && r[q] != Empty ensures Liberties(g, r, GroupOf(g, r, q)) != {} {
      GroupBeforeCapture(g, b, c, p, q);
      var S := GroupOf(g, b[p := c], q);
      if p in S {
        GroupIsChain(g, r, S, b[p := c][q], p);
      } else {
        GroupBeforeMove(g, b, c, p, q);
        if b[q] == c {
          var x :| x in Liberties(g, b, S);
          assert x != p;
          assert x in Liberties(g, b[p := c], S);
        } else {
          assert q !in Captured(g, b, c, p);
          assert Liberties(g, b[p := c], S) != {};
        }
      }
    }
  }

  lemma ValidAfterMove(g: Graph, b: Board, c: Color, p: int)
    requires MoveContext(g, b, c, p)
    ensures ValidBoard(g, Play(g, b, c, p)) && Play(g, b, c, p)[p] == c
  {
    CapturedGroups(g, b, c, p);
  }
}
