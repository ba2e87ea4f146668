/** The children that Expand gives a node, from the board's map of legal points. */
module Expansion {
  import opened GoRules
  import opened GoGame
  import opened GoBoard
  import opened SearchTree
  import opened SearchRun

  ghost predicate AllDifferent(s: seq<int>) {
    forall i, j :: 0 <= i < j < |s| ==> s[i] != s[j]
  }

  /** The legal points in order, then pass. */
  method CollectMoves(legal: seq<bool>) returns (moves: seq<int>)
    ensures AllDifferent(moves)
    ensures forall m :: m in moves <==> m == COORD_PASS || (0 <= m < |legal| && legal[m])
  {
    moves := [];
    for i := 0 to |legal|
      invariant AllDifferent(moves)
      invariant forall m :: m in moves <==> 0 <= m < i && legal[m]
    {
      if legal[i] { moves := moves + [i]; }
    }
    assert COORD_PASS !in moves;
    moves := moves + [COORD_PASS];
  }

  /** The policy has one number for each point and one for pass, at the end. */
  function PolicyOf(policy: seq<real>, m: int): real
    requires |policy| > 0
  {
    if m == COORD_PASS then policy[|policy| - 1] else if 0 <= m < |policy| then policy[m] else 0.0
  }

  /** With more moves than a node may have children, the front of `order` is kept: the moves as
      std::nth_element rearranged them, so that none of the front has a smaller policy than one of
      the rest. */
  method ChildrenOf(legal: seq<bool>, policy: seq<real>, maxChildren: int, order: seq<int>) returns (moves: seq<int>)
    requires |policy| == |legal| + 1
    requires AllDifferent(order) && forall m :: m in order <==> m == COORD_PASS || (0 <= m < |legal| && legal[m])
    requires 0 < maxChildren < |order| ==>
               forall i, j :: 0 <= i < maxChildren <= j < |order| ==> PolicyOf(policy, order[i]) >= PolicyOf(policy, order[j])
    ensures AllDifferent(moves) && forall m :: m in moves ==> m in order
    ensures if 0 < maxChildren < |order| then |moves| == maxChildren else forall m :: m in order ==> m in moves
    ensures forall m, d :: m in moves && d in order && d !in moves ==> PolicyOf(policy, m) >= PolicyOf(policy, d)
  {
    moves := CollectMoves(legal);
    SameSize(moves, order);
    if maxChildren > 0 && |moves| > maxChildren {
      moves := order[..maxChildren];
      assert forall k :: 0 <= k < maxChildren ==> moves[k] == order[k];
      forall m, d | m in moves && d in order && d !in moves ensures PolicyOf(policy, m) >= PolicyOf(policy, d) {
        var i :| 0 <= i < maxChildren && order[i] == m;
        var j :| 0 <= j < |order| && order[j] == d;
      }
    }
  }

  lemma {:induction false} SizeOfSet(s: seq<int>)
    requires AllDifferent(s)
    ensures |MoveSet(s)| == |s|
  {
    if s != [] {
      var t := s[..|s| - 1];
      SizeOfSet(t);
      assert MoveSet(s) == MoveSet(t) + {s[|s| - 1]};
    } else {
      assert MoveSet(s) == {};
    }
  }

  lemma SameSize(s: seq<int>, t: seq<int>)
    requires AllDifferent(s) && AllDifferent(t) && forall m :: m in s <==> m in t
    ensures |s| == |t|
  {
    SizeOfSet(s);
    SizeOfSet(t);
    assert MoveSet(s) == MoveSet(t);
  }

  /** On a board whose map of legal points is exact, the children are an offer in the sense of the
      search: all legal moves, or as many as the limit allows. */
  lemma ExactMapGivesOffer(c: Config, p: Position, legal: seq<bool>, order: seq<int>, moves: seq<int>)
    requires ValidPosition(c.rules, p) && ExactMap(c.rules, p, legal) && !Scored(c, p)
    requires AllDifferent(order) && forall m :: m in order <==> m == COORD_PASS || (0 <= m < |legal| && legal[m])
    requires AllDifferent(moves) && forall m :: m in moves ==> m in order
    requires if 0 < c.maxChildren < |order| then |moves| == c.maxChildren else forall m :: m in order ==> m in moves
    ensures Offer(c, p, moves)
  {
    hide ValidPosition, LegalPoint;
    SizeOfSet(order);
    var all := LegalMoves(c.rules, p);
    assert forall m :: m in order <==> m in all;
    assert MoveSet(order) == all;
    forall i | 0 <= i < |moves| ensures LegalMove(c.rules, p, moves[i]) {
      assert moves[i] in moves;
    }
    if !(0 < c.maxChildren < |order|) {
      assert MoveSet(moves) == all;
    }
  }
}
