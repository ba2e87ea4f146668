/** The plain rules of Go on an arbitrary finite neighbour relation.

    Nothing here is incremental: a group is a connected one-coloured region of the board, found
    by walking from stone to stone, and a move is "put the stone down, take off every opponent
    group that is left without a liberty".  The incremental board is proved against this module. */
module GoRules {

  /** The colour codes 0..3; `Wall` is the bitwise or of the two players' codes. */
  datatype Color = Empty | Black | White | Wall

  /** BLACK + WHITE - c */
  function Opponent(c: Color): Color {
    match c
    case Empty => Wall
    case Black => White
    case White => Black
    case Wall => Empty
  }

  predicate IsPlayer(c: Color) { c == Black || c == White }

  type Board = seq<Color>

  /** `g[p]` lists the neighbours of point `p`. */
  type Graph = seq<seq<int>>

  ghost predicate Adj(g: Graph, p: int, q: int) {
    0 <= p < |g| && 0 <= q < |g| && q in g[p]
  }

  /** Neighbours are points of the board, the relation is symmetric and irreflexive, and no
      point is isolated. */
  ghost predicate ValidGraph(g: Graph) {
    && (forall p, q :: 0 <= p < |g| && q in g[p] ==> 0 <= q < |g|)
    && (forall p, q :: Adj(g, p, q) ==> Adj(g, q, p))
    && (forall p :: !Adj(g, p, p))
    && (forall p :: 0 <= p < |g| ==> |g[p]| > 0)
  }

  ghost predicate ValidBoard(g: Graph, b: Board) {
    && |b| == |g|
    && forall p :: 0 <= p < |b| ==> b[p] == Empty || IsPlayer(b[p])
  }

  // ---------- walks and groups ----------

  /** `w` walks from `p` to `q` over neighbouring points that all have the colour of `p`. */
  ghost predicate IsWalk(g: Graph, b: Board, w: seq<int>, p: int, q: int) {
    && |w| > 0 && w[0] == p && w[|w| - 1] == q && 0 <= p < |b|
    && (forall i :: 0 <= i < |w| ==> 0 <= w[i] < |b| && b[w[i]] == b[p])
    && (forall i :: 0 <= i < |w| - 1 ==> Adj(g, w[i], w[i + 1]))
  }

  ghost predicate SameChain(g: Graph, b: Board, p: int, q: int) {
    exists w :: IsWalk(g, b, w, p, q)
  }

  /** The connected one-coloured region that contains `p`. */
  ghost function GroupOf(g: Graph, b: Board, p: int): set<int> {
    set q | 0 <= q < |b| && SameChain(g, b, p, q)
  }

  ghost predicate Touches(g: Graph, S: set<int>, q: int) {
    exists p :: p in S && Adj(g, p, q)
  }

  /** The empty points next to `S`. */
  ghost function Liberties(g: Graph, b: Board, S: set<int>): set<int> {
    set q | 0 <= q < |b| && b[q] == Empty && Touches(g, S, q)
  }

  /** The points next to `S` that are not in `S`, whatever stands on them. */
  ghost function Border(g: Graph, S: set<int>): set<int> {
    set q | 0 <= q < |g| && q !in S && Touches(g, S, q)
  }

  // ---------- the plain move ----------

  /** Opponent stones whose group has no liberty once `c` stands on `p`. */
  ghost function Captured(g: Graph, b: Board, c: Color, p: int): set<int>
    requires 0 <= p < |b|
  {
    set q | 0 <= q < |b| && b[q] == Opponent(c) &&
            Liberties(g, b[p := c], GroupOf(g, b[p := c], q)) == {}
  }

  ghost function Remove(b: Board, D: set<int>): (r: Board)
    ensures |r| == |b|
  {
    seq(|b|, i requires 0 <= i < |b| => if i in D then Empty else b[i])
  }

  ghost function Play(g: Graph, b: Board, c: Color, p: int): (r: Board)
    requires 0 <= p < |b|
    ensures |r| == |b|
  {
    Remove(b[p := c], Captured(g, b, c, p))
  }

  /** After the move the stone's own group has a liberty. */
  ghost predicate NotSuicide(g: Graph, b: Board, c: Color, p: int)
    requires 0 <= p < |b|
  {
    Liberties(g, Play(g, b, c, p), GroupOf(g, Play(g, b, c, p), p)) != {}
  }

  /** Every stone's group has a liberty. */
  ghost predicate AllAlive(g: Graph, b: Board) {
    forall p :: 0 <= p < |b| && b[p] != Empty ==> Liberties(g, b, GroupOf(g, b, p)) != {}
  }

  // ---------- groups without walks ----------

  /** `S` cannot be split in two parts with no edge between them. */
  ghost predicate Connected(g: Graph, S: set<int>) {
    forall T: set<int> ::
      T <= S && T != {} && (forall p, q :: p in T && q in S && Adj(g, p, q) ==> q in T) ==> T == S
  }

  ghost predicate Uniform(b: Board, S: set<int>, c: Color) {
    forall p :: p in S ==> 0 <= p < |b| && b[p] == c
  }

  ghost predicate Maximal(g: Graph, b: Board, S: set<int>, c: Color) {
    forall p, q :: p in S && 0 <= q < |b| && b[q] == c && Adj(g, p, q) ==> q in S
  }

  /** `S` is a maximal connected region of colour `c`. */
  ghost predicate IsGroup(g: Graph, b: Board, S: set<int>, c: Color) {
    S != {} && Uniform(b, S, c) && Maximal(g, b, S, c) && Connected(g, S)
  }

  lemma WalkStays(g: Graph, b: Board, S: set<int>, c: Color, w: seq<int>, i: nat)
    requires |b| == |g| && Uniform(b, S, c) && Maximal(g, b, S, c)
    requires |w| > 0 && IsWalk(g, b, w, w[0], w[|w| - 1]) && w[0] in S && i < |w|
    ensures w[i] in S
  {
    if i > 0 {
      WalkStays(g, b, S, c, w, i - 1);
      assert Adj(g, w[i - 1], w[i]);
    }
  }

  lemma ExtendWalk(g: Graph, b: Board, p: int, q: int, r: int)
    requires SameChain(g, b, p, q) && 0 <= p < |b| && 0 <= r < |b| && b[r] == b[p] && Adj(g, q, r)
    ensures SameChain(g, b, p, r)
  {
    var w :| IsWalk(g, b, w, p, q);
    assert IsWalk(g, b, w + [r], p, r);
  }

  lemma SelfChain(g: Graph, b: Board, p: int)
    requires 0 <= p < |b|
    ensures SameChain(g, b, p, p)
  {
    assert IsWalk(g, b, [p], p, p);
  }

  /** The walk definition and the "maximal connected region" definition name the same sets. */
  lemma GroupIsChain(g: Graph, b: Board, S: set<int>, c: Color, p: int)
    requires |b| == |g| && IsGroup(g, b, S, c) && p in S
    ensures S == GroupOf(g, b, p)
  {
    var G := GroupOf(g, b, p);
    forall q | q in G ensures q in S {
      var w :| IsWalk(g, b, w, p, q);
      WalkStays(g, b, S, c, w, |w| - 1);
    }
    SelfChain(g, b, p);
    forall q, r | q in G && r in S && Adj(g, q, r) ensures r in G {
      ExtendWalk(g, b, p, q, r);
    }
    assert G <= S && p in G;
    assert Connected(g, S);
  }

  lemma WalkFromInside(g: Graph, b: Board, S: set<int>, T: set<int>, w: seq<int>, i: nat)
    requires ValidGraph(g) && |b| == |g|
    requires |w| > 0 && IsWalk(g, b, w, w[0], w[|w| - 1]) && i < |w|
    requires forall k :: 0 <= k < |w| ==> w[k] in S
    requires forall p, q :: p in T && q in S && Adj(g, p, q) ==> q in T
    ensures w[i] in T ==> w[0] in T
    ensures w[0] in T ==> w[i] in T
  {
    if i > 0 {
      WalkFromInside(g, b, S, T, w, i - 1);
      assert Adj(g, w[i - 1], w[i]) && Adj(g, w[i], w[i - 1]);
    }
  }

  lemma WalkPrefix(g: Graph, b: Board, w: seq<int>, p: int, q: int, k: nat)
    requires IsWalk(g, b, w, p, q) && k < |w|
    ensures SameChain(g, b, p, w[k])
  {
    assert IsWalk(g, b, w[..k + 1], p, w[k]);
  }

  lemma ChainConnected(g: Graph, b: Board, p: int)
    requires ValidGraph(g) && |b| == |g| && 0 <= p < |b|
    ensures Connected(g, GroupOf(g, b, p))
  {
    var S := GroupOf(g, b, p);
    forall T: set<int> | T <= S && T != {} && (forall x, y :: x in T && y in S && Adj(g, x, y) ==> y in T)
      ensures T == S
    {
      var t :| t in T;
      forall q | q in S + {t} ensures p in T ==> q in T ensures q in T ==> p in T {
        var w :| IsWalk(g, b, w, p, q);
        forall k | 0 <= k < |w| ensures w[k] in S { WalkPrefix(g, b, w, p, q, k); }
        WalkFromInside(g, b, S, T, w, |w| - 1);
      }
    }
  }

  /** The walk region of a stone is a maximal connected region. */
  lemma ChainIsGroup(g: Graph, b: Board, p: int)
    requires ValidGraph(g) && |b| == |g| && 0 <= p < |b|
    ensures IsGroup(g, b, GroupOf(g, b, p), b[p]) && p in GroupOf(g, b, p)
  {
    var S := GroupOf(g, b, p);
    SelfChain(g, b, p);
    assert p in S;
    ChainConnected(g, b, p);
    forall q | q in S ensures b[q] == b[p] {
      var w :| IsWalk(g, b, w, p, q);
    }
    forall q, r | q in S && 0 <= r < |b| && b[r] == b[p] && Adj(g, q, r) ensures r in S {
      ExtendWalk(g, b, p, q, r);
    }
  }

  lemma SameGroup(g: Graph, b: Board, S: set<int>, T: set<int>, c: Color, d: Color, p: int)
    requires |b| == |g| && IsGroup(g, b, S, c) && IsGroup(g, b, T, d) && p in S && p in T
    ensures S == T && c == d
  {
    GroupIsChain(g, b, S, c, p);
    GroupIsChain(g, b, T, d, p);
  }

  /** Two connected regions with an edge between them form a connected region. */
  lemma JoinConnected(g: Graph, S: set<int>, T: set<int>, p: int, q: int)
    requires ValidGraph(g) && Connected(g, S) && Connected(g, T) && p in S && q in T && Adj(g, p, q)
    ensures Connected(g, S + T)
  {
    forall U: set<int> | U <= S + T && U != {} &&
        (forall x, y :: x in U && y in S + T && Adj(g, x, y) ==> y in U)
      ensures U == S + T
    {
      assert Adj(g, q, p);
      assert forall x, y :: x in U * S && y in S && Adj(g, x, y) ==> y in U * S;
      assert forall x, y :: x in U * T && y in T && Adj(g, x, y) ==> y in U * T;
      assert U * S <= S && U * T <= T;
      var u :| u in U;
      if u in S { assert u in U * S; assert q in U * T; } else { assert u in U * T; assert p in U * S; }
    }
  }

  lemma SingletonConnected(g: Graph, p: int)
    ensures Connected(g, {p})
  {
    forall T: set<int> | T <= {p} && T != {} ensures T == {p} {
      var t :| t in T;
    }
  }
}
