/** Area scoring by flood fill. */
module Scoring {
  import opened GoRules
  import opened Merging

  // ---------- the meaning of the score ----------

  ghost predicate Borders(g: Graph, b: Board, R: set<int>, c: Color) {
    exists q :: 0 <= q < |b| && b[q] == c && Touches(g, R, q)
  }

  /** The empty region `R` is bordered by colour `c` and by no other. */
  ghost predicate Surrounded(g: Graph, b: Board, R: set<int>, c: Color) {
    Borders(g, b, R, c) && !Borders(g, b, R, Opponent(c))
  }

  /** A player's area: the stones, and the empty points of regions only that player borders. */
  ghost predicate InArea(g: Graph, b: Board, c: Color, p: int) {
    0 <= p < |b| && (b[p] == c || (b[p] == Empty && Surrounded(g, b, GroupOf(g, b, p), c)))
  }

  ghost function Area(g: Graph, b: Board, c: Color): set<int> {
    set p | 0 <= p < |b| && InArea(g, b, c, p)
  }

  /** No point is in both areas. */
  lemma AreasAreDisjoint(g: Graph, b: Board)
    ensures Area(g, b, Black) !! Area(g, b, White)
    ensures |Area(g, b, Black)| + |Area(g, b, White)| <= |b|
  {
    UptoMembers(|b|);
    assert forall p :: p in Area(g, b, Black) ==> p !in Area(g, b, White);
    SubsetCount(Area(g, b, Black) + Area(g, b, White), Upto(|b|));
  }

  // ---------- the same area by walks ----------

  /** `w` goes from `p` over empty points to a point of colour `c`. */
  ghost predicate ReachesBy(g: Graph, b: Board, w: seq<int>, p: int, c: Color) {
    && |w| > 0 && w[0] == p
    && (forall i :: 0 <= i < |w| ==> 0 <= w[i] < |b|)
    && (forall i :: 0 <= i < |w| - 1 ==> b[w[i]] == Empty && Adj(g, w[i], w[i + 1]))
    && b[w[|w| - 1]] == c
  }

  ghost predicate Reaches(g: Graph, b: Board, p: int, c: Color) {
    exists w :: ReachesBy(g, b, w, p, c)
  }

  /** From an empty point exactly the colours that border its region are reached. */
  lemma ReachesIsBorders(g: Graph, b: Board, p: int, c: Color)
    requires ValidGraph(g) && |b| == |g| && 0 <= p < |b| && b[p] == Empty && IsPlayer(c)
    ensures Reaches(g, b, p, c) <==> Borders(g, b, GroupOf(g, b, p), c)
  {
    if w :| ReachesBy(g, b, w, p, c) {
      var n := |w|;
      var init := w[..n - 1];
      assert IsWalk(g, b, init, p, w[n - 2]);
      assert w[n - 2] in GroupOf(g, b, p) && Touches(g, GroupOf(g, b, p), w[n - 1]);
    }
    if Borders(g, b, GroupOf(g, b, p), c) {
      var q :| 0 <= q < |b| && b[q] == c && Touches(g, GroupOf(g, b, p), q);
      var x :| x in GroupOf(g, b, p) && Adj(g, x, q);
      var w :| IsWalk(g, b, w, p, x);
      assert ReachesBy(g, b, w + [q], p, c);
    }
  }

  /** Area scoring in the words of the Tromp-Taylor rules: a point belongs to a player if it reaches
      that player's colour and not the other's. */
  lemma AreaIsReach(g: Graph, b: Board, c: Color, p: int)
    requires ValidGraph(g) && ValidBoard(g, b) && IsPlayer(c) && 0 <= p < |b|
    ensures p in Area(g, b, c) <==> Reaches(g, b, p, c) && !Reaches(g, b, p, Opponent(c))
  {
    if b[p] == Empty {
      hide GroupOf, Borders, Reaches;
      ReachesIsBorders(g, b, p, c);
      ReachesIsBorders(g, b, p, Opponent(c));
    } else {
      assert ReachesBy(g, b, [p], p, b[p]);
      assert forall w, d :: ReachesBy(g, b, w, p, d) ==> |w| == 1 && d == b[p];
    }
  }

  // ---------- flood fill ----------

  /** The bitwise or of two colour codes. */
  function OrColor(a: Color, b: Color): Color {
    if a == Empty then b else if b == Empty || a == b then a else Wall
  }

  ghost predicate HasNeighbour(g: Graph, b: Board, D: set<int>, c: Color) {
    exists p, q :: p in D && Adj(g, p, q) && 0 <= q < |b| && b[q] == c
  }

  /** One of the first `j` points of `ns` has colour `c`. */
  ghost predicate Seen(b: Board, ns: seq<int>, j: nat, c: Color)
    requires j <= |ns|
  {
    exists k :: 0 <= k < j && 0 <= ns[k] < |b| && b[ns[k]] == c
  }

  lemma NeighboursDone(g: Graph, b: Board, D: set<int>, p: int, c: Color)
    requires ValidGraph(g) && |b| == |g| && 0 <= p < |g|
    ensures HasNeighbour(g, b, D + {p}, c) <==> HasNeighbour(g, b, D, c) || Seen(b, g[p], |g[p]|, c)
  {
    if HasNeighbour(g, b, D, c) {
      var x, q :| x in D && Adj(g, x, q) && 0 <= q < |b| && b[q] == c;
      assert x in D + {p};
    }
    if Seen(b, g[p], |g[p]|, c) {
      var k :| 0 <= k < |g[p]| && 0 <= g[p][k] < |b| && b[g[p][k]] == c;
      assert Adj(g, p, g[p][k]) && p in D + {p};
    }
    if HasNeighbour(g, b, D + {p}, c) && !HasNeighbour(g, b, D, c) {
      var x, q :| x in D + {p} && Adj(g, x, q) && 0 <= q < |b| && b[q] == c;
      assert x == p;
      var k :| 0 <= k < |g[p]| && g[p][k] == q;
      assert Seen(b, g[p], |g[p]|, c);
    }
  }

  ghost function SetOf(vis: seq<bool>): set<int> {
    set p | 0 <= p < |vis| && vis[p]
  }

  /** The colour code that stands for "black was seen" and "white was seen". */
  ghost predicate Flags(colors: Color, black: bool, white: bool) {
    colors == if black && white then Wall else if black then Black else if white then White else Empty
  }

  /** The fill in progress: the points `V` were reached, those of `stack` wait, those of `D` are
      finished. */
  ghost predicate Filling(g: Graph, b: Board, xy: int, V: set<int>, stack: seq<int>, D: set<int>) {
    && xy in V && V <= GroupOf(g, b, xy)
    && (forall p :: p in V <==> p in D || p in stack)
    && (forall p, q :: p in D && Adj(g, p, q) && 0 <= q < |b| && b[q] == Empty ==> q in V)
  }

  /** When nothing waits, the whole region has been reached. */
  lemma FillComplete(g: Graph, b: Board, xy: int, V: set<int>, D: set<int>)
    requires ValidGraph(g) && |b| == |g| && 0 <= xy < |b| && b[xy] == Empty
    requires Filling(g, b, xy, V, [], D)
    ensures V == D == GroupOf(g, b, xy)
  {
    ChainIsGroup(g, b, xy);
    var R := GroupOf(g, b, xy);
    assert V == D;
    assert forall p, q :: p in V && q in R && Adj(g, p, q) ==> q in V;
    assert V <= R && Connected(g, R);
  }

  /** The neighbours of a region are its own points and the stones that border it. */
  lemma BorderSeen(g: Graph, b: Board, xy: int, c: Color)
    requires ValidGraph(g) && |b| == |g|
    ensures HasNeighbour(g, b, GroupOf(g, b, xy), c) <==> Borders(g, b, GroupOf(g, b, xy), c)
  {
    var R := GroupOf(g, b, xy);
    if HasNeighbour(g, b, R, c) {
      var p, q :| p in R && Adj(g, p, q) && 0 <= q < |b| && b[q] == c;
      assert Touches(g, R, q);
    }
    if Borders(g, b, R, c) {
      var q :| 0 <= q < |b| && b[q] == c && Touches(g, R, q);
      var p :| p in R && Adj(g, p, q);
    }
  }

  lemma ReachNext(g: Graph, b: Board, xy: int, p: int, q: int)
    requires ValidGraph(g) && |b| == |g| && 0 <= xy < |b| && b[xy] == Empty
    requires p in GroupOf(g, b, xy) && Adj(g, p, q) && b[q] == Empty
    ensures q in GroupOf(g, b, xy)
  {
    ExtendWalk(g, b, xy, p, q);
  }

  /** The state of the loop over the neighbours `ns` of the point `n` just taken from the stack. */
  ghost predicate Scanning(g: Graph, b: Board, xy: int, V: set<int>, stack: seq<int>, D: set<int>, n: int, j: nat, colors: Color)
    requires 0 <= n < |g| && j <= |g[n]|
  {
    && xy in V && V <= GroupOf(g, b, xy) && n in V
    && (forall p :: p in V <==> p in D || p == n || p in stack)
    && (forall p, q :: p in D && Adj(g, p, q) && 0 <= q < |b| && b[q] == Empty ==> q in V)
    && (forall k :: 0 <= k < j && 0 <= g[n][k] < |b| && b[g[n][k]] == Empty ==> g[n][k] in V)
    && Flags(colors, HasNeighbour(g, b, D, Black) || Seen(b, g[n], j, Black),
                     HasNeighbour(g, b, D, White) || Seen(b, g[n], j, White))
  }

  lemma ScanStep(g: Graph, b: Board, xy: int, V: set<int>, stack: seq<int>, D: set<int>, n: int, j: nat, colors: Color)
    requires ValidGraph(g) && ValidBoard(g, b) && 0 <= xy < |b| && b[xy] == Empty
    requires 0 <= n < |g| && j < |g[n]| && Scanning(g, b, xy, V, stack, D, n, j, colors)
    ensures 0 <= g[n][j] < |b|
    ensures b[g[n][j]] == Empty && g[n][j] !in V ==>
              Scanning(g, b, xy, V + {g[n][j]}, stack + [g[n][j]], D, n, j + 1, OrColor(colors, Empty))
    ensures b[g[n][j]] == Empty && g[n][j] in V ==> Scanning(g, b, xy, V, stack, D, n, j + 1, colors)
    ensures b[g[n][j]] != Empty ==> Scanning(g, b, xy, V, stack, D, n, j + 1, OrColor(colors, b[g[n][j]]))
  {
    hide GroupOf, HasNeighbour;
    var q := g[n][j];
    assert q in g[n];
    assert Adj(g, n, q);
    SeenStep(b, g[n], j, Black);
    SeenStep(b, g[n], j, White);
    if b[q] == Empty {
      ReachNext(g, b, xy, n, q);
    }
  }

  lemma SeenStep(b: Board, ns: seq<int>, j: nat, c: Color)
    requires j < |ns|
    ensures Seen(b, ns, j + 1, c) <==> Seen(b, ns, j, c) || (0 <= ns[j] < |b| && b[ns[j]] == c)
  {}

  lemma ScanStart(g: Graph, b: Board, xy: int, V: set<int>, stack: seq<int>, D: set<int>, colors: Color)
    requires |stack| > 0 && 0 <= stack[|stack| - 1] < |g| && Filling(g, b, xy, V, stack, D)
    requires Flags(colors, HasNeighbour(g, b, D, Black), HasNeighbour(g, b, D, White))
    ensures Scanning(g, b, xy, V, stack[..|stack| - 1], D, stack[|stack| - 1], 0, colors)
  {
    assert stack == stack[..|stack| - 1] + [stack[|stack| - 1]];
  }

  lemma ScanEnd(g: Graph, b: Board, xy: int, V: set<int>, stack: seq<int>, D: set<int>, n: int, colors: Color)
    requires ValidGraph(g) && |b| == |g| && 0 <= n < |g| && Scanning(g, b, xy, V, stack, D, n, |g[n]|, colors)
    ensures Filling(g, b, xy, V, stack, D + {n})
    ensures Flags(colors, HasNeighbour(g, b, D + {n}, Black), HasNeighbour(g, b, D + {n}, White))
  {
    hide GroupOf, HasNeighbour, Seen;
    NeighboursDone(g, b, D, n, Black);
    NeighboursDone(g, b, D, n, White);
    forall p, q | p in D + {n} && Adj(g, p, q) && 0 <= q < |b| && b[q] == Empty ensures q in V {
      if p !in D {
        var k :| 0 <= k < |g[n]| && g[n][k] == q;
      }
    }
  }

  lemma FillStart(g: Graph, b: Board, xy: int)
    requires |b| == |g| && 0 <= xy < |b|
    ensures Filling(g, b, xy, {xy}, [xy], {})
    ensures Flags(Empty, HasNeighbour(g, b, {}, Black), HasNeighbour(g, b, {}, White))
  {
    SelfChain(g, b, xy);
  }

  /** Visits the empty region of `xy` with an explicit stack; its size counts for `color` when
      that is the only colour next to it. */
  method CalcRegionScore(g: Graph, board: array<Color>, xy: int, color: Color, vis: array<bool>) returns (r: int)
    requires ValidGraph(g) && ValidBoard(g, board[..]) && vis.Length == |g| && IsPlayer(color)
    requires 0 <= xy < |g| && board[xy] == Empty
    requires forall p :: p in SetOf(vis[..]) ==> board[..][p] == Empty
    requires SetOf(vis[..]) !! GroupOf(g, board[..], xy)
    modifies vis
    ensures SetOf(vis[..]) == old(SetOf(vis[..])) + GroupOf(g, board[..], xy)
    ensures r == if Surrounded(g, board[..], GroupOf(g, board[..], xy), color) then |GroupOf(g, board[..], xy)| else 0
  {
    hide GroupOf, HasNeighbour, Seen, Scanning, Filling;
    ghost var b, old0, R, V, D := board[..], SetOf(vis[..]), GroupOf(g, board[..], xy), {xy}, {};
    var stack, cnt, colorSet := [xy], 0, Empty;
    FillStart(g, b, xy);
    FillIn(g, b, xy, V, stack, D);
    vis[xy] := true;
    cnt := cnt + 1;
    while stack != []
      invariant Filling(g, b, xy, V, stack, D) && SetOf(vis[..]) == old0 + V
      invariant Flags(colorSet, HasNeighbour(g, b, D, Black), HasNeighbour(g, b, D, White))
      invariant cnt == |V| && V <= R
      decreases |R| - |V|, |stack|
    {
      FillIn(g, b, xy, V, stack, D);
      var nxy := stack[|stack| - 1];
      assert nxy in stack;
      ScanStart(g, b, xy, V, stack, D, colorSet);
      stack := stack[..|stack| - 1];
      ghost var V0 := V;
      stack, cnt, colorSet, V := VisitAround(g, board, vis, xy, nxy, stack, cnt, colorSet, V, D, old0);
      ScanEnd(g, b, xy, V, stack, D, nxy, colorSet);
      D := D + {nxy};
      FillIn(g, b, xy, V, stack, D);
      SubsetCount(V0, V);
      SubsetCount(V, R);
    }
    FillComplete(g, b, xy, V, D);
    BorderSeen(g, b, xy, Black);
    BorderSeen(g, b, xy, White);
    r := if color != colorSet then 0 else cnt;
  }

  /** Looks at the neighbours of `nxy`: empty ones not yet visited are pushed. */
  method VisitAround(g: Graph, board: array<Color>, vis: array<bool>, xy: int, nxy: int, stack0: seq<int>, cnt0: int, color0: Color,
                     ghost V0: set<int>, ghost D: set<int>, ghost old0: set<int>)
    returns (stack: seq<int>, cnt: int, colorSet: Color, ghost V: set<int>)
    requires ValidGraph(g) && ValidBoard(g, board[..]) && vis.Length == |g|
    requires 0 <= xy < |g| && board[xy] == Empty && 0 <= nxy < |g|
    requires forall p :: p in old0 ==> 0 <= p < |g| && board[..][p] == Empty
    requires old0 !! GroupOf(g, board[..], xy)
    requires Scanning(g, board[..], xy, V0, stack0, D, nxy, 0, color0) && SetOf(vis[..]) == old0 + V0
    requires cnt0 == |V0|
    modifies vis
    ensures Scanning(g, board[..], xy, V, stack, D, nxy, |g[nxy]|, colorSet) && SetOf(vis[..]) == old0 + V
    ensures cnt == |V| && V0 <= V && (|V| == |V0| ==> stack == stack0)
  {
    hide GroupOf, Scanning, ValidGraph;
    ghost var b := board[..];
    stack, cnt, colorSet, V := stack0, cnt0, color0, V0;
    for j := 0 to |g[nxy]|
      invariant Scanning(g, b, xy, V, stack, D, nxy, j, colorSet) && SetOf(vis[..]) == old0 + V
      invariant cnt == |V| && V0 <= V && |V0| <= |V| && (|V| == |V0| ==> stack == stack0)
    {
      var np := g[nxy][j];
      ScanStep(g, b, xy, V, stack, D, nxy, j, colorSet);
      NeverOld(g, b, xy, V, stack, D, nxy, j, colorSet, np, old0);
      FillPoints(g, b, xy, V, stack, D, nxy, j, colorSet);
      assert vis[np] <==> np in SetOf(vis[..]);
      if !vis[np] {
        colorSet := OrColor(colorSet, board[np]);
        if Empty == board[np] {
          SetOfMark(vis[..], np);
          ghost var marked := vis[..][np := true];
          vis[np] := true;
          assert vis[..] == marked;
          stack := stack + [np];
          V := V + {np};
          cnt := cnt + 1;
        }
      }
    }
  }

  lemma SetOfMark(v: seq<bool>, p: int)
    requires 0 <= p < |v|
    ensures SetOf(v[p := true]) == SetOf(v) + {p}
  {}

  lemma FillIn(g: Graph, b: Board, xy: int, V: set<int>, stack: seq<int>, D: set<int>)
    requires |b| == |g| && Filling(g, b, xy, V, stack, D)
    ensures V <= GroupOf(g, b, xy)
    ensures forall p :: p in stack ==> 0 <= p < |g| && p in V
  {}

  lemma FillPoints(g: Graph, b: Board, xy: int, V: set<int>, stack: seq<int>, D: set<int>, n: int, j: nat, colors: Color)
    requires |b| == |g| && 0 <= xy < |b| && b[xy] == Empty && 0 <= n < |g| && j <= |g[n]|
    requires Scanning(g, b, xy, V, stack, D, n, j, colors)
    ensures forall p :: p in V ==> 0 <= p < |b| && b[p] == Empty
  {
    forall p | p in V ensures b[p] == Empty {
      var w :| IsWalk(g, b, w, xy, p);
    }
  }

  /** A neighbour inside the region was not visited by an earlier fill. */
  lemma NeverOld(g: Graph, b: Board, xy: int, V: set<int>, stack: seq<int>, D: set<int>, n: int, j: nat, colors: Color,
                 np: int, old0: set<int>)
    requires ValidGraph(g) && ValidBoard(g, b) && 0 <= xy < |b| && b[xy] == Empty && old0 !! GroupOf(g, b, xy)
    requires 0 <= n < |g| && j < |g[n]| && np == g[n][j] && Scanning(g, b, xy, V, stack, D, n, j, colors)
    ensures 0 <= np < |b| && (b[np] == Empty ==> np in GroupOf(g, b, xy) && np !in old0)
  {
    assert np in g[n];
    assert Adj(g, n, np);
    if b[np] == Empty {
      ReachNext(g, b, xy, n, np);
    }
  }

  // ---------- the whole board ----------

  /** The points below `i` are counted in `cnt`; the regions in `vis` were filled from one of them. */
  ghost predicate Counting(g: Graph, b: Board, color: Color, i: nat, vis: set<int>, cnt: int) {
    && (forall p :: p in vis ==> 0 <= p < |b| && b[p] == Empty)
    && (forall p, q :: p in vis && q in GroupOf(g, b, p) ==> q in vis)
    && (forall p :: 0 <= p < i && p < |b| && b[p] == Empty ==> p in vis)
    && cnt == |CountedArea(g, b, color, i, vis)|
  }

  /** The part of the area counted so far. */
  ghost function CountedArea(g: Graph, b: Board, color: Color, i: nat, vis: set<int>): set<int> {
    set p | 0 <= p < |b| && InArea(g, b, color, p) && (p in vis || (p < i && b[p] != Empty))
  }

  lemma CountStone(g: Graph, b: Board, color: Color, i: nat, vis: set<int>, cnt: int)
    requires IsPlayer(color) && i < |b| && b[i] != Empty && Counting(g, b, color, i, vis, cnt)
    ensures Counting(g, b, color, i + 1, vis, if b[i] == color then cnt + 1 else cnt)
  {
    hide GroupOf, Surrounded;
    var old0, new1 := CountedArea(g, b, color, i, vis), CountedArea(g, b, color, i + 1, vis);
    assert new1 == if b[i] == color then old0 + {i} else old0;
  }

  lemma CountVisited(g: Graph, b: Board, color: Color, i: nat, vis: set<int>, cnt: int)
    requires i < |b| && i in vis && Counting(g, b, color, i, vis, cnt)
    ensures Counting(g, b, color, i + 1, vis, cnt)
  {
    hide GroupOf, Surrounded;
    assert CountedArea(g, b, color, i, vis) == CountedArea(g, b, color, i + 1, vis);
  }

  /** A region meets the visited set only when it is inside it. */
  lemma RegionApart(g: Graph, b: Board, color: Color, i: nat, vis: set<int>, cnt: int)
    requires ValidGraph(g) && |b| == |g| && i < |b| && i !in vis && Counting(g, b, color, i, vis, cnt)
    ensures vis !! GroupOf(g, b, i)
  {
    forall p | p in vis && p in GroupOf(g, b, i) ensures false {
      RegionOf(g, b, i, p);
      SelfChain(g, b, i);
    }
  }

  lemma RegionOf(g: Graph, b: Board, i: int, p: int)
    requires ValidGraph(g) && |b| == |g| && 0 <= i < |b| && p in GroupOf(g, b, i)
    ensures GroupOf(g, b, p) == GroupOf(g, b, i)
  {
    ChainIsGroup(g, b, i);
    GroupIsChain(g, b, GroupOf(g, b, i), b[i], p);
  }

  lemma CountRegion(g: Graph, b: Board, color: Color, i: nat, vis: set<int>, cnt: int)
    requires ValidGraph(g) && ValidBoard(g, b) && IsPlayer(color) && i < |b| && b[i] == Empty && i !in vis
    requires Counting(g, b, color, i, vis, cnt)
    ensures var R := GroupOf(g, b, i);
            Counting(g, b, color, i + 1, vis + R, cnt + if Surrounded(g, b, R, color) then |R| else 0)
  {
    hide GroupOf, Surrounded;
    var R := GroupOf(g, b, i);
    RegionApart(g, b, color, i, vis, cnt);
    ChainIsGroup(g, b, i);
    RegionPoints(g, b, i);
    forall p | p in R ensures GroupOf(g, b, p) == R {
      RegionOf(g, b, i, p);
    }
    var before := CountedArea(g, b, color, i, vis);
    RegionCounted(g, b, color, i, vis, R);
    RegionUncounted(g, b, color, i, vis, R);
    hide CountedArea;
    assert |before + R| == |before| + |R|;
  }

  lemma RegionCounted(g: Graph, b: Board, color: Color, i: nat, vis: set<int>, R: set<int>)
    requires IsPlayer(color) && i < |b| && i in R
    requires forall p :: p in R ==> 0 <= p < |b| && b[p] == Empty && GroupOf(g, b, p) == R
    ensures CountedArea(g, b, color, i + 1, vis + R) ==
              CountedArea(g, b, color, i, vis) + if Surrounded(g, b, R, color) then R else {}
  {
    hide GroupOf, Surrounded;
  }

  lemma RegionUncounted(g: Graph, b: Board, color: Color, i: nat, vis: set<int>, R: set<int>)
    requires vis !! R && forall p :: p in R ==> 0 <= p < |b| && b[p] == Empty
    ensures CountedArea(g, b, color, i, vis) !! R
  {}

  lemma RegionPoints(g: Graph, b: Board, i: int)
    requires |b| == |g| && 0 <= i < |b|
    ensures forall p :: p in GroupOf(g, b, i) ==> 0 <= p < |b| && b[p] == b[i]
  {
    forall p | p in GroupOf(g, b, i) ensures b[p] == b[i] {
      var w :| IsWalk(g, b, w, i, p);
    }
  }

  lemma CountedAll(g: Graph, b: Board, color: Color, vis: set<int>, cnt: int)
    requires IsPlayer(color) && Counting(g, b, color, |b|, vis, cnt)
    ensures cnt == |Area(g, b, color)|
  {
    assert CountedArea(g, b, color, |b|, vis) == Area(g, b, color);
  }

  method CalcScoreWithColor(g: Graph, board: array<Color>, color: Color) returns (cnt: int)
    requires ValidGraph(g) && ValidBoard(g, board[..]) && IsPlayer(color)
    ensures cnt == |Area(g, board[..], color)|
  {
    hide Counting, GroupOf, Surrounded, Area;
    ghost var b := board[..];
    var vis := new bool[|g|](_ => false);
    cnt := 0;
    CountStart(g, b, color);
    assert SetOf(vis[..]) == {};
    for i := 0 to |g|
      invariant Counting(g, b, color, i, SetOf(vis[..]), cnt)
    {
      ghost var V := SetOf(vis[..]);
      CountingIn(g, b, color, i, V, cnt);
      if vis[i] {
        CountVisited(g, b, color, i, V, cnt);
      } else if color == board[i] {
        CountStone(g, b, color, i, V, cnt);
        cnt := cnt + 1;
      } else if Empty == board[i] {
        RegionApart(g, b, color, i, V, cnt);
        CountRegion(g, b, color, i, V, cnt);
        var r := CalcRegionScore(g, board, i, color, vis);
        cnt := cnt + r;
      } else {
        CountStone(g, b, color, i, V, cnt);
      }
    }
    CountedAll(g, b, color, SetOf(vis[..]), cnt);
  }

  lemma CountStart(g: Graph, b: Board, color: Color)
    ensures Counting(g, b, color, 0, {}, 0)
  {
    assert CountedArea(g, b, color, 0, {}) == {};
  }

  lemma CountingIn(g: Graph, b: Board, color: Color, i: nat, vis: set<int>, cnt: int)
    requires Counting(g, b, color, i, vis, cnt)
    ensures forall p :: p in vis ==> 0 <= p < |b| && b[p] == Empty
  {}

  method CalcScore(g: Graph, board: array<Color>) returns (black: int, white: int, empty: int, score: int)
    requires ValidGraph(g) && ValidBoard(g, board[..])
    ensures black == |Area(g, board[..], Black)| && white == |Area(g, board[..], White)|
    ensures empty == |Upto(|g|) - Area(g, board[..], Black) - Area(g, board[..], White)|
    ensures score == black - white && black + white + empty == |g|
  {
    hide Area;
    black := CalcScoreWithColor(g, board, Black);
    white := CalcScoreWithColor(g, board, White);
    empty := |g| - black - white;
    NeutralPoints(g, board[..]);
    score := black - white;
  }

  /** Each point belongs to black, to white or to neither. */
  lemma NeutralPoints(g: Graph, b: Board)
    requires |b| == |g|
    ensures |Area(g, b, Black)| + |Area(g, b, White)| + |Upto(|g|) - Area(g, b, Black) - Area(g, b, White)| == |g|
  {
    AreasAreDisjoint(g, b);
    UptoMembers(|g|);
    var B, W, N := Area(g, b, Black), Area(g, b, White), Upto(|g|) - Area(g, b, Black) - Area(g, b, White);
    assert Upto(|g|) == B + W + N;
    assert |B + W + N| == |B + W| + |N|;
  }

  /** Komi is seven and a half points: black needs a lead of eight. */
  ghost function Winner(g: Graph, b: Board): Color {
    if |Area(g, b, Black)| >= |Area(g, b, White)| + 8 then Black else White
  }

  /** Komi is seven and a half points, so black wins with a lead of eight and draws do not exist. */
  method GetWinner(g: Graph, board: array<Color>) returns (winner: Color, score: int)
    requires ValidGraph(g) && ValidBoard(g, board[..])
    ensures score == |Area(g, board[..], Black)| - |Area(g, board[..], White)|
    ensures winner == Winner(g, board[..])
    ensures winner == Black <==> |Area(g, board[..], Black)| >= |Area(g, board[..], White)| + 8
    ensures winner == White <==> |Area(g, board[..], Black)| <= |Area(g, board[..], White)| + 7
  {
    var black, white, empty;
    black, white, empty, score := CalcScore(g, board);
    winner := if score as real > 7.5 then Black else White;
  }
}
