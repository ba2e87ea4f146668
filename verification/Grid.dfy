/** The square board: coordinates, point ids and the neighbour tables. */
module Grid {
  import opened GoRules
  import opened GoGame

  const DELTA_X: seq<int> := [0, 1, 0, -1]
  const DELTA_Y: seq<int> := [-1, 0, 1, 0]

  // ---------- coordinates ----------

  predicate InBoard(n: nat, id: int) { 0 <= id < n * n }

  predicate OnGrid(n: nat, x: int, y: int) { 0 <= x < n && 0 <= y < n }

  function IdToCoord(n: nat, id: int): (int, int) {
    if id == COORD_PASS then (COORD_PASS, COORD_PASS)
    else if id == COORD_RESIGN then (COORD_RESIGN, COORD_RESIGN)
    else if !InBoard(n, id) then (COORD_UNSET, COORD_UNSET)
    else assert n != 0; (id / n, id % n)
  }

  function CoordToId(n: nat, x: int, y: int): int {
    if x == COORD_PASS && y == COORD_PASS then COORD_PASS
    else if x == COORD_RESIGN && y == COORD_RESIGN then COORD_RESIGN
    else if !OnGrid(n, x, y) then COORD_UNSET
    else x * n + y
  }

  lemma RowBound(n: nat, x: int, y: int)
    requires OnGrid(n, x, y)
    ensures 0 <= x * n + y < n * n
    ensures (x * n + y) / n == x && (x * n + y) % n == y
  {
    assert x * n <= (n - 1) * n && 0 <= x * n;
    DivideRow(n, x, y);
  }

  lemma {:induction false} ProductOrder(n: nat, a: int, b: int)
    requires a < b
    ensures a * n + n <= b * n
    decreases b - a
  {
    if a + 1 < b { ProductOrder(n, a, b - 1); }
    assert (b - 1) * n + n == b * n;
  }

  lemma SameRow(n: nat, a: int, r: int, x: int, y: int)
    requires a * n + r == x * n + y && 0 <= r < n && 0 <= y < n
    ensures a == x && r == y
  {
    if a < x { ProductOrder(n, a, x); }
    if x < a { ProductOrder(n, x, a); }
  }

  lemma DivideRow(n: nat, x: nat, y: nat)
    requires y < n
    ensures (x * n + y) / n == x && (x * n + y) % n == y
  {
    var id := x * n + y;
    SameRow(n, id / n, id % n, x, y);
  }

  lemma IdOnGrid(n: nat, id: int)
    requires InBoard(n, id)
    ensures n > 0 && OnGrid(n, id / n, id % n) && (id / n) * n + id % n == id
  {
    assert id == n * (id / n) + id % n;
    if id / n > n { ProductOrder(n, n, id / n); }
  }

  /** Ids and coordinates name the same points; anything off the board becomes the unset id. */
  lemma CoordRoundTrip(n: nat, id: int)
    ensures var (x, y) := IdToCoord(n, id);
            CoordToId(n, x, y) ==
              if InBoard(n, id) || id == COORD_PASS || id == COORD_RESIGN then id else COORD_UNSET
    ensures InBoard(n, id) <==> OnGrid(n, IdToCoord(n, id).0, IdToCoord(n, id).1)
  {
    if InBoard(n, id) { IdOnGrid(n, id); }
  }

  lemma IdRoundTrip(n: nat, x: int, y: int)
    ensures IdToCoord(n, CoordToId(n, x, y)) ==
              if OnGrid(n, x, y) || (x == y && x in {COORD_PASS, COORD_RESIGN}) then (x, y)
              else (COORD_UNSET, COORD_UNSET)
  {
    if OnGrid(n, x, y) { RowBound(n, x, y); }
  }

  // ---------- the neighbour graph ----------

  /** The board neighbours of (x, y) among the first `k` directions. */
  function NeighbourCoords(n: nat, x: int, y: int, k: nat): seq<(int, int)>
    requires k <= 4
  {
    if k == 0 then []
    else
      var nx, ny := x + DELTA_X[k - 1], y + DELTA_Y[k - 1];
      NeighbourCoords(n, x, y, k - 1) + if OnGrid(n, nx, ny) then [(nx, ny)] else []
  }

  function NeighbourIds(n: nat, id: int): seq<int>
    requires n > 0
  {
    var cs := NeighbourCoords(n, id / n, id % n, 4);
    seq(|cs|, i requires 0 <= i < |cs| => CoordToId(n, cs[i].0, cs[i].1))
  }

  function GridGraph(n: nat): Graph
    requires n > 0
  {
    seq(n * n, id => NeighbourIds(n, id))
  }

  function Distance(a: int, b: int): nat { if a < b then b - a else a - b }

  /** Two points of the grid are one step apart, across or down. */
  ghost predicate Beside(n: nat, p: int, q: int)
    requires n > 0
  {
    InBoard(n, p) && InBoard(n, q) && Distance(p / n, q / n) + Distance(p % n, q % n) == 1
  }

  lemma {:induction false} CoordsBeside(n: nat, x: int, y: int, c: (int, int))
    requires OnGrid(n, x, y)
    ensures c in NeighbourCoords(n, x, y, 4) <==> OnGrid(n, c.0, c.1) && Distance(x, c.0) + Distance(y, c.1) == 1
    ensures |NeighbourCoords(n, x, y, 4)| <= 4
    ensures n >= 2 ==> NeighbourCoords(n, x, y, 4) != []
    ensures forall d :: d in NeighbourCoords(n, x, y, 4) ==> OnGrid(n, d.0, d.1)
  {
    var c0, c1, c2, c3, c4 := NeighbourCoords(n, x, y, 0), NeighbourCoords(n, x, y, 1), NeighbourCoords(n, x, y, 2),
      NeighbourCoords(n, x, y, 3), NeighbourCoords(n, x, y, 4);
    assert c1 == c0 + if OnGrid(n, x, y - 1) then [(x, y - 1)] else [];
    assert c2 == c1 + if OnGrid(n, x + 1, y) then [(x + 1, y)] else [];
    assert c3 == c2 + if OnGrid(n, x, y + 1) then [(x, y + 1)] else [];
    assert c4 == c3 + if OnGrid(n, x - 1, y) then [(x - 1, y)] else [];
  }

  /** Neighbours in the graph are exactly the points one step away. */
  lemma GridAdjacency(n: nat, p: int, q: int)
    requires n > 0
    ensures Adj(GridGraph(n), p, q) <==> Beside(n, p, q)
  {
    hide NeighbourCoords;
    var g := GridGraph(n);
    if InBoard(n, p) {
      IdOnGrid(n, p);
      var x, y := p / n, p % n;
      var cs := NeighbourCoords(n, x, y, 4);
      CoordsBeside(n, x, y, (q / n, q % n));
      assert g[p] == NeighbourIds(n, p);
      if q in g[p] {
        var k :| 0 <= k < |cs| && g[p][k] == q;
        assert cs[k] in cs;
        RowBound(n, cs[k].0, cs[k].1);
        assert (q / n, q % n) == cs[k];
      }
      if Beside(n, p, q) {
        IdOnGrid(n, q);
        var k :| 0 <= k < |cs| && cs[k] == (q / n, q % n);
        assert g[p][k] == q;
      }
    }
  }

  /** The grid is a board graph for every border size from two up, so all that is proved about
      board graphs holds on the 19 by 19 board. */
  lemma GridIsValid(n: nat)
    requires n >= 2
    ensures ValidGraph(GridGraph(n)) && |GridGraph(n)| == n * n
  {
    var g := GridGraph(n);
    hide GridGraph, NeighbourIds, Beside;
    assert |g| == n * n && forall p :: 0 <= p < |g| ==> g[p] == NeighbourIds(n, p) by { GridRows(n); }
    forall p, q ensures Adj(g, p, q) <==> Beside(n, p, q) { GridAdjacency(n, p, q); }
    forall p | 0 <= p < |g| ensures g[p] != [] && forall q :: q in g[p] ==> 0 <= q < |g| {
      RowsInBoard(n, p);
    }
    BesideSymmetric(n);
  }

  lemma GridRows(n: nat)
    requires n > 0
    ensures |GridGraph(n)| == n * n && forall p :: 0 <= p < n * n ==> GridGraph(n)[p] == NeighbourIds(n, p)
  {}

  lemma BesideSymmetric(n: nat)
    requires n > 0
    ensures forall p, q :: Beside(n, p, q) ==> Beside(n, q, p)
    ensures forall p :: !Beside(n, p, p)
  {}

  lemma RowsInBoard(n: nat, p: int)
    requires n > 0 && InBoard(n, p)
    ensures n >= 2 ==> NeighbourIds(n, p) != []
    ensures forall q :: q in NeighbourIds(n, p) ==> InBoard(n, q)
  {
    hide NeighbourCoords;
    IdOnGrid(n, p);
    CoordsBeside(n, p / n, p % n, (0, 0));
    var cs := NeighbourCoords(n, p / n, p % n, 4);
    forall k | 0 <= k < |cs| ensures InBoard(n, NeighbourIds(n, p)[k]) {
      assert cs[k] in cs;
      RowBound(n, cs[k].0, cs[k].1);
    }
  }

  // ---------- the tables ----------

  /** Row `id` of the table lists the neighbours, and an unset id ends it. */
  ghost predicate RowDone(n: nat, byId: array2<int>, size: array<int>, id: int)
    requires n > 0 && byId.Length0 == n * n && byId.Length1 == 5 && size.Length == n * n && InBoard(n, id)
    reads byId, size
  {
    var ids := NeighbourIds(n, id);
    && size[id] == |ids| <= 4
    && (forall i :: 0 <= i < |ids| ==> byId[id, i] == ids[i] != COORD_UNSET)
    && byId[id, |ids|] == COORD_UNSET
  }

  method CreateNeighbourCache(n: nat) returns (byCoord: array2<seq<(int, int)>>, byId: array2<int>, size: array<int>)
    requires n > 0
    ensures byId.Length0 == n * n && byId.Length1 == 5 && size.Length == n * n
    ensures forall id :: InBoard(n, id) ==> RowDone(n, byId, size, id)
  {
    hide NeighbourCoords, NeighbourIds;
    byCoord, byId, size := new seq<(int, int)>[n, n]((_, _) => []), new int[n * n, 5], new int[n * n];
    for x := 0 to n
      invariant forall id :: InBoard(n, id) && id < x * n ==> RowDone(n, byId, size, id)
    {
      for y := 0 to n
        invariant forall id :: InBoard(n, id) && id < x * n + y ==> RowDone(n, byId, size, id)
      {
        FillRow(n, x, y, byCoord, byId, size);
      }
      assert (x + 1) * n == x * n + n;
    }
  }

  method FillRow(n: nat, x: nat, y: nat, byCoord: array2<seq<(int, int)>>, byId: array2<int>, size: array<int>)
    requires OnGrid(n, x, y) && byCoord.Length0 == byCoord.Length1 == n
    requires byId.Length0 == n * n && byId.Length1 == 5 && size.Length == n * n
    modifies byCoord, byId, size
    ensures InBoard(n, x * n + y) && RowDone(n, byId, size, x * n + y)
    ensures forall id :: InBoard(n, id) && id != x * n + y ==>
              size[id] == old(size[id]) && forall i :: 0 <= i < 5 ==> byId[id, i] == old(byId[id, i])
  {
    hide NeighbourCoords;
    var id := CoordToId(n, x, y);
    RowBound(n, x, y);
    for i := 0 to 5
      invariant forall k :: 0 <= k < i ==> byId[id, k] == COORD_UNSET
      invariant forall p, k :: InBoard(n, p) && p != id && 0 <= k < 5 ==> byId[p, k] == old(byId[p, k])
      modifies byId
    {
      byId[id, i] := COORD_UNSET;
    }
    CollectNeighbours(n, x, y, byCoord);
    ghost var cs := NeighbourCoords(n, x, y, 4);
    CoordsBeside(n, x, y, (0, 0));
    RowsInBoard(n, id);
    size[id] := |byCoord[x, y]|;
    for i := 0 to |byCoord[x, y]|
      invariant forall k :: 0 <= k < i ==> byId[id, k] == NeighbourIds(n, id)[k]
      invariant forall k :: i <= k < 5 ==> byId[id, k] == COORD_UNSET
      invariant forall p, k :: InBoard(n, p) && p != id && 0 <= k < 5 ==> byId[p, k] == old(byId[p, k])
      modifies byId
    {
      byId[id, i] := CoordToId(n, byCoord[x, y][i].0, byCoord[x, y][i].1);
    }
  }

  method CollectNeighbours(n: nat, x: nat, y: nat, byCoord: array2<seq<(int, int)>>)
    requires OnGrid(n, x, y) && byCoord.Length0 == byCoord.Length1 == n
    modifies byCoord
    ensures byCoord[x, y] == NeighbourCoords(n, x, y, 4)
  {
    byCoord[x, y] := [];
    for i := 0 to 4
      invariant byCoord[x, y] == NeighbourCoords(n, x, y, i)
    {
      var nx, ny := x + DELTA_X[i], y + DELTA_Y[i];
      if OnGrid(n, nx, ny) {
        byCoord[x, y] := byCoord[x, y] + [(nx, ny)];
      }
    }
  }

  /** FOR_NEI: reading a row up to the unset id visits the neighbours in order. */
  method ForNeighbours(n: nat, byId: array2<int>, size: array<int>, id: int) returns (ids: seq<int>)
    requires n > 0 && byId.Length0 == n * n && byId.Length1 == 5 && size.Length == n * n
    requires InBoard(n, id) && RowDone(n, byId, size, id)
    ensures ids == GridGraph(n)[id]
  {
    hide NeighbourIds;
    var nb := 0;
    ids := [];
    ghost var row := NeighbourIds(n, id);
    while byId[id, nb] != COORD_UNSET
      invariant 0 <= nb <= |row| && ids == row[..nb]
      decreases |row| - nb
    {
      ids := ids + [byId[id, nb]];
      nb := nb + 1;
    }
    GridRows(n);
  }
}
