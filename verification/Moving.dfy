/** The state of the records between the steps of a move. */
module Moving {
  import opened GoRules
  import opened Placement
  import opened GoGame
  import opened Blocks
  import opened Chains
  import opened Merging

  // ---------- merging own blocks ----------

  /** After the first `i` of the neighbouring blocks `ids` were visited: own ones are spliced into
      block `blk`, all lose the liberty `to`.  `F0` and `pool0` describe the state before. */
  ghost predicate MergedLists(F0: Groups, pool0: seq<GoBlock>, F: Groups, ids: seq<int>, i: nat,
                              blk: int, c: Color, to: int)
    requires i <= |ids| && IdsIn(F0, pool0, ids)
  {
    && blk in F && |F[blk]| > 0 && Last(F[blk]) == to
    && Elems(F[blk]) == Joined(F0, pool0, ids, i, c, to)
    && (forall id :: id in F <==> id == blk || (id in F0 && !(id in ids[..i] && 0 <= id < |pool0| && pool0[id].color == c)))
    && (forall id :: id in F && id != blk ==> F[id] == F0[id])
  }

  ghost predicate MergedPool(pool0: seq<GoBlock>, F: Groups, pool: seq<GoBlock>, ids: seq<int>, i: nat,
                             blk: int, to: int)
    requires i <= |ids|
  {
    && |pool| == |pool0|
    && (forall id :: id in F && id != blk ==>
          && 0 <= id < |pool|
          && pool[id] == pool0[id].(libertyState := pool[id].libertyState)
          && pool[id].Libs() == pool0[id].Libs() - if id in ids[..i] then {to} else {})
    && blk in F && |F[blk]| > 0 && 0 <= blk < |pool|
    && pool[blk] == pool0[blk].(inUse := true, head := F[blk][0], tail := to)
  }

  lemma MergeListsNext(F0: Groups, pool0: seq<GoBlock>, F: Groups, ids: seq<int>, i: nat, blk: int, c: Color, to: int)
    requires i < |ids| && IdsIn(F0, pool0, ids) && Increasing(ids) && blk !in F0
    requires MergedLists(F0, pool0, F, ids, i, blk, c, to)
    ensures ids[i] in F && F[ids[i]] == F0[ids[i]] && ids[i] != blk && blk in F
    ensures ids[..i + 1] == ids[..i] + [ids[i]] && ids[i] !in ids[..i]
  {
    hide Elems, Joined;
    assert ids[i] !in ids[..i];
  }

  lemma MergeListsOther(F0: Groups, pool0: seq<GoBlock>, F: Groups, ids: seq<int>, i: nat, blk: int, c: Color, to: int)
    requires i < |ids| && IdsIn(F0, pool0, ids) && Increasing(ids) && blk !in F0
    requires MergedLists(F0, pool0, F, ids, i, blk, c, to) && pool0[ids[i]].color != c
    ensures MergedLists(F0, pool0, F, ids, i + 1, blk, c, to)
  {
    hide Elems, Increasing;
    MergeListsNext(F0, pool0, F, ids, i, blk, c, to);
    assert Joined(F0, pool0, ids, i, c, to) + {} == Joined(F0, pool0, ids, i, c, to);
  }

  lemma MergeListsOwn(F0: Groups, pool0: seq<GoBlock>, F: Groups, ids: seq<int>, i: nat, blk: int, c: Color, to: int)
    requires i < |ids| && IdsIn(F0, pool0, ids) && Increasing(ids) && blk !in F0
    requires MergedLists(F0, pool0, F, ids, i, blk, c, to) && pool0[ids[i]].color == c && ids[i] in F && blk in F
    ensures MergedLists(F0, pool0, (F - {ids[i]})[blk := F[ids[i]] + F[blk]], ids, i + 1, blk, c, to)
  {
    hide Elems, Increasing;
    MergeListsNext(F0, pool0, F, ids, i, blk, c, to);
    ElemsConcat(F[ids[i]], F[blk]);
  }

  lemma MergePoolStep(F0: Groups, pool0: seq<GoBlock>, F: Groups, pool: seq<GoBlock>, F': Groups, pool': seq<GoBlock>,
                      ids: seq<int>, i: nat, blk: int, to: int)
    requires i < |ids| && Increasing(ids) && blk != ids[i]
    requires MergedPool(pool0, F, pool, ids, i, blk, to) && |pool'| == |pool|
    requires blk in F' && |F'[blk]| > 0
    requires forall id :: id in F' ==> id in F
    requires forall id :: id in F' && id != blk && id != ids[i] ==> pool'[id] == pool[id]
    requires ids[i] in F' ==> ids[i] in F && 0 <= ids[i] < |pool|
    requires ids[i] in F' ==> pool'[ids[i]] == pool[ids[i]].(libertyState := pool'[ids[i]].libertyState)
    requires ids[i] in F' ==> pool'[ids[i]].Libs() == pool[ids[i]].Libs() - {to}
    requires pool'[blk] == pool[blk].(head := F'[blk][0])
    ensures MergedPool(pool0, F', pool', ids, i + 1, blk, to)
  {
    assert ids[..i + 1] == ids[..i] + [ids[i]];
    assert ids[i] !in ids[..i];
  }

  // ---------- between merging and the last capture ----------

  /** `x` is the board with the stone placed and some captured stones taken off; `dead` holds the
      blocks being taken off.  Every other block is exact on `x`; the new block `blk` already
      counts all its final liberties on `play`. */
  ghost predicate Mid(g: Graph, x: Board, play: Board, pool: seq<GoBlock>, F: Groups, blk: int, dead: set<int>, c: Color) {
    && (forall id :: id in F ==> 0 <= id < |pool| && Records(g, pool[id], F[id]))
    && (forall id :: id in F && id != blk && id !in dead ==> BlockOk(g, x, pool[id], F[id]))
    && (forall id :: id in F && id in dead ==> pool[id].color != c && ForeignStones(x, F[id], c))
    && blk in F && blk !in dead && pool[blk].color == c
    && IsGroup(g, play, Elems(F[blk]), c)
    && pool[blk].Libs() == Liberties(g, play, Elems(F[blk]))
  }

  ghost predicate ForeignStones(x: Board, ord: seq<int>, c: Color) {
    forall q :: q in ord ==> 0 <= q < |x| && x[q] != c
  }

  /** Blocks not touched by the move still have the liberties they had on the old board. */
  ghost predicate Untouched(g: Graph, b: Board, pool: seq<GoBlock>, F: Groups, visited: seq<int>, ts: int) {
    forall id :: id in F && 0 <= id < |pool| && id < |visited| && visited[id] != ts ==>
      pool[id].Libs() == Liberties(g, b, Elems(F[id]))
  }

  lemma RecordsFromTrial(g: Graph, rec: GoBlock, ord: seq<int>, c: Color, S: set<int>, libs: set<int>)
    requires TrialRecord(g, rec, c, S, libs) && |ord| > 0 && NoDup(ord) && Elems(ord) == S && IsPlayer(c)
    ensures Records(g, rec.(inUse := true, head := ord[0], tail := Last(ord)), ord)
  {
    ElemsCount(ord);
  }

  /** Merging leaves every surviving block exact on the board with the stone placed. */
  lemma MergedBlock(g: Graph, b: Board, c: Color, to: int, pool0: seq<GoBlock>, F0: Groups, F: Groups, pool: seq<GoBlock>,
                    ids: seq<int>, blk: int, id: int)
    requires MoveState(g, b, c, to, pool0, F0) && IdsIn(F0, pool0, ids) && Elems(ids) == Near(g, F0, to)
    requires MergedLists(F0, pool0, F, ids, |ids|, blk, c, to) && MergedPool(pool0, F, pool, ids, |ids|, blk, to)
    requires id in F && id != blk
    ensures 0 <= id < |pool| && BlockOk(g, b[to := c], pool[id], F[id])
    ensures id !in ids ==> pool[id].Libs() == Liberties(g, b, Elems(F[id]))
  {
    hide Connected, Maximal, Border;
    assert ids[..|ids|] == ids;
    assert BlockOk(g, b, pool0[id], F0[id]);
    assert id in ids <==> id in Near(g, F0, to) by {
      assert id in Elems(ids) <==> id in ids;
    }
    GroupBesideStone(g, b, c, to, Elems(F0[id]), pool0[id].color);
    if id !in ids {
      assert !Touches(g, Elems(F0[id]), to);
      assert to !in Liberties(g, b, Elems(F0[id]));
    }
  }

  lemma MergedCovers(g: Graph, b: Board, c: Color, to: int, pool0: seq<GoBlock>, F0: Groups, F: Groups,
                     ids: seq<int>, blk: int)
    requires MoveState(g, b, c, to, pool0, F0) && IdsIn(F0, pool0, ids)
    requires MergedLists(F0, pool0, F, ids, |ids|, blk, c, to)
    requires blk !in F0
    ensures Covered(b[to := c], F)
  {
    hide BlockOk, Liberties, GroupsAlive;
    assert ids[..|ids|] == ids;
    forall p | 0 <= p < |b| && b[to := c][p] != Empty ensures Owned(F, p) {
      JoinedMembers(F0, pool0, ids, |ids|, c, to, p);
      if p == to {
        assert p in Elems(F[blk]);
      } else {
        assert Owned(F0, p);
        var id :| id in F0 && p in F0[id];
        if id in ids && pool0[id].color == c {
          var i :| 0 <= i < |ids| && ids[i] == id;
          assert p in Elems(F0[ids[i]]);
          assert p in Elems(F[blk]);
        } else {
          assert id in F && F[id] == F0[id];
        }
      }
    }
  }

  /** The whole state after placing the stone and merging. */
  lemma MergedMid(g: Graph, b: Board, c: Color, to: int, pool0: seq<GoBlock>, F0: Groups, F: Groups, pool: seq<GoBlock>,
                  ids: seq<int>, blk: int, visited: seq<int>, ts: int)
    requires MoveState(g, b, c, to, pool0, F0) && IdsIn(F0, pool0, ids)
    requires Increasing(ids) && Elems(ids) == Near(g, F0, to)
    requires MergedLists(F0, pool0, F, ids, |ids|, blk, c, to) && MergedPool(pool0, F, pool, ids, |ids|, blk, to)
    requires blk !in F0 && NoDup(F[blk]) && |visited| == |pool|
    requires TrialRecord(g, pool0[blk], c, GroupOf(g, b[to := c], to),
                         Liberties(g, Play(g, b, c, to), GroupOf(g, b[to := c], to)))
    requires forall id :: id in F && (id == blk || id in ids) ==> visited[id] == ts
    ensures Mid(g, b[to := c], Play(g, b, c, to), pool, F, blk, {}, c)
    ensures Elems(F[blk]) == GroupOf(g, b[to := c], to)
    ensures Untouched(g, b, pool, F, visited, ts)
  {
    hide BlockOk, Liberties, GroupsAlive, GroupOf, Border, TrialRecord, Captured, IsGroup, Joined, Covered, ValidGraph;
    JoinedIsGroup(g, b, c, to, pool0, F0, ids);
    StoneGroupAfterPlay(g, b, c, to);
    RecordsFromTrial(g, pool0[blk], F[blk], c, GroupOf(g, b[to := c], to),
                     Liberties(g, Play(g, b, c, to), GroupOf(g, b[to := c], to)));
    TrialLibs(g, pool0[blk], c, GroupOf(g, b[to := c], to), Liberties(g, Play(g, b, c, to), GroupOf(g, b[to := c], to)));
    forall id | id in F && id != blk
      ensures 0 <= id < |pool| && BlockOk(g, b[to := c], pool[id], F[id]) && Records(g, pool[id], F[id])
      ensures id !in ids ==> pool[id].Libs() == Liberties(g, b, Elems(F[id]))
    {
      MergedBlock(g, b, c, to, pool0, F0, F, pool, ids, blk, id);
      BlockRecords(g, b[to := c], pool[id], F[id]);
    }
  }

  lemma TrialLibs(g: Graph, rec: GoBlock, c: Color, S: set<int>, libs: set<int>)
    requires TrialRecord(g, rec, c, S, libs)
    ensures rec.Libs() == libs && rec.color == c
  {}

  lemma BlockRecords(g: Graph, b: Board, blk: GoBlock, ord: seq<int>)
    requires BlockOk(g, b, blk, ord)
    ensures Records(g, blk, ord)
  {}

  // ---------- taking stones off ----------

  /** The stones of colour `c` among `Q`. */
  ghost function OwnAmong(b: Board, Q: set<int>, c: Color): set<int> {
    set q | q in Q && 0 <= q < |b| && b[q] == c
  }

  lemma OwnAmongStep(b: Board, Q: set<int>, q: int, c: Color)
    requires 0 <= q < |b|
    ensures b[q] == c ==> OwnAmong(b, Q + {q}, c) == OwnAmong(b, Q, c) + {q}
    ensures b[q] != c ==> OwnAmong(b, Q + {q}, c) == OwnAmong(b, Q, c)
  {}

  lemma OwnAmongNone(b: Board, Q: set<int>, c: Color)
    requires Q == {}
    ensures OwnAmong(b, Q, c) == {}
  {}

  /** The pool after `t` became a liberty of the blocks `ids`. */
  ghost predicate OpenedPool(pool: seq<GoBlock>, pool': seq<GoBlock>, F: Groups, ids: set<int>, t: int) {
    && |pool'| == |pool|
    && (forall i :: 0 <= i < |pool| ==> pool'[i] == pool[i].(libertyState := pool'[i].libertyState))
    && (forall id :: id in F && 0 <= id < |pool| ==>
          pool'[id].Libs() == pool[id].Libs() + if id in ids then {t} else {})
  }

  /** The blocks `ids` were stamped with `ts`; the other stamps are old ones or `ts`. */
  ghost predicate Stamped(visited: seq<int>, visited': seq<int>, ids: set<int>, ts: int) {
    && |visited'| == |visited|
    && (forall i :: 0 <= i < |visited| ==> visited'[i] == visited[i] || visited'[i] == ts)
    && (forall i :: 0 <= i < |visited| && i in ids ==> visited'[i] == ts)
  }

  lemma StampNone(visited: seq<int>, ids: set<int>, ts: int)
    requires ids == {}
    ensures Stamped(visited, visited, ids, ts)
  {}

  lemma StampOne(visited: seq<int>, v1: seq<int>, ids: set<int>, id: int, ts: int)
    requires Stamped(visited, v1, ids, ts) && 0 <= id < |v1|
    ensures Stamped(visited, v1[id := ts], ids + {id}, ts)
  {}

  lemma OpenNone(pool: seq<GoBlock>, F: Groups, ids: set<int>, t: int)
    requires ids == {}
    ensures OpenedPool(pool, pool, F, ids, t)
  {}

  /** Which blocks the emptied point `t` becomes a liberty of. */
  lemma OpenedBlocks(g: Graph, x: Board, play: Board, pool: seq<GoBlock>, F: Groups, blk: int, dead: set<int>, c: Color,
                     to: int, t: int, id: int)
    requires ValidGraph(g) && |x| == |g| && IsPlayer(c) && Mid(g, x, play, pool, F, blk, dead, c) && Disjoint(F)
    requires 0 <= to < |x| && to in F[blk] && 0 <= t < |x| && id in F
    ensures id != blk ==> (id in Owners(F, OwnAmong(x[to := Empty], Elems(g[t]), c))
                           <==> pool[id].color == c && Touches(g, Elems(F[id]), t))
    ensures id in Owners(F, OwnAmong(x[to := Empty], Elems(g[t]), c)) ==> Touches(g, Elems(F[id]), t)
  {
    hide IsGroup, Border, Liberties;
    var Q := OwnAmong(x[to := Empty], Elems(g[t]), c);
    if Meets(F[id], Q) {
      var q :| q in F[id] && q in Q;
      assert Adj(g, t, q) && Adj(g, q, t) && q in Elems(F[id]);
      if id != blk && id !in dead {
        BlockParts(g, x, pool[id], F[id]);
      }
    }
    if id != blk && pool[id].color == c && Touches(g, Elems(F[id]), t) {
      assert id !in dead;
      BlockParts(g, x, pool[id], F[id]);
      var q :| q in Elems(F[id]) && Adj(g, q, t);
      assert Adj(g, t, q) && q in F[id];
      assert q != to;
      assert q in Q;
    }
  }

  /** Taking one stone off keeps every surviving block exact. */
  lemma TakeBlockStep(g: Graph, x: Board, play: Board, pool: seq<GoBlock>, pool': seq<GoBlock>, F: Groups, blk: int,
                      dead: set<int>, c: Color, to: int, d: int, t: int, id: int)
    requires ValidGraph(g) && |x| == |g| && IsPlayer(c) && Mid(g, x, play, pool, F, blk, dead, c) && Disjoint(F)
    requires 0 <= to < |x| && to in F[blk] && d in F && d in dead && t in F[d] && 0 <= t < |x| && x[t] == Opponent(c)
    requires OpenedPool(pool, pool', F, Owners(F, OwnAmong(x[to := Empty], Elems(g[t]), c)), t)
    requires id in F && id != blk && id !in dead
    ensures BlockOk(g, x[t := Empty], pool'[id], F[id])
  {
    hide Border, OwnAmong, Owners, Mid;
    assert BlockOk(g, x, pool[id], F[id]) && 0 <= id < |pool| by { MidBlock(g, x, play, pool, F, blk, dead, c, id); }
    var S := Elems(F[id]);
    OpenedBlocks(g, x, play, pool, F, blk, dead, c, to, t, id);
    assert t !in S;
    GroupAfterRemoval(g, x, {t}, S, pool[id].color);
    assert Remove(x, {t}) == x[t := Empty];
    assert pool[id].color == Opponent(c) ==> !Touches(g, S, t);
    assert Liberties(g, x[t := Empty], S) == Liberties(g, x, S) + if Touches(g, S, t) then {t} else {};
  }

  lemma MidBlock(g: Graph, x: Board, play: Board, pool: seq<GoBlock>, F: Groups, blk: int, dead: set<int>, c: Color, id: int)
    requires Mid(g, x, play, pool, F, blk, dead, c) && id in F && id != blk && id !in dead
    ensures 0 <= id < |pool| && BlockOk(g, x, pool[id], F[id])
  {}

  lemma TakeStep(g: Graph, x: Board, play: Board, pool: seq<GoBlock>, pool': seq<GoBlock>, F: Groups, blk: int,
                 dead: set<int>, c: Color, to: int, d: int, t: int)
    requires ValidGraph(g) && |x| == |g| == |play| && IsPlayer(c) && Mid(g, x, play, pool, F, blk, dead, c) && Disjoint(F)
    requires 0 <= to < |x| && to in F[blk] && d in F && d in dead && t in F[d] && 0 <= t < |x| && x[t] == Opponent(c)
    requires play[t] == Empty
    requires OpenedPool(pool, pool', F, Owners(F, OwnAmong(x[to := Empty], Elems(g[t]), c)), t)
    ensures Mid(g, x[t := Empty], play, pool', F, blk, dead, c)
  {
    hide BlockOk, Border, OwnAmong, Owners, IsGroup;
    OpenedBlocks(g, x, play, pool, F, blk, dead, c, to, t, blk);
    assert pool'[blk].Libs() == pool[blk].Libs();
    forall id | id in F && id != blk && id !in dead ensures BlockOk(g, x[t := Empty], pool'[id], F[id]) {
      TakeBlockStep(g, x, play, pool, pool', F, blk, dead, c, to, d, t, id);
    }
  }

  lemma UntouchedStep(g: Graph, b: Board, pool: seq<GoBlock>, pool': seq<GoBlock>, F: Groups, ids: set<int>, t: int,
                      visited: seq<int>, visited': seq<int>, ts: int)
    requires Untouched(g, b, pool, F, visited, ts) && OpenedPool(pool, pool', F, ids, t)
    requires Stamped(visited, visited', ids, ts)
    ensures Untouched(g, b, pool', F, visited', ts)
  {
    hide Liberties;
  }

  /** The opponent's dying blocks are set apart. */
  lemma MarkDead(g: Graph, x: Board, play: Board, pool: seq<GoBlock>, F: Groups, blk: int, dead: set<int>, c: Color)
    requires Mid(g, x, play, pool, F, blk, {}, c) && blk !in dead
    requires forall id :: id in F && id in dead ==> pool[id].color != c
    ensures Mid(g, x, play, pool, F, blk, dead, c)
  {
    forall id | id in F && id in dead ensures ForeignStones(x, F[id], c) {
      BlockParts(g, x, pool[id], F[id]);
      forall q | q in F[id] ensures 0 <= q < |x| && x[q] != c {
        assert q in Elems(F[id]);
      }
    }
  }

  /** A block whose stones are all off the board is dropped. */
  lemma DropDead(g: Graph, x: Board, play: Board, pool: seq<GoBlock>, pool': seq<GoBlock>, F: Groups, blk: int,
                 dead: set<int>, c: Color, d: int, b: Board, visited: seq<int>, ts: int)
    requires Mid(g, x, play, pool, F, blk, dead, c) && d in F && d in dead
    requires forall q :: q in F[d] ==> 0 <= q < |x| && x[q] == Empty
    requires Covered(x, F) && Untouched(g, b, pool, F, visited, ts)
    requires |pool'| == |pool| && forall i :: 0 <= i < |pool| && i != d ==> pool'[i] == pool[i]
    ensures Mid(g, x, play, pool', F - {d}, blk, dead, c)
    ensures Covered(x, F - {d}) && Untouched(g, b, pool', F - {d}, visited, ts)
  {
    hide BlockOk, IsGroup, Liberties, Records;
    forall p | 0 <= p < |x| && x[p] != Empty ensures Owned(F - {d}, p) {
      assert Owned(F, p);
      var id :| id in F && p in F[id];
      assert id != d;
      assert id in F - {d} && p in (F - {d})[id];
    }
  }

  /** Recounting liberties changes nothing that matters. */
  lemma MidCached(g: Graph, x: Board, play: Board, pool: seq<GoBlock>, F: Groups, blk: int, dead: set<int>, c: Color,
                  b: Board, visited: seq<int>, ts: int)
    requires Mid(g, x, play, pool, F, blk, dead, c) && Untouched(g, b, pool, F, visited, ts)
    ensures 0 <= blk < |pool|
    ensures Mid(g, x, play, pool[blk := pool[blk].CountLiberty()], F, blk, dead, c)
    ensures Untouched(g, b, pool[blk := pool[blk].CountLiberty()], F, visited, ts)
    ensures pool[blk].stoneCount == |F[blk]| && pool[blk].Libs() == Liberties(g, play, Elems(F[blk]))
  {
    hide IsGroup, Liberties, Border;
  }

  /** With all captures done, every live block is exact on the new board. */
  lemma MidComplete(g: Graph, play: Board, pool: seq<GoBlock>, F: Groups, blk: int, dead: set<int>, c: Color)
    requires Mid(g, play, play, pool, F, blk, dead, c)
    requires forall id :: id in dead ==> id !in F
    ensures BlocksOk(g, play, pool, F)
  {}

  // ---------- liberty counts ----------

  /** The cached liberty count of every point is that of its group, and 0 on empty points. */
  ghost predicate Counted(g: Graph, b: Board, lc: seq<int>) {
    && |lc| == |b|
    && forall p :: 0 <= p < |b| ==>
         lc[p] == if b[p] == Empty then 0 else |Liberties(g, b, GroupOf(g, b, p))|
  }

  /** The stones of the touched blocks below `n` carry their block's liberty count. */
  ghost predicate CountsUpTo(g: Graph, play: Board, F: Groups, visited: seq<int>, ts: int, lc: seq<int>, n: int) {
    forall id :: id in F && id < n && 0 <= id < |visited| && visited[id] == ts ==> BlockCounted(g, play, F[id], lc)
  }

  ghost predicate BlockCounted(g: Graph, play: Board, ord: seq<int>, lc: seq<int>) {
    forall q :: q in ord ==> 0 <= q < |lc| && lc[q] == |Liberties(g, play, Elems(ord))|
  }

  ghost predicate InTouched(F: Groups, visited: seq<int>, ts: int, p: int) {
    exists id :: id in F && 0 <= id < |visited| && visited[id] == ts && p in F[id]
  }

  /** Outside the touched blocks the counts are those of `lc0`. */
  ghost predicate CountsKept(F: Groups, visited: seq<int>, ts: int, lc0: seq<int>, lc: seq<int>) {
    && |lc| == |lc0|
    && forall p :: 0 <= p < |lc| && !InTouched(F, visited, ts, p) ==> lc[p] == lc0[p]
  }

  lemma CountsNone(g: Graph, play: Board, F: Groups, visited: seq<int>, ts: int, lc: seq<int>)
    ensures CountsUpTo(g, play, F, visited, ts, lc, 0) && CountsKept(F, visited, ts, lc, lc)
  {}

  lemma CountsStep(g: Graph, play: Board, F: Groups, visited: seq<int>, ts: int, lc0: seq<int>, lc: seq<int>, lc': seq<int>, i: int)
    requires CountsUpTo(g, play, F, visited, ts, lc, i) && CountsKept(F, visited, ts, lc0, lc)
    requires |lc'| == |lc| && Disjoint(F) && 0 <= i < |visited|
    requires i in F && visited[i] == ts ==> BlockCounted(g, play, F[i], lc')
    requires i in F && visited[i] == ts ==> (forall p :: 0 <= p < |lc| && p !in F[i] ==> lc'[p] == lc[p])
    requires !(i in F && visited[i] == ts) ==> lc' == lc
    ensures CountsUpTo(g, play, F, visited, ts, lc', i + 1) && CountsKept(F, visited, ts, lc0, lc')
  {
    hide Liberties, Elems;
    forall id | id in F && id < i + 1 && 0 <= id < |visited| && visited[id] == ts
      ensures BlockCounted(g, play, F[id], lc')
    {
      if id != i {
        assert BlockCounted(g, play, F[id], lc);
        assert i in F ==> forall q :: q in F[id] ==> q !in F[i];
      }
    }
    forall p | 0 <= p < |lc| && !InTouched(F, visited, ts, p) ensures lc'[p] == lc0[p] {
      assert i in F && visited[i] == ts ==> p !in F[i];
    }
  }

  /** After the move every cached count is exact again. */
  lemma CountedAfter(g: Graph, b: Board, play: Board, pool0: seq<GoBlock>, F0: Groups, pool: seq<GoBlock>, F: Groups,
                     blk: int, lc0: seq<int>, lc: seq<int>, visited: seq<int>, ts: int)
    requires |b| == |play| == |g| == |lc0| && |visited| == |pool|
    requires BlocksOk(g, b, pool0, F0) && BlocksOk(g, play, pool, F) && Covered(play, F) && Disjoint(F)
    requires Counted(g, b, lc0) && Untouched(g, b, pool, F, visited, ts)
    requires forall id :: id in F && id != blk ==> id in F0 && F[id] == F0[id]
    requires 0 <= blk < |visited| && visited[blk] == ts
    requires CountsUpTo(g, play, F, visited, ts, lc, |pool|)
    requires |lc| == |g| && forall p :: 0 <= p < |g| && play[p] == Empty ==> lc[p] == 0
    requires forall p :: 0 <= p < |g| && play[p] != Empty && !InTouched(F, visited, ts, p) ==> lc[p] == lc0[p]
    ensures Counted(g, play, lc)
  {
    hide BlockOk, Liberties, GroupOf, Elems;
    forall p | 0 <= p < |play| && play[p] != Empty ensures lc[p] == |Liberties(g, play, GroupOf(g, play, p))| {
      assert Owned(F, p);
      var id :| id in F && p in F[id];
      BlockIsGroup(g, play, pool, F, id, p);
      BlockParts(g, play, pool[id], F[id]);
      if visited[id] == ts {
        assert BlockCounted(g, play, F[id], lc);
      } else {
        BlockIsGroup(g, b, pool0, F0, id, p);
        BlockColour(g, b, pool0[id], F0[id]);
        assert !InTouched(F, visited, ts, p);
      }
    }
  }

  // ---------- ko ----------

  /** The test made for each dying block: a lone stone with one liberty takes a lone stone. */
  ghost predicate LoneCapture(g: Graph, play: Board, F: Groups, blk: int, d: int)
    requires blk in F && d in F
  {
    |F[d]| == 1 && |F[blk]| == 1 && |Liberties(g, play, Elems(F[blk]))| == 1
  }

  /** The ko point after the first `i` dying blocks. */
  ghost predicate KoScan(g: Graph, play: Board, F: Groups, blk: int, die: seq<int>, i: nat, ko: int)
    requires blk in F && i <= |die| && forall j :: 0 <= j < |die| ==> die[j] in F
  {
    if ko == COORD_UNSET then
      forall j :: 0 <= j < i ==> !LoneCapture(g, play, F, blk, die[j])
    else
      exists j :: 0 <= j < i && LoneCapture(g, play, F, blk, die[j]) && F[die[j]] == [ko]
  }

  lemma OneOf(S: set<int>, x: int, y: int)
    requires |S| == 1 && x in S && y in S
    ensures x == y && S == {x}
  {
    assert |S - {x}| == 0;
    assert S - {x} == {};
  }

  lemma KoScanNone(g: Graph, play: Board, F: Groups, blk: int, die: seq<int>)
    requires blk in F && forall j :: 0 <= j < |die| ==> die[j] in F
    ensures KoScan(g, play, F, blk, die, 0, COORD_UNSET)
  {}

  /** A dying block next to the new stone leaves it a liberty. */
  lemma DyingOpens(g: Graph, b: Board, c: Color, to: int, pool: seq<GoBlock>, F: Groups, d: int) returns (q: int)
    requires MoveState(g, b, c, to, pool, F) && Dying(g, b, c, to, pool, F, d)
    ensures q in Elems(F[d]) && q in Captured(g, b, c, to)
    ensures q in Liberties(g, Play(g, b, c, to), GroupOf(g, b[to := c], to))
  {
    hide BlockOk, GroupOf, Border;
    DyingIsNear(g, b, c, to, pool, F, d);
    q :| q in Elems(F[d]) && Adj(g, q, to);
    BlocksAlive(g, b, pool, F);
    BlockParts(g, b, pool[d], F[d]);
    BlockColour(g, b, pool[d], F[d]);
    CapturedInAtari(g, b, c, to, Elems(F[d]), q);
    StoneGroupAfterPlay(g, b, c, to);
    assert Adj(g, to, q);
    assert Touches(g, GroupOf(g, b[to := c], to), q);
  }

  /** The ko point found by the scan is the point where the opponent could take back. */
  lemma KoScanIsExact(g: Graph, b: Board, c: Color, to: int, pool: seq<GoBlock>, F: Groups, G: Groups, blk: int,
                      die: seq<int>, ko: int)
    requires MoveState(g, b, c, to, pool, F) && NotSuicide(g, b, c, to) && AllAlive(g, b)
    requires forall id :: id in die <==> Dying(g, b, c, to, pool, F, id)
    requires forall j :: 0 <= j < |die| ==> die[j] in F && die[j] in G && G[die[j]] == F[die[j]]
    requires blk in G && NoDup(G[blk]) && Elems(G[blk]) == GroupOf(g, b[to := c], to)
    requires KoScan(g, Play(g, b, c, to), G, blk, die, |die|, ko)
    ensures ko == KoPoint(g, b, Play(g, b, c, to), Opponent(c))
  {
    hide MoveState, Dying, Liberties, GroupOf, Captured, NotSuicide, AllAlive, Play, Retakes, KoPoint;
    StateContext(g, b, c, to, pool, F);
    var play := Play(g, b, c, to);
    ElemsCount(G[blk]);
    DyingAreCaptured(g, b, c, to, pool, F, die);
    StonesOfAt(F, die, |die|);
    if ko != COORD_UNSET {
      var j :| 0 <= j < |die| && LoneCapture(g, play, G, blk, die[j]) && G[die[j]] == [ko];
      KoFound(g, b, c, to, pool, F, die, j, ko, GroupOf(g, b[to := c], to));
      KoIsExact(g, b, c, to, ko);
    } else if k :| Retakes(g, b, play, Opponent(c), k) {
      KoIsExact(g, b, c, to, k);
      KoMissed(g, b, c, to, pool, F, G, blk, die, k, GroupOf(g, b[to := c], to));
      assert false;
    } else {
      NoRetake(g, b, play, Opponent(c));
    }
  }

  lemma NoRetake(g: Graph, before: Board, after: Board, o: Color)
    requires forall k :: !Retakes(g, before, after, o, k)
    ensures KoPoint(g, before, after, o) == COORD_UNSET
  {}

  lemma StateContext(g: Graph, b: Board, c: Color, to: int, pool: seq<GoBlock>, F: Groups)
    requires MoveState(g, b, c, to, pool, F)
    ensures MoveContext(g, b, c, to) && Disjoint(F)
    ensures forall id :: id in F ==> NoDup(F[id]) && |F[id]| > 0
  {
    forall id | id in F ensures |F[id]| > 0 {
      assert BlockOk(g, b, pool[id], F[id]);
    }
  }

  lemma StateList(g: Graph, b: Board, c: Color, to: int, pool: seq<GoBlock>, F: Groups, id: int)
    requires MoveState(g, b, c, to, pool, F) && id in F
    ensures NoDup(F[id])
  {}

  /** A recorded ko: the one dying block is a lone stone. */
  lemma KoFound(g: Graph, b: Board, c: Color, to: int, pool: seq<GoBlock>, F: Groups, die: seq<int>, j: nat, k: int,
                S: set<int>)
    requires MoveState(g, b, c, to, pool, F)
    requires forall id :: id in die <==> Dying(g, b, c, to, pool, F, id)
    requires forall i :: 0 <= i < |die| ==> die[i] in F
    requires StonesOf(F, die, |die|) == Captured(g, b, c, to)
    requires j < |die| && F[die[j]] == [k]
    requires S == GroupOf(g, b[to := c], to) && |S| == 1 && |Liberties(g, Play(g, b, c, to), S)| == 1
    ensures Captured(g, b, c, to) == {k} && S == {to}
    ensures Liberties(g, Play(g, b, c, to), {to}) == {k}
  {
    hide MoveState, Dying, Liberties, GroupOf, Captured, Play, IsGroup;
    StateContext(g, b, c, to, pool, F);
    ChainIsGroup(g, b[to := c], to);
    OneOf(S, to, to);
    var L := Liberties(g, Play(g, b, c, to), S);
    assert die[j] in die;
    var q := DyingOpens(g, b, c, to, pool, F, die[j]);
    assert q == k;
    OneOf(L, k, k);
    StonesOfAt(F, die, |die|);
    forall i | 0 <= i < |die| ensures die[i] == die[j] {
      assert die[i] in die;
      var p := DyingOpens(g, b, c, to, pool, F, die[i]);
      OneOf(L, k, p);
    }
    assert k in Elems(F[die[j]]);
    assert forall p :: p in Captured(g, b, c, to) ==> p == k;
  }

  /** Blocks that together hold one stone include a block of one stone. */
  lemma OneStoneBlock(F: Groups, die: seq<int>, k: int) returns (j: nat)
    requires forall i :: 0 <= i < |die| ==> die[i] in F && NoDup(F[die[i]])
    requires StonesOf(F, die, |die|) == {k}
    ensures j < |die| && |F[die[j]]| == 1
  {
    hide StonesOf;
    StonesOfAt(F, die, |die|);
    assert k in StonesOf(F, die, |die|);
    j :| 0 <= j < |die| && k in Elems(F[die[j]]);
    assert forall q :: q in Elems(F[die[j]]) ==> q in StonesOf(F, die, |die|);
    assert Elems(F[die[j]]) == {k};
    ElemsCount(F[die[j]]);
  }

  /** When a stone can take back, some dying block passes the ko test. */
  lemma KoMissed(g: Graph, b: Board, c: Color, to: int, pool: seq<GoBlock>, F: Groups, G: Groups, blk: int, die: seq<int>,
                 k: int, S: set<int>)
    requires MoveState(g, b, c, to, pool, F)
    requires forall i :: 0 <= i < |die| ==> die[i] in F && die[i] in G && G[die[i]] == F[die[i]]
    requires StonesOf(F, die, |die|) == Captured(g, b, c, to) == {k}
    requires S == GroupOf(g, b[to := c], to) == {to}
    requires blk in G && NoDup(G[blk]) && Elems(G[blk]) == S
    requires Liberties(g, Play(g, b, c, to), {to}) == {k}
    ensures exists j :: 0 <= j < |die| && LoneCapture(g, Play(g, b, c, to), G, blk, die[j])
  {
    hide MoveState, Liberties, GroupOf, Captured, Play, StonesOf, Elems;
    StateContext(g, b, c, to, pool, F);
    assert forall i :: 0 <= i < |die| ==> die[i] in F && NoDup(F[die[i]]) by {
      forall i | 0 <= i < |die| ensures NoDup(F[die[i]]) {
        StateList(g, b, c, to, pool, F, die[i]);
      }
    }
    var j := OneStoneBlock(F, die, k);
    ElemsCount(G[blk]);
    assert LoneCapture(g, Play(g, b, c, to), G, blk, die[j]);
  }
}
