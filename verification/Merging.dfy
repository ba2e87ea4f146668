/** Which stones the new block collects, and which blocks die, in terms of the plain rules. */
module Merging {
  import opened GoRules
  import opened Placement
  import opened Blocks
  import opened Chains

  /** Everything a move reads: a board with all groups alive and its exact block records. */
  ghost predicate MoveState(g: Graph, b: Board, c: Color, to: int, pool: seq<GoBlock>, F: Groups) {
    && MoveContext(g, b, c, to)
    && BlocksOk(g, b, pool, F) && Covered(b, F) && Disjoint(F) && GroupsAlive(g, b, F)
    && forall id :: id in F ==> NoDup(F[id])
  }

  /** `ids` lists blocks next to `to`. */
  ghost predicate NearIds(g: Graph, F: Groups, to: int, ids: seq<int>) {
    Increasing(ids) && Elems(ids) <= Near(g, F, to)
  }

  ghost predicate IdsIn(F: Groups, pool: seq<GoBlock>, ids: seq<int>) {
    forall i :: 0 <= i < |ids| ==> ids[i] in F && 0 <= ids[i] < |pool|
  }

  /** The new stone and the own groups among the first `k` neighbouring blocks. */
  ghost function Joined(F: Groups, pool: seq<GoBlock>, ids: seq<int>, k: nat, c: Color, to: int): set<int>
    requires k <= |ids| && IdsIn(F, pool, ids)
  {
    if k == 0 then {to}
    else
      Joined(F, pool, ids, k - 1, c, to)
      + if pool[ids[k - 1]].color == c then Elems(F[ids[k - 1]]) else {}
  }

  lemma NearFacts(g: Graph, b: Board, c: Color, to: int, pool: seq<GoBlock>, F: Groups, ids: seq<int>, id: int)
    requires MoveState(g, b, c, to, pool, F) && NearIds(g, F, to, ids) && id in ids
    ensures id in F && 0 <= id < |pool| && BlockOk(g, b, pool[id], F[id])
    ensures Touches(g, Elems(F[id]), to) && to !in Elems(F[id])
    ensures pool[id].color != c ==> pool[id].color == Opponent(c)
  {
    assert id in Elems(ids);
    assert Uniform(b, Elems(F[id]), pool[id].color);
  }

  lemma NearIdsRange(g: Graph, b: Board, c: Color, to: int, pool: seq<GoBlock>, F: Groups, ids: seq<int>)
    requires MoveState(g, b, c, to, pool, F) && NearIds(g, F, to, ids)
    ensures IdsIn(F, pool, ids)
  {
    forall i | 0 <= i < |ids| ensures ids[i] in F && 0 <= ids[i] < |pool| {
      NearFacts(g, b, c, to, pool, F, ids, ids[i]);
    }
  }

  lemma {:induction false} JoinedMembers(F: Groups, pool: seq<GoBlock>, ids: seq<int>, k: nat, c: Color, to: int, q: int)
    requires k <= |ids| && IdsIn(F, pool, ids)
    ensures q in Joined(F, pool, ids, k, c, to) <==>
            q == to || exists i :: 0 <= i < k && q in Elems(F[ids[i]]) && pool[ids[i]].color == c
  {
    hide Elems;
    if k > 0 { JoinedMembers(F, pool, ids, k - 1, c, to, q); }
  }

  lemma JoinedColour(g: Graph, b: Board, c: Color, to: int, pool: seq<GoBlock>, F: Groups,
                     ids: seq<int>, k: nat, q: int)
    requires MoveState(g, b, c, to, pool, F) && NearIds(g, F, to, ids) && k <= |ids| && IdsIn(F, pool, ids)
    requires q in Joined(F, pool, ids, k, c, to) && q != to
    ensures 0 <= q < |b| && b[q] == c
  {
    JoinedMembers(F, pool, ids, k, c, to, q);
    var i :| 0 <= i < k && q in Elems(F[ids[i]]) && pool[ids[i]].color == c;
    NearFacts(g, b, c, to, pool, F, ids, ids[i]);
    BlockParts(g, b, pool[ids[i]], F[ids[i]]);
  }

  lemma {:induction false} JoinedConnected(g: Graph, b: Board, c: Color, to: int, pool: seq<GoBlock>, F: Groups,
                                           ids: seq<int>, k: nat)
    requires MoveState(g, b, c, to, pool, F) && NearIds(g, F, to, ids) && k <= |ids| && IdsIn(F, pool, ids)
    ensures to in Joined(F, pool, ids, k, c, to)
    ensures Connected(g, Joined(F, pool, ids, k, c, to))
  {
    hide BlockOk, BlocksOk, Covered, GroupsAlive, Disjoint, Liberties, Elems, Connected, Near, NoDup;
    if k == 0 {
      SingletonConnected(g, to);
    } else {
      JoinedConnected(g, b, c, to, pool, F, ids, k - 1);
      var id := ids[k - 1];
      var J := Joined(F, pool, ids, k - 1, c, to);
      NearFacts(g, b, c, to, pool, F, ids, id);
      if pool[id].color == c {
        BlockParts(g, b, pool[id], F[id]);
        var p :| p in Elems(F[id]) && Adj(g, p, to);
        JoinConnected(g, Elems(F[id]), J, p, to);
        assert J + Elems(F[id]) == Elems(F[id]) + J;
      } else {
        assert J + {} == J;
      }
    }
  }

  lemma BlockParts(g: Graph, b: Board, blk: GoBlock, ord: seq<int>)
    requires BlockOk(g, b, blk, ord)
    ensures IsGroup(g, b, Elems(ord), blk.color) && Connected(g, Elems(ord))
    ensures Uniform(b, Elems(ord), blk.color) && Maximal(g, b, Elems(ord), blk.color)
    ensures blk.Stones() == Elems(ord) && blk.Virts() == Border(g, Elems(ord))
    ensures blk.Libs() == Liberties(g, b, Elems(ord)) && blk.stoneCount == |ord|
  {}

  lemma JoinedMaximal(g: Graph, b: Board, c: Color, to: int, pool: seq<GoBlock>, F: Groups, ids: seq<int>, q: int, r: int)
    requires MoveState(g, b, c, to, pool, F) && IdsIn(F, pool, ids)
    requires Increasing(ids) && Elems(ids) == Near(g, F, to)
    requires q in Joined(F, pool, ids, |ids|, c, to) && 0 <= r < |b| && b[r] == c && Adj(g, q, r)
    ensures r in Joined(F, pool, ids, |ids|, c, to)
  {
    hide BlockOk, Liberties;
    JoinedMembers(F, pool, ids, |ids|, c, to, q);
    JoinedMembers(F, pool, ids, |ids|, c, to, r);
    assert Owned(F, r);
    var id :| id in F && r in F[id];
    BlockParts(g, b, pool[id], F[id]);
    assert r in Elems(F[id]);
    if q == to {
      assert Adj(g, r, to);
      assert Touches(g, Elems(F[id]), to);
      assert id in Elems(ids);
    } else {
      var i :| 0 <= i < |ids| && q in Elems(F[ids[i]]) && pool[ids[i]].color == c;
      BlockParts(g, b, pool[ids[i]], F[ids[i]]);
    }
  }

  /** With all neighbouring blocks merged, the collected stones are the new stone's plain group. */
  lemma JoinedIsGroup(g: Graph, b: Board, c: Color, to: int, pool: seq<GoBlock>, F: Groups, ids: seq<int>)
    requires MoveState(g, b, c, to, pool, F)
    requires Increasing(ids) && Elems(ids) == Near(g, F, to)
    requires IdsIn(F, pool, ids)
    ensures Joined(F, pool, ids, |ids|, c, to) == GroupOf(g, b[to := c], to)
    ensures IsGroup(g, b[to := c], Joined(F, pool, ids, |ids|, c, to), c)
  {
    hide BlockOk, Liberties, GroupOf;
    var J := Joined(F, pool, ids, |ids|, c, to);
    JoinedConnected(g, b, c, to, pool, F, ids, |ids|);
    forall q | q in J && q != to ensures 0 <= q < |b| && b[q] == c {
      JoinedColour(g, b, c, to, pool, F, ids, |ids|, q);
    }
    forall q, r | q in J && 0 <= r < |b| && b[r] == c && Adj(g, q, r) ensures r in J {
      JoinedMaximal(g, b, c, to, pool, F, ids, q, r);
    }
    GroupOfStone(g, b, c, to, J);
  }

  /** Merging one more own group, in the sets of the block record. */
  lemma MergeSets(g: Graph, b: Board, c: Color, to: int, J: set<int>, A: set<int>)
    requires MoveContext(g, b, c, to) && to in J && Uniform(b, J - {to}, c) && Uniform(b, A, c)
    ensures Border(g, J + A) == (Border(g, J) + Border(g, A)) - (J + A)
    ensures Liberties(g, b[to := c], J + A) ==
            (Liberties(g, b[to := c], J) + Liberties(g, b, A)) * Border(g, J + A)
  {
    TouchesUnion(g, J, A);
  }

  lemma TouchesUnion(g: Graph, J: set<int>, A: set<int>)
    ensures forall q :: Touches(g, J + A, q) <==> Touches(g, J, q) || Touches(g, A, q)
  {
    forall q ensures Touches(g, J + A, q) <==> Touches(g, J, q) || Touches(g, A, q) {
      if Touches(g, J, q) {
        var p :| p in J && Adj(g, p, q);
        assert p in J + A;
      }
      if Touches(g, A, q) {
        var p :| p in A && Adj(g, p, q);
        assert p in J + A;
      }
    }
  }

  lemma MergeStep(g: Graph, b: Board, c: Color, to: int, pool: seq<GoBlock>, F: Groups, ids: seq<int>, k: nat)
    requires MoveState(g, b, c, to, pool, F) && NearIds(g, F, to, ids) && k < |ids|
    requires IdsIn(F, pool, ids)
    requires pool[ids[k]].color == c
    ensures var J, J' := Joined(F, pool, ids, k, c, to), Joined(F, pool, ids, k + 1, c, to);
            var A := Elems(F[ids[k]]);
            && J' == J + A && |J'| == |J| + |A|
            && Border(g, J') == (Border(g, J) + Border(g, A)) - J'
            && Liberties(g, b[to := c], J') == (Liberties(g, b[to := c], J) + Liberties(g, b, A)) * Border(g, J')
  {
    hide BlockOk, Liberties, Border, Elems, Connected;
    var J := Joined(F, pool, ids, k, c, to);
    var A := Elems(F[ids[k]]);
    JoinedConnected(g, b, c, to, pool, F, ids, k);
    forall q | q in J && q != to ensures 0 <= q < |b| && b[q] == c {
      JoinedColour(g, b, c, to, pool, F, ids, k, q);
    }
    NearFacts(g, b, c, to, pool, F, ids, ids[k]);
    BlockParts(g, b, pool[ids[k]], F[ids[k]]);
    MergeSets(g, b, c, to, J, A);
    JoinedDisjoint(g, b, c, to, pool, F, ids, k);
  }

  lemma JoinedDisjoint(g: Graph, b: Board, c: Color, to: int, pool: seq<GoBlock>, F: Groups, ids: seq<int>, k: nat)
    requires MoveState(g, b, c, to, pool, F) && NearIds(g, F, to, ids) && k < |ids|
    requires IdsIn(F, pool, ids)
    ensures Joined(F, pool, ids, k, c, to) !! Elems(F[ids[k]])
    ensures |Joined(F, pool, ids, k, c, to) + Elems(F[ids[k]])| ==
            |Joined(F, pool, ids, k, c, to)| + |Elems(F[ids[k]])|
  {
    hide BlockOk, Liberties;
    var J := Joined(F, pool, ids, k, c, to);
    NearFacts(g, b, c, to, pool, F, ids, ids[k]);
    forall q | q in J ensures q !in Elems(F[ids[k]]) {
      if q != to {
        JoinedMembers(F, pool, ids, k, c, to, q);
        var i :| 0 <= i < k && q in Elems(F[ids[i]]) && pool[ids[i]].color == c;
        assert ids[i] < ids[k];
      }
    }
  }

  // ---------- dying blocks ----------

  ghost function StonesOf(F: Groups, ids: seq<int>, k: nat): set<int>
    requires k <= |ids| && forall i :: 0 <= i < |ids| ==> ids[i] in F
  {
    if k == 0 then {} else StonesOf(F, ids, k - 1) + Elems(F[ids[k - 1]])
  }

  lemma StonesOfNone(F: Groups, ids: seq<int>)
    requires forall i :: 0 <= i < |ids| ==> ids[i] in F
    ensures StonesOf(F, ids, 0) == {}
  {}

  lemma {:induction false} StonesOfAt(F: Groups, ids: seq<int>, k: nat)
    requires k <= |ids| && forall i :: 0 <= i < |ids| ==> ids[i] in F
    ensures forall q :: q in StonesOf(F, ids, k) <==> exists i :: 0 <= i < k && q in Elems(F[ids[i]])
  {
    if k > 0 { StonesOfAt(F, ids, k - 1); }
  }

  lemma StonesOfCount(F: Groups, ids: seq<int>, k: nat)
    requires k < |ids| && Disjoint(F) && NoDup(ids) && forall i :: 0 <= i < |ids| ==> ids[i] in F
    ensures StonesOf(F, ids, k) !! Elems(F[ids[k]])
    ensures |StonesOf(F, ids, k + 1)| == |StonesOf(F, ids, k)| + |Elems(F[ids[k]])|
  {
    StonesOfAt(F, ids, k);
    forall q | q in StonesOf(F, ids, k) ensures q !in Elems(F[ids[k]]) {
      var i :| 0 <= i < k && q in Elems(F[ids[i]]);
      assert ids[i] != ids[k];
    }
  }

  /** The opponent's blocks next to `to` whose only liberty it is. */
  ghost predicate Dying(g: Graph, b: Board, c: Color, to: int, pool: seq<GoBlock>, F: Groups, id: int) {
    && id in F && 0 <= id < |pool| && pool[id].color != c
    && Liberties(g, b, Elems(F[id])) == {to}
  }

  lemma DyingIsNear(g: Graph, b: Board, c: Color, to: int, pool: seq<GoBlock>, F: Groups, id: int)
    requires Dying(g, b, c, to, pool, F, id)
    ensures id in Near(g, F, to)
  {
    assert to in Liberties(g, b, Elems(F[id]));
  }

  /** The dying blocks hold exactly the stones the plain rule captures. */
  lemma DyingAreCaptured(g: Graph, b: Board, c: Color, to: int, pool: seq<GoBlock>, F: Groups, die: seq<int>)
    requires MoveState(g, b, c, to, pool, F)
    requires forall id :: id in die <==> Dying(g, b, c, to, pool, F, id)
    ensures (forall i :: 0 <= i < |die| ==> die[i] in F) && StonesOf(F, die, |die|) == Captured(g, b, c, to)
  {
    hide BlockOk, Liberties, Captured;
    forall i | 0 <= i < |die| ensures die[i] in F {
      assert Dying(g, b, c, to, pool, F, die[i]);
    }
    StonesOfAt(F, die, |die|);
    BlocksAlive(g, b, pool, F);
    forall q | q in StonesOf(F, die, |die|) ensures q in Captured(g, b, c, to) {
      var i :| 0 <= i < |die| && q in Elems(F[die[i]]);
      assert die[i] in die;
      BlockParts(g, b, pool[die[i]], F[die[i]]);
      assert BlockOk(g, b, pool[die[i]], F[die[i]]);
      BlockColour(g, b, pool[die[i]], F[die[i]]);
      CapturedInAtari(g, b, c, to, Elems(F[die[i]]), q);
    }
    forall q | q in Captured(g, b, c, to) ensures q in StonesOf(F, die, |die|) {
      CapturedColour(g, b, c, to, q);
      assert Owned(F, q);
      var id :| id in F && q in F[id];
      BlockIsGroup(g, b, pool, F, id, q);
      BlockParts(g, b, pool[id], F[id]);
      CapturedInAtari(g, b, c, to, Elems(F[id]), q);
      assert Dying(g, b, c, to, pool, F, id);
      assert id in die;
      var i :| 0 <= i < |die| && die[i] == id;
      assert q in Elems(F[die[i]]);
    }
  }

  lemma BlockColour(g: Graph, b: Board, blk: GoBlock, ord: seq<int>)
    requires BlockOk(g, b, blk, ord)
    ensures IsPlayer(blk.color)
  {}

  /** The new block's liberties after the captures. */
  lemma LibertiesAfterCapture(g: Graph, b: Board, c: Color, to: int, S: set<int>)
    requires MoveContext(g, b, c, to) && S == GroupOf(g, b[to := c], to)
    ensures Liberties(g, Play(g, b, c, to), S) ==
            (Liberties(g, b[to := c], S) + Captured(g, b, c, to)) * Border(g, S)
  {
    ChainIsGroup(g, b[to := c], to);
    OwnGroupSurvives(g, b, c, to, S);
    GroupAfterRemoval(g, b[to := c], Captured(g, b, c, to), S, c);
  }

  /** The new block cannot have as many liberties as there are points. */
  lemma FewLiberties(g: Graph, b: Board, S: set<int>, to: int)
    requires 0 <= to < |b| && b[to] != Empty
    ensures |Liberties(g, b, S)| < |b|
  {
    UptoMembers(|b|);
    assert Liberties(g, b, S) + {to} <= Upto(|b|);
    SubsetCount(Liberties(g, b, S) + {to}, Upto(|b|));
  }

  ghost function Upto(n: nat): set<int> {
    if n == 0 then {} else Upto(n - 1) + {n - 1}
  }

  lemma {:induction false} UptoMembers(n: nat)
    ensures |Upto(n)| == n && forall q :: q in Upto(n) <==> 0 <= q < n
  {
    if n > 0 { UptoMembers(n - 1); }
  }

  lemma SubsetCount(A: set<int>, B: set<int>)
    requires A <= B
    ensures |A| <= |B|
  {
    assert B == A + (B - A);
    assert A !! (B - A);
  }

  // ---------- the record of a trial move ----------

  /** The record `rec` holds the stones `S` of colour `c` with liberties `libs`, not yet on the board. */
  ghost predicate TrialRecord(g: Graph, rec: GoBlock, c: Color, S: set<int>, libs: set<int>) {
    && rec.color == c && !rec.inUse
    && rec.Stones() == S && rec.stoneCount == |S|
    && rec.Virts() == Border(g, S) && rec.Libs() == libs
  }

  lemma FirstRecord(g: Graph, b: Board, c: Color, to: int, rec: GoBlock)
    requires MoveContext(g, b, c, to)
    requires rec.color == c && !rec.inUse && rec.stoneCount == 1
    requires rec.Stones() == {to} && rec.Virts() == Border(g, {to}) && rec.Libs() == Liberties(g, b, {to})
    ensures TrialRecord(g, rec, c, {to}, Liberties(g, b[to := c], {to}))
  {
    assert !Touches(g, {to}, to);
    assert Liberties(g, b, {to}) == Liberties(g, b[to := c], {to});
  }

  /** The trial record after merging the first `k` neighbouring blocks. */
  ghost predicate MergedRecord(g: Graph, b: Board, c: Color, to: int, pool: seq<GoBlock>, F: Groups,
                               ids: seq<int>, k: nat, rec: GoBlock)
    requires k <= |ids| && IdsIn(F, pool, ids) && 0 <= to < |b|
  {
    var J := Joined(F, pool, ids, k, c, to);
    TrialRecord(g, rec, c, J, Liberties(g, b[to := c], J))
  }

  lemma MergeOwn(g: Graph, b: Board, c: Color, to: int, pool: seq<GoBlock>, F: Groups,
                 ids: seq<int>, k: nat, rec: GoBlock, rec': GoBlock)
    requires MoveState(g, b, c, to, pool, F) && NearIds(g, F, to, ids) && k < |ids|
    requires IdsIn(F, pool, ids)
    requires MergedRecord(g, b, c, to, pool, F, ids, k, rec)
    requires pool[ids[k]].color == c
    requires rec'.color == rec.color && rec'.inUse == rec.inUse
    requires rec'.stoneCount == rec.stoneCount + pool[ids[k]].stoneCount
    requires rec'.Stones() == rec.Stones() + pool[ids[k]].Stones()
    requires rec'.Virts() == (rec.Virts() + pool[ids[k]].Virts()) - rec'.Stones()
    requires rec'.Libs() == (rec.Libs() + pool[ids[k]].Libs()) * rec'.Virts()
    ensures MergedRecord(g, b, c, to, pool, F, ids, k + 1, rec')
  {
    hide BlockOk, Liberties, Border, Joined, Connected, NearIds, GroupsAlive, Covered;
    NearFacts(g, b, c, to, pool, F, ids, ids[k]);
    MergeStep(g, b, c, to, pool, F, ids, k);
    BlockParts(g, b, pool[ids[k]], F[ids[k]]);
    ElemsCount(F[ids[k]]);
  }

  lemma MergeOther(g: Graph, b: Board, c: Color, to: int, pool: seq<GoBlock>, F: Groups,
                   ids: seq<int>, k: nat, rec: GoBlock)
    requires k < |ids| && IdsIn(F, pool, ids) && 0 <= to < |b|
    requires MergedRecord(g, b, c, to, pool, F, ids, k, rec)
    requires pool[ids[k]].color != c
    ensures MergedRecord(g, b, c, to, pool, F, ids, k + 1, rec)
  {
    var J := Joined(F, pool, ids, k, c, to);
    assert J + {} == J;
  }

  /** The dying blocks among the first `k` neighbours, and the number of their stones. */
  ghost predicate DyingPrefix(g: Graph, b: Board, c: Color, to: int, pool: seq<GoBlock>, F: Groups,
                              ids: seq<int>, k: nat, die: seq<int>, cnt: int)
    requires k <= |ids|
  {
    && Increasing(die)
    && (forall i :: 0 <= i < |die| ==> die[i] in F)
    && (forall id :: id in die <==> id in ids[..k] && Dying(g, b, c, to, pool, F, id))
    && cnt == |StonesOf(F, die, |die|)|
  }

  lemma DyingStep(g: Graph, b: Board, c: Color, to: int, pool: seq<GoBlock>, F: Groups,
                  ids: seq<int>, k: nat, die: seq<int>, cnt: int)
    requires MoveState(g, b, c, to, pool, F) && k < |ids| && Increasing(ids) && ids[k] in F
    requires DyingPrefix(g, b, c, to, pool, F, ids, k, die, cnt)
    ensures Dying(g, b, c, to, pool, F, ids[k]) ==>
              DyingPrefix(g, b, c, to, pool, F, ids, k + 1, die + [ids[k]], cnt + |F[ids[k]]|)
    ensures !Dying(g, b, c, to, pool, F, ids[k]) ==>
              DyingPrefix(g, b, c, to, pool, F, ids, k + 1, die, cnt)
  {
    hide Dying, BlocksOk, Covered, GroupsAlive;
    var id := ids[k];
    assert ids[..k + 1] == ids[..k] + [id];
    if Dying(g, b, c, to, pool, F, id) {
      var die' := die + [id];
      forall i | 0 <= i < |die| ensures die[i] < id {
        assert die[i] in die;
        assert die[i] in ids[..k];
      }
      assert Increasing(die');
      assert forall i :: 0 <= i < |die'| ==> die'[i] in F;
      StonesOfSame(F, die, die', |die|);
      StonesOfCount(F, die', |die|);
      ElemsCount(F[id]);
    }
  }

  lemma {:induction false} StonesOfSame(F: Groups, s: seq<int>, t: seq<int>, k: nat)
    requires k <= |s| && k <= |t| && s[..k] == t[..k]
    requires (forall i :: 0 <= i < |s| ==> s[i] in F) && (forall i :: 0 <= i < |t| ==> t[i] in F)
    ensures StonesOf(F, s, k) == StonesOf(F, t, k)
  {
    if k > 0 {
      assert s[..k - 1] == s[..k][..k - 1] == t[..k - 1];
      assert s[k - 1] == s[..k][k - 1] == t[k - 1];
      StonesOfSame(F, s, t, k - 1);
    }
  }

  /** With all neighbours visited, the dying blocks hold exactly the captured stones. */
  lemma DyingComplete(g: Graph, b: Board, c: Color, to: int, pool: seq<GoBlock>, F: Groups,
                      ids: seq<int>, die: seq<int>, cnt: int)
    requires MoveState(g, b, c, to, pool, F) && Elems(ids) == Near(g, F, to)
    requires DyingPrefix(g, b, c, to, pool, F, ids, |ids|, die, cnt)
    ensures forall id :: id in die <==> Dying(g, b, c, to, pool, F, id)
    ensures StonesOf(F, die, |die|) == Captured(g, b, c, to)
    ensures cnt == |Captured(g, b, c, to)|
  {
    hide BlocksOk, Covered, GroupsAlive;
    assert ids[..|ids|] == ids;
    forall id | Dying(g, b, c, to, pool, F, id) ensures id in die {
      DyingIsNear(g, b, c, to, pool, F, id);
      assert id in Elems(ids);
    }
    DyingAreCaptured(g, b, c, to, pool, F, die);
  }

  /** What a completed trial move reports. */
  ghost predicate TrialResult(g: Graph, b: Board, c: Color, to: int, pool: seq<GoBlock>, F: Groups,
                              rec: GoBlock, ids: seq<int>, die: seq<int>, cnt: int)
    requires 0 <= to < |b|
  {
    var S := GroupOf(g, b[to := c], to);
    && Increasing(ids) && Elems(ids) == Near(g, F, to)
    && Increasing(die)
    && (forall id :: id in die <==> Dying(g, b, c, to, pool, F, id))
    && cnt == |Captured(g, b, c, to)|
    && TrialRecord(g, rec, c, S, Liberties(g, Play(g, b, c, to), S))
  }

  /** The trial record once the first `k` dying blocks' stones count as liberties. */
  ghost predicate OpenedRecord(g: Graph, b: Board, c: Color, to: int, F: Groups, die: seq<int>, k: nat, rec: GoBlock)
    requires k <= |die| && (forall i :: 0 <= i < |die| ==> die[i] in F) && 0 <= to < |b|
  {
    var S := GroupOf(g, b[to := c], to);
    TrialRecord(g, rec, c, S, (Liberties(g, b[to := c], S) + StonesOf(F, die, k)) * Border(g, S))
  }

  lemma OpenFirst(g: Graph, b: Board, c: Color, to: int, F: Groups, die: seq<int>, rec: GoBlock)
    requires MoveContext(g, b, c, to) && forall i :: 0 <= i < |die| ==> die[i] in F
    requires TrialRecord(g, rec, c, GroupOf(g, b[to := c], to), Liberties(g, b[to := c], GroupOf(g, b[to := c], to)))
    ensures OpenedRecord(g, b, c, to, F, die, 0, rec)
  {
    var S := GroupOf(g, b[to := c], to);
    ChainIsGroup(g, b[to := c], to);
    assert Uniform(b[to := c], S, c);
    assert Liberties(g, b[to := c], S) <= Border(g, S);
    assert (Liberties(g, b[to := c], S) + {}) * Border(g, S) == Liberties(g, b[to := c], S);
  }

  lemma OpenStep(g: Graph, b: Board, c: Color, to: int, F: Groups, die: seq<int>, k: nat, rec: GoBlock, rec': GoBlock)
    requires k < |die| && (forall i :: 0 <= i < |die| ==> die[i] in F) && 0 <= to < |b|
    requires OpenedRecord(g, b, c, to, F, die, k, rec)
    requires rec'.color == rec.color && rec'.inUse == rec.inUse && rec'.stoneCount == rec.stoneCount
    requires rec'.Stones() == rec.Stones() && rec'.Virts() == rec.Virts()
    requires rec'.Libs() == (rec.Libs() + Elems(F[die[k]])) * rec.Virts()
    ensures OpenedRecord(g, b, c, to, F, die, k + 1, rec')
  {
    hide GroupOf, Liberties, Border, Elems;
  }

  lemma OpenLast(g: Graph, b: Board, c: Color, to: int, F: Groups, die: seq<int>, rec: GoBlock)
    requires MoveContext(g, b, c, to) && forall i :: 0 <= i < |die| ==> die[i] in F
    requires OpenedRecord(g, b, c, to, F, die, |die|, rec)
    requires StonesOf(F, die, |die|) == Captured(g, b, c, to)
    ensures TrialRecord(g, rec, c, GroupOf(g, b[to := c], to),
                        Liberties(g, Play(g, b, c, to), GroupOf(g, b[to := c], to)))
  {
    hide GroupOf, Liberties, Border;
    LibertiesAfterCapture(g, b, c, to, GroupOf(g, b[to := c], to));
  }
}
