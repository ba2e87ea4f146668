/** The incremental board. */
module GoBoard {
  import opened GoRules
  import opened Placement
  import opened GoGame
  import opened Blocks
  import opened Chains
  import opened Merging
  import opened Allocator
  import opened Moving
  import opened RuleFacts
  import Bits
  import Zobrist

  class GoState {
    const rules: Rules
    const cap: nat          // MAX_BLOCK_SIZE
    const words: nat        // LIBERTY_STATE_SIZE

    const blockPool: array<GoBlock>
    const stones: array<GoStone>
    const boardState: array<Color>
    const legalMoveMap: array<bool>
    const libertyCount: array<int>
    const visitedPositions: array<int>
    var recycledBlocks: seq<int>
    var blockInUse: int
    var currentPlayer: Color
    var lastPosition: int
    var koPosition: int
    var isDoublePass: bool
    var boardHashStates: set<Zobrist.Hash>
    var zobristHashValue: Zobrist.Hash
    var timestamp: int

    /** The stones of each live block, from head to tail. */
    ghost var groups: Groups

    /** The hashes that were recorded when the map of legal points was computed. */
    ghost var seen: set<Zobrist.Hash>

    /** The largest number of live blocks so far. */
    ghost var peak: nat

    /** Array sizes fit the rules; holds of every board from construction on. */
    ghost predicate Sized() {
      && ValidRules(rules)
      && words == (|rules.g| + 63) / 64
      && boardState.Length == stones.Length == legalMoveMap.Length == libertyCount.Length == |rules.g|
      && blockPool.Length == visitedPositions.Length == cap
      && libertyCount != visitedPositions
    }

    /** The part of the state a trial move reads: a board with all groups alive, its exact block
        records and the lists and forest of its stones. */
    ghost predicate Linked()
      reads this`groups, this`currentPlayer, boardState, stones, blockPool
      requires Sized()
    {
      && ValidBoard(rules.g, boardState[..])
      && IsPlayer(currentPlayer)
      && PoolShape(blockPool[..], words)
      && Forest(stones[..], groups)
      && BlocksOk(rules.g, boardState[..], blockPool[..], groups)
      && Covered(boardState[..], groups)
      && GroupsAlive(rules.g, boardState[..], groups)
    }

    /** Blocks, pool and liberty counts agree with the board. */
    ghost predicate Standing()
      reads this`groups, this`recycledBlocks, this`blockInUse, this`currentPlayer, boardState, stones, blockPool, libertyCount
      requires Sized()
    {
      && Linked()
      && InUseExact(blockPool[..], groups)
      && AllocOk(recycledBlocks, blockInUse, groups, {}, cap)
      && Counted(rules.g, boardState[..], libertyCount[..])
    }

    ghost predicate Stamps(limit: int)
      reads visitedPositions
      requires Sized()
    {
      forall i :: 0 <= i < cap ==> visitedPositions[i] <= limit
    }

    /** Every representation agrees with the board, the hash included. */
    ghost predicate Core()
      reads this`groups, this`recycledBlocks, this`blockInUse, this`currentPlayer, this`zobristHashValue, this`timestamp,
        boardState, stones, blockPool, libertyCount, visitedPositions
      requires Sized()
    {
      && Standing() && Stamps(timestamp)
      && zobristHashValue == Zobrist.HashOf(rules.z, boardState[..], currentPlayer)
    }

    /** The position on the board, as the legal moves about to be computed see it. */
    ghost function Now(): (s: Position)
      reads this`groups, this`currentPlayer, this`koPosition, this`lastPosition, this`isDoublePass, this`boardHashStates,
        boardState, stones, blockPool
      requires Sized() && Linked()
      ensures ValidPosition(rules, s)
    {
      BlocksAlive(rules.g, boardState[..], blockPool[..], groups);
      Position(boardState[..], currentPlayer, koPosition, lastPosition, isDoublePass, boardHashStates, boardHashStates)
    }

    /** The abstract position. */
    ghost function Abs(): (s: Position)
      reads this`groups, this`currentPlayer, this`koPosition, this`lastPosition, this`isDoublePass, this`boardHashStates,
        this`seen, boardState, stones, blockPool
      requires Sized() && Linked()
      ensures ValidPosition(rules, s)
    {
      BlocksAlive(rules.g, boardState[..], blockPool[..], groups);
      Position(boardState[..], currentPlayer, koPosition, lastPosition, isDoublePass, seen, boardHashStates)
    }

    /** The representation invariant. */
    ghost predicate Valid()
      reads this, boardState, stones, blockPool, libertyCount, visitedPositions, legalMoveMap
    {
      && Sized() && Core()
      && ExactMap(rules, Abs(), legalMoveMap[..])
      && |groups| <= peak && blockInUse <= peak + 1
    }

    predicate IsLegal(id: int)
      reads legalMoveMap
      requires id == COORD_PASS || 0 <= id < legalMoveMap.Length
    {
      id == COORD_PASS || legalMoveMap[id]
    }

    // ---------- the block pool ----------

    method GetNewBlock(ghost out: set<int>) returns (id: int)
      requires Sized() && AllocOk(recycledBlocks, blockInUse, groups, out, cap) && |groups| + |out| < cap
      modifies this`recycledBlocks, this`blockInUse, blockPool
      ensures 0 <= id < cap && id !in groups && id !in out
      ensures AllocOk(recycledBlocks, blockInUse, groups, out + {id}, cap)
      ensures blockInUse == old(blockInUse) || blockInUse == |groups| + |out| + 1
      ensures forall i :: 0 <= i < cap && i != id ==> blockPool[i] == old(blockPool[i])
      ensures blockPool[id] == old(blockPool[id]).Reset(words)
    {
      hide Bits.Members;
      if |recycledBlocks| > 0 {
        PopRecycled(recycledBlocks, blockInUse, groups, out, cap);
        id := recycledBlocks[|recycledBlocks| - 1];
        recycledBlocks := recycledBlocks[..|recycledBlocks| - 1];
      } else {
        assert recycledBlocks == [];
        GrowUsed(blockInUse, groups, out, cap);
        id := blockInUse;
        blockInUse := blockInUse + 1;
      }
      blockPool[id] := blockPool[id].Reset(words);
    }

    /** A block for a trial move. */
    method CheckOutBlock() returns (blk: int)
      requires Sized() && Linked() && InUseExact(blockPool[..], groups)
      requires AllocOk(recycledBlocks, blockInUse, groups, {}, cap) && |groups| < cap
      modifies this`recycledBlocks, this`blockInUse, blockPool
      ensures Linked() && InUseExact(blockPool[..], groups) && 0 <= blk < cap && blk !in groups && !blockPool[blk].inUse
      ensures AllocOk(recycledBlocks, blockInUse, groups, {blk}, cap)
      ensures blockInUse == old(blockInUse) || blockInUse == |groups| + 1
      ensures SamePool(old(blockPool[..]), blockPool[..], blk)
    {
      hide Bits.Members, BlockOk, Covered, GroupsAlive, PoolShape, Forest, AllocOk, BlocksOk, InUseExact, ValidRules;
      ghost var b, st, pool0 := boardState[..], stones[..], blockPool[..];
      blk := GetNewBlock({});
      assert {} + {blk} == {blk};
      assert stones[..] == st && boardState[..] == b;
      ResetPool(pool0, blockPool[..], blk, words);
      SamePoolKeepsBlocks(rules.g, b, pool0, blockPool[..], groups, blk);
      SamePoolInUse(pool0, blockPool[..], groups, blk);
    }

    method RecycleBlock(id: int, ghost out: set<int>)
      requires Sized() && AllocOk(recycledBlocks, blockInUse, groups, out, cap) && id in out
      modifies this`recycledBlocks, blockPool
      ensures AllocOk(recycledBlocks, blockInUse, groups, out - {id}, cap)
      ensures recycledBlocks == old(recycledBlocks) + [id]
      ensures blockPool[..] == old(blockPool[..])[id := old(blockPool[id]).(inUse := false)]
    {
      blockPool[id] := blockPool[id].(inUse := false);
      PushRecycled(recycledBlocks, blockInUse, groups, out, cap, id);
      recycledBlocks := recycledBlocks + [id];
    }

    // ---------- construction ----------

    constructor (r: Rules, maxBlocks: nat)
      requires ValidRules(r)
      ensures Valid() && rules == r && cap == maxBlocks
      ensures Abs() == InitialPosition(r) && groups == map[] && blockInUse == 0 && peak == 0
      ensures fresh(boardState) && fresh(stones) && fresh(blockPool) && fresh(libertyCount) && fresh(visitedPositions)
        && fresh(legalMoveMap)
    {
      rules, cap, words := r, maxBlocks, (|r.g| + 63) / 64;
      var w := Bits.Zeros((|r.g| + 63) / 64);
      blockPool := new GoBlock[maxBlocks](i => GoBlock(i, Empty, 0, COORD_UNSET, COORD_UNSET, 0, false, w, w, w));
      stones := new GoStone[|r.g|](i => GoStone(i, BLOCK_UNSET, i, i));
      boardState := new Color[|r.g|](_ => Empty);
      legalMoveMap := new bool[|r.g|](_ => true);
      libertyCount := new int[|r.g|](_ => 0);
      visitedPositions := new int[maxBlocks](_ => 0);
      recycledBlocks, blockInUse := [], 0;
      currentPlayer, lastPosition, koPosition, isDoublePass := Black, COORD_UNSET, COORD_UNSET, false;
      boardHashStates, zobristHashValue, timestamp := {}, Zobrist.ZERO, 0;
      groups, seen, peak := map[], {}, 0;
      new;
      hide *;
      StartIsValid(r);
    }

    lemma StartIsValid(r: Rules)
      requires ValidRules(r) && rules == r && words == (|r.g| + 63) / 64
      requires boardState.Length == stones.Length == legalMoveMap.Length == libertyCount.Length == |r.g|
      requires blockPool.Length == visitedPositions.Length == cap && libertyCount != visitedPositions
      requires forall i :: 0 <= i < |r.g| ==> boardState[i] == Empty && stones[i].selfId == i && legalMoveMap[i] && libertyCount[i] == 0
      requires forall i :: 0 <= i < cap ==> blockPool[i].selfId == i && blockPool[i].HasWords(words) && !blockPool[i].inUse
      requires forall i :: 0 <= i < cap ==> visitedPositions[i] == 0
      requires recycledBlocks == [] && blockInUse == timestamp == 0 && zobristHashValue == Zobrist.ZERO
      requires currentPlayer == Black && lastPosition == koPosition == COORD_UNSET
      requires !isDoublePass && boardHashStates == seen == {} && groups == map[] && peak == 0
      ensures Valid() && Abs() == InitialPosition(r)
    {
      assert boardState[..] == InitialPosition(r).board;
      hide Bits.Members, Stamps, ExactMap, Zobrist.HashOf, ValidPosition, ValidRules, ValidBoard, PoolShape, Forest, BlocksOk,
        Covered, GroupsAlive, InUseExact, AllocOk, Counted;
      EmptyState(r, boardState[..], stones[..], blockPool[..], libertyCount[..], words);
      EmptyMap(r, InitialPosition(r), legalMoveMap[..]);
      assert Standing();
      assert Stamps(timestamp) by { StampsZero(); }
    }

    lemma StampsZero()
      requires Sized() && forall i :: 0 <= i < cap ==> visitedPositions[i] == 0
      ensures Stamps(0)
    {}

    // ---------- copying ----------

    /** The arrays hold the same values. */
    ghost predicate SameArrays(src: GoState)
      reads boardState, stones, blockPool, libertyCount, visitedPositions, legalMoveMap,
        src.boardState, src.stones, src.blockPool, src.libertyCount, src.visitedPositions, src.legalMoveMap
    {
      && boardState[..] == src.boardState[..] && stones[..] == src.stones[..] && blockPool[..] == src.blockPool[..]
      && libertyCount[..] == src.libertyCount[..] && visitedPositions[..] == src.visitedPositions[..]
      && legalMoveMap[..] == src.legalMoveMap[..]
    }

    ghost predicate SameFields(src: GoState)
      reads this, src
    {
      && rules == src.rules && cap == src.cap && words == src.words
      && recycledBlocks == src.recycledBlocks && blockInUse == src.blockInUse && currentPlayer == src.currentPlayer
      && lastPosition == src.lastPosition && koPosition == src.koPosition && isDoublePass == src.isDoublePass
      && boardHashStates == src.boardHashStates && zobristHashValue == src.zobristHashValue && timestamp == src.timestamp
      && groups == src.groups && seen == src.seen && peak == src.peak
    }

    ghost predicate Separate(src: GoState) {
      && src != this && boardState != src.boardState && stones != src.stones && blockPool != src.blockPool
      && libertyCount != src.libertyCount && libertyCount != src.visitedPositions && visitedPositions != src.visitedPositions
      && visitedPositions != src.libertyCount && legalMoveMap != src.legalMoveMap
    }

    /** Makes this board a copy of another, which keeps its own arrays. */
    method CopyFrom(src: GoState)
      requires src.Valid() && Sized() && Separate(src) && rules == src.rules && cap == src.cap
      modifies this, boardState, stones, blockPool, libertyCount, visitedPositions, legalMoveMap
      ensures Valid() && src.Valid() && Abs() == src.Abs() && groups == src.groups
    {
      hide Valid, SameFields, SameArrays;
      ValidIsSized(src);
      CopyArrays(src);
      CopyFields(src);
      SameIsValid(src);
    }

    lemma ValidIsSized(src: GoState)
      requires src.Valid()
      ensures src.Sized()
    {}

    method CopyFields(src: GoState)
      requires src != this && rules == src.rules && cap == src.cap && words == src.words
      modifies this
      ensures SameFields(src)
    {
      CopyPool(src);
      CopyTurn(src);
      groups, seen, peak := src.groups, src.seen, src.peak;
    }

    method CopyPool(src: GoState)
      requires src != this
      modifies this`recycledBlocks, this`blockInUse, this`boardHashStates, this`zobristHashValue, this`timestamp
      ensures recycledBlocks == src.recycledBlocks && blockInUse == src.blockInUse
      ensures boardHashStates == src.boardHashStates && zobristHashValue == src.zobristHashValue && timestamp == src.timestamp
    {
      recycledBlocks, blockInUse := src.recycledBlocks, src.blockInUse;
      boardHashStates, zobristHashValue, timestamp := src.boardHashStates, src.zobristHashValue, src.timestamp;
    }

    method CopyTurn(src: GoState)
      requires src != this
      modifies this`currentPlayer, this`lastPosition, this`koPosition, this`isDoublePass
      ensures currentPlayer == src.currentPlayer && lastPosition == src.lastPosition
      ensures koPosition == src.koPosition && isDoublePass == src.isDoublePass
    {
      currentPlayer, lastPosition := src.currentPlayer, src.lastPosition;
      koPosition, isDoublePass := src.koPosition, src.isDoublePass;
    }

    method CopyArrays(src: GoState)
      requires src.Sized() && Sized() && Separate(src) && rules == src.rules && cap == src.cap
      modifies boardState, stones, blockPool, libertyCount, visitedPositions, legalMoveMap
      ensures SameArrays(src)
    {
      hide ValidRules;
      CopyArray(boardState, src.boardState);
      CopyArray(stones, src.stones);
      CopyArray(blockPool, src.blockPool);
      CopyArray(libertyCount, src.libertyCount);
      CopyArray(visitedPositions, src.visitedPositions);
      CopyArray(legalMoveMap, src.legalMoveMap);
    }

    lemma SameIsValid(src: GoState)
      requires src.Valid() && Sized() && SameFields(src) && SameArrays(src)
      ensures Valid() && Abs() == src.Abs() && groups == src.groups
    {
      hide ValidRules, ValidBoard, PoolShape, Forest, BlocksOk, Covered, GroupsAlive, InUseExact, AllocOk, Counted, Zobrist.HashOf,
        ExactMap, ValidPosition, Bits.Members;
      assert Linked();
      assert Stamps(timestamp) by { SameStamps(src); }
    }

    lemma SameStamps(src: GoState)
      requires src.Sized() && Sized() && SameFields(src) && SameArrays(src) && src.Stamps(src.timestamp)
      ensures Stamps(timestamp)
    {
      assert forall i :: 0 <= i < cap ==> visitedPositions[i] == visitedPositions[..][i] && src.visitedPositions[i] == src.visitedPositions[..][i];
    }

    // ---------- union-find ----------

    method FindCoord(id: int, ghost blk: int, ghost k: nat) returns (r: int)
      requires Sized() && Forest(stones[..], groups)
      requires blk in groups && k < |groups[blk]| && groups[blk][k] == id
      modifies stones
      ensures Forest(stones[..], groups)
      ensures SameLinks(old(stones[..]), stones[..])
      ensures r == Last(groups[blk])
      decreases |groups[blk]| - k
    {
      assert ListOk(stones[..], groups[blk], blk);
      assert k < |groups[blk]| - 1 ==> ParentLater(stones[..], groups[blk], k);
      if stones[id].parentId == stones[id].selfId {
        return stones[id].selfId;
      }
      ghost var j :| k < j < |groups[blk]| && stones[id].parentId == groups[blk][j];
      r := FindCoord(stones[id].parentId, blk, j);
      CompressKeepsForest(stones[..], groups, blk, k);
      ghost var s := stones[..];
      stones[id] := stones[id].(parentId := r);
      assert stones[..] == s[id := s[id].(parentId := r)];
    }

    method GetBlockIdByCoord(id: int) returns (r: int)
      requires Sized() && Forest(stones[..], groups)
      requires 0 <= id < |rules.g|
      requires boardState[id] != Empty ==> Owned(groups, id)
      modifies stones
      ensures Forest(stones[..], groups)
      ensures SameLinks(old(stones[..]), stones[..])
      ensures boardState[id] == Empty ==> r == BLOCK_UNSET
      ensures boardState[id] != Empty ==> r in groups && id in groups[r]
    {
      if boardState[id] == Empty {
        return BLOCK_UNSET;
      }
      ghost var blk :| blk in groups && id in groups[blk];
      ghost var k :| 0 <= k < |groups[blk]| && groups[blk][k] == id;
      var root := FindCoord(id, blk, k);
      assert ListOk(stones[..], groups[blk], blk);
      r := stones[root].blockId;
    }

    // ---------- trial moves ----------

    /** Adds the stone's point, its neighbours and its empty neighbours to block `blk`, and
        returns the ids of the blocks around it, sorted and without repetition. */
    method GetNeighbourBlocks(blk: int, to: int) returns (nbId: seq<int>)
      requires Sized() && Linked()
      requires 0 <= blk < cap && blk !in groups
      requires 0 <= to < |rules.g| && boardState[to] == Empty
      requires blockPool[blk].Stones() == blockPool[blk].Virts() == blockPool[blk].Libs() == {}
      modifies blockPool, stones
      ensures Linked() && SameLinks(old(stones[..]), stones[..])
      ensures forall i :: 0 <= i < cap && i != blk ==> blockPool[i] == old(blockPool[i])
      ensures blockPool[blk] == old(blockPool[blk]).(stoneState := blockPool[blk].stoneState,
                 virtualLibertyState := blockPool[blk].virtualLibertyState, libertyState := blockPool[blk].libertyState)
      ensures blockPool[blk].Stones() == {to}
      ensures blockPool[blk].Virts() == Border(rules.g, {to})
      ensures blockPool[blk].Libs() == Liberties(rules.g, boardState[..], {to})
      ensures Increasing(nbId) && Elems(nbId) == Near(rules.g, groups, to)
    {
      hide Bits.Members, BlockOk, Liberties, Border, Owners, Elems;
      ghost var g, b, pool0 := rules.g, boardState[..], blockPool[..];
      forall q | 0 <= q < |b| && b[q] == Empty ensures !Owned(groups, q) {
        EmptyNotOwned(g, b, pool0, groups, q);
      }
      var ids := VisitNeighbours(blk, to);
      nbId := SortUnique(ids);
      LonelyStone(g, b, to);
      StonesInRange(g, b, pool0, groups);
      OwnersOfNeighbours(g, groups, to);
      SamePoolKeepsBlocks(g, b, pool0, blockPool[..], groups, blk);
    }

    /** One neighbour: a virtual liberty, and either a liberty or the id of the block on it. */
    method VisitNeighbour(blk: int, nb: int) returns (id: int)
      requires Sized() && 0 <= blk < cap && 0 <= nb < |rules.g|
      requires blockPool[blk].HasWords(words) && Forest(stones[..], groups)
      requires boardState[nb] == Empty <==> !Owned(groups, nb)
      modifies blockPool, stones
      ensures Forest(stones[..], groups) && SameLinks(old(stones[..]), stones[..])
      ensures forall i :: 0 <= i < cap && i != blk ==> blockPool[i] == old(blockPool[i])
      ensures blockPool[blk] == old(blockPool[blk]).(virtualLibertyState := blockPool[blk].virtualLibertyState,
                                                     libertyState := blockPool[blk].libertyState)
      ensures blockPool[blk].HasWords(words)
      ensures blockPool[blk].Virts() == old(blockPool[blk].Virts()) + {nb}
      ensures blockPool[blk].Libs() == old(blockPool[blk].Libs()) + if boardState[nb] == Empty then {nb} else {}
      ensures boardState[nb] == Empty ==> id == BLOCK_UNSET
      ensures boardState[nb] != Empty ==> id in groups && nb in groups[id]
    {
      hide Bits.Members, Forest, ValidRules;
      id := BLOCK_UNSET;
      blockPool[blk] := blockPool[blk].SetVirtLiberty(nb);
      if boardState[nb] == Empty {
        blockPool[blk] := blockPool[blk].SetLiberty(nb);
      } else {
        id := GetBlockIdByCoord(nb);
      }
    }

    method VisitNeighbours(blk: int, to: int) returns (ids: seq<int>)
      requires Sized() && 0 <= blk < cap && 0 <= to < |rules.g|
      requires PoolShape(blockPool[..], words) && Forest(stones[..], groups)
      requires forall q :: 0 <= q < |rules.g| ==> (boardState[q] == Empty <==> !Owned(groups, q))
      requires blockPool[blk].Stones() == blockPool[blk].Virts() == blockPool[blk].Libs() == {}
      modifies blockPool, stones
      ensures PoolShape(blockPool[..], words)
      ensures Forest(stones[..], groups) && SameLinks(old(stones[..]), stones[..])
      ensures forall i :: 0 <= i < cap && i != blk ==> blockPool[i] == old(blockPool[i])
      ensures blockPool[blk] == old(blockPool[blk]).(stoneState := blockPool[blk].stoneState,
                 virtualLibertyState := blockPool[blk].virtualLibertyState, libertyState := blockPool[blk].libertyState)
      ensures blockPool[blk].Stones() == {to}
      ensures blockPool[blk].Virts() == Elems(rules.g[to])
      ensures blockPool[blk].Libs() == EmptyAmong(boardState[..], Elems(rules.g[to]))
      ensures Elems(ids) == Owners(groups, Elems(rules.g[to]))
    {
      assert forall q :: q in rules.g[to] ==> 0 <= q < |rules.g|;
      hide Bits.Members, Owners, Forest, ValidGraph, EmptyAmong, GoBlock.SetStoneState, SameLinks;
      ghost var ns, b, pool0 := rules.g[to], boardState[..], blockPool[..];
      ids := [];
      blockPool[blk] := blockPool[blk].SetStoneState(to);
      ghost var stoneState := blockPool[blk].stoneState;
      assert Elems(ns[..0]) == Elems(ids) == {};
      NoOwners(groups, Elems(ns[..0]));
      EmptyAmongNone(b, Elems(ns[..0]));
      SameLinksSelf(stones[..]);
      hide Elems;
      for j := 0 to |rules.g[to]|
        invariant Forest(stones[..], groups) && SameLinks(old(stones[..]), stones[..])
        invariant forall i :: 0 <= i < cap && i != blk ==> blockPool[i] == pool0[i]
        invariant blockPool[blk] == pool0[blk].(stoneState := stoneState,
                    virtualLibertyState := blockPool[blk].virtualLibertyState, libertyState := blockPool[blk].libertyState)
        invariant blockPool[blk].HasWords(words)
        invariant blockPool[blk].Virts() == Elems(ns[..j])
        invariant blockPool[blk].Libs() == EmptyAmong(b, Elems(ns[..j]))
        invariant Elems(ids) == Owners(groups, Elems(ns[..j]))
      {
        var nb := rules.g[to][j];
        assert nb in rules.g[to];
        ElemsPrefix(ns, j);
        EmptyAmongStep(b, Elems(ns[..j]), nb);
        ghost var st := stones[..];
        var id := VisitNeighbour(blk, nb);
        SameLinksTransitive(old(stones[..]), st, stones[..]);
        if boardState[nb] == Empty {
          OwnersSkip(groups, Elems(ns[..j]), nb);
        } else {
          ForestDisjoint(stones[..], groups);
          OwnersStep(groups, Elems(ns[..j]), nb, id);
          ElemsAppend(ids, id);
          ids := ids + [id];
        }
      }
      assert ns[..|ns|] == ns;
      PoolShapeUpdate(pool0, blockPool[..], blk, words);
    }

    /** Opponent blocks in atari are collected, own blocks are merged into block `blk`. */
    method MergeNeighbours(blk: int, to: int, nbId: seq<int>) returns (cnt: int, dieId: seq<int>)
      requires Sized() && Linked() && 0 <= blk < cap && blk !in groups
      requires 0 <= to < |rules.g| && boardState[to] == Empty
      requires Increasing(nbId) && Elems(nbId) == Near(rules.g, groups, to)
      requires TrialRecord(rules.g, blockPool[blk], currentPlayer, {to}, Liberties(rules.g, boardState[..][to := currentPlayer], {to}))
      modifies blockPool
      ensures Linked() && SamePool(old(blockPool[..]), blockPool[..], blk)
      ensures var S := GroupOf(rules.g, boardState[..][to := currentPlayer], to);
              TrialRecord(rules.g, blockPool[blk], currentPlayer, S, Liberties(rules.g, boardState[..][to := currentPlayer], S))
      ensures DyingPrefix(rules.g, boardState[..], currentPlayer, to, old(blockPool[..]), groups, nbId, |nbId|, dieId, cnt)
    {
      hide Bits.Members, BlockOk, Liberties, Border, GroupOf, TrialRecord, DyingPrefix, Joined, Dying, PoolShape, Covered, GroupsAlive, Captured;
      ghost var g, b, c, pool0 := rules.g, boardState[..], currentPlayer, blockPool[..];
      StateForMove(to);
      NearIdsRange(g, b, c, to, pool0, groups, nbId);
      cnt, dieId := 0, [];
      FirstMerge(g, b, c, to, pool0, groups, nbId, blockPool[blk]);
      for i := 0 to |nbId|
        invariant SamePool(pool0, blockPool[..], blk) && PoolShape(blockPool[..], words)
        invariant MergedRecord(g, b, c, to, pool0, groups, nbId, i, blockPool[blk])
        invariant DyingPrefix(g, b, c, to, pool0, groups, nbId, i, dieId, cnt)
      {
        var id := nbId[i];
        ghost var rec, pool1 := blockPool[blk], blockPool[..];
        NearFacts(g, b, c, to, pool0, groups, nbId, id);
        BlockParts(g, b, pool0[id], groups[id]);
        DyingStep(g, b, c, to, pool0, groups, nbId, i, dieId, cnt);
        DyingByCount(g, b, c, to, pool0, groups, id);
        PoolShapeAt(blockPool[..], words);
        if currentPlayer != blockPool[id].color {
          blockPool[id] := blockPool[id].CountLiberty();
          if 1 == blockPool[id].liberty {
            cnt := cnt + blockPool[id].stoneCount;
            dieId := dieId + [nbId[i]];
          }
          MergeOther(g, b, c, to, pool0, groups, nbId, i, rec);
          PoolShapeUpdate(pool1, blockPool[..], id, words);
        } else {
          blockPool[blk] := TryMergeBlocks(blockPool[blk], blockPool[id], words);
          MergeOwn(g, b, c, to, pool0, groups, nbId, i, rec, blockPool[blk]);
          PoolShapeUpdate(pool1, blockPool[..], blk, words);
        }
      }
      JoinedIsGroup(g, b, c, to, pool0, groups, nbId);
      SamePoolKeepsBlocks(g, b, pool0, blockPool[..], groups, blk);
    }

    /** Plays `to` on the scratch block `blk`: its stones, virtual liberties and liberties become
        those of the group the move would create; the blocks it would take are listed.  Nothing
        is placed on the board. */
    method TryMove(blk: int, to: int, libNeed: int) returns (cnt: int, nbId: seq<int>, dieId: seq<int>)
      requires Sized() && Linked() && 0 <= blk < cap && blk !in groups
      requires 0 <= to < |rules.g| && boardState[to] == Empty
      modifies blockPool, stones
      ensures Linked() && SameLinks(old(stones[..]), stones[..])
      ensures SamePool(old(blockPool[..]), blockPool[..], blk)
      ensures !legalMoveMap[to] ==> cnt == -1 && stones[..] == old(stones[..]) && blockPool[..] == old(blockPool[..])
      ensures legalMoveMap[to] && libNeed >= |rules.g| ==>
                TrialResult(rules.g, boardState[..], currentPlayer, to, old(blockPool[..]), groups, blockPool[blk], nbId, dieId, cnt)
    {
      hide Bits.Members, BlockOk, Liberties, Border, GroupOf, DyingPrefix, Dying, Covered, GroupsAlive, Captured, OpenedRecord;
      if !legalMoveMap[to] {
        return -1, [], [];
      }
      ghost var g, b, c, pool0 := rules.g, boardState[..], currentPlayer, blockPool[..];
      StateForMove(to);
      nbId := StartTrial(blk, to);
      ghost var pool1 := blockPool[..];
      cnt, dieId := MergeNeighbours(blk, to, nbId);
      DyingPrefixSame(g, b, c, to, pool1, pool0, groups, blk, nbId, dieId, cnt);
      DyingComplete(g, b, c, to, pool0, groups, nbId, dieId, cnt);
      FinishTrial(blk, to, dieId, libNeed);
    }

    /** The scratch block starts out as the lone stone, among its neighbours. */
    method StartTrial(blk: int, to: int) returns (nbId: seq<int>)
      requires Sized() && Linked() && 0 <= blk < cap && blk !in groups
      requires 0 <= to < |rules.g| && boardState[to] == Empty
      modifies blockPool, stones
      ensures Linked() && SameLinks(old(stones[..]), stones[..])
      ensures SamePool(old(blockPool[..]), blockPool[..], blk)
      ensures Increasing(nbId) && Elems(nbId) == Near(rules.g, groups, to)
      ensures TrialRecord(rules.g, blockPool[blk], currentPlayer, {to}, Liberties(rules.g, boardState[..][to := currentPlayer], {to}))
    {
      hide Bits.Members, BlockOk, Liberties, Border, Covered, GroupsAlive, PoolShape, SameLinks;
      ghost var g, b, c, pool0 := rules.g, boardState[..], currentPlayer, blockPool[..];
      PoolShapeAt(pool0, words);
      blockPool[blk] := blockPool[blk].Reset(words).(stoneCount := 1, color := currentPlayer);
      PoolShapeUpdate(pool0, blockPool[..], blk, words);
      SamePoolKeepsBlocks(g, b, pool0, blockPool[..], groups, blk);
      nbId := GetNeighbourBlocks(blk, to);
      FirstRecord(g, b, c, to, blockPool[blk]);
    }

    /** Removes the played point from the liberties and, unless there are already `libNeed` of
        them, adds the liberties the captures open. */
    method FinishTrial(blk: int, to: int, dieId: seq<int>, libNeed: int)
      requires Sized() && Linked() && 0 <= blk < cap && blk !in groups
      requires 0 <= to < |rules.g| && boardState[to] == Empty
      requires forall i :: 0 <= i < |dieId| ==> dieId[i] in groups
      requires StonesOf(groups, dieId, |dieId|) == Captured(rules.g, boardState[..], currentPlayer, to)
      requires TrialRecord(rules.g, blockPool[blk], currentPlayer, GroupOf(rules.g, boardState[..][to := currentPlayer], to),
                           Liberties(rules.g, boardState[..][to := currentPlayer], GroupOf(rules.g, boardState[..][to := currentPlayer], to)))
      modifies blockPool
      ensures Linked() && SamePool(old(blockPool[..]), blockPool[..], blk)
      ensures libNeed >= |rules.g| ==>
                TrialRecord(rules.g, blockPool[blk], currentPlayer, GroupOf(rules.g, boardState[..][to := currentPlayer], to),
                  Liberties(rules.g, Play(rules.g, boardState[..], currentPlayer, to), GroupOf(rules.g, boardState[..][to := currentPlayer], to)))
    {
      hide Bits.Members, BlockOk, Liberties, Border, GroupOf, Covered, GroupsAlive, Captured, OpenedRecord, PoolShape;
      ghost var g, b, c := rules.g, boardState[..], currentPlayer;
      ghost var S := GroupOf(g, b[to := c], to);
      NotItsOwnLiberty(g, b[to := c], S, to);
      ghost var pool2 := blockPool[..];
      PoolShapeAt(pool2, words);
      blockPool[blk] := blockPool[blk].ResetLiberty(to);
      blockPool[blk] := blockPool[blk].CountLiberty();
      PoolShapeUpdate(pool2, blockPool[..], blk, words);
      SamePoolKeepsBlocks(g, b, pool2, blockPool[..], groups, blk);
      FewLiberties(g, b[to := c], S, to);
      if blockPool[blk].liberty >= libNeed {
        return;
      }
      if 0 != |dieId| {
        OpenDying(blk, to, dieId);
      } else {
        OpenFirst(g, b, c, to, groups, dieId, blockPool[blk]);
      }
      OpenLast(g, b, c, to, groups, dieId, blockPool[blk]);
    }

    /** The points of the dying blocks next to the merged stones become liberties. */
    method OpenDying(blk: int, to: int, dieId: seq<int>)
      requires Sized() && Linked() && 0 <= blk < cap && blk !in groups
      requires 0 <= to < |rules.g| && boardState[to] == Empty
      requires forall i :: 0 <= i < |dieId| ==> dieId[i] in groups
      requires TrialRecord(rules.g, blockPool[blk], currentPlayer, GroupOf(rules.g, boardState[..][to := currentPlayer], to),
                           Liberties(rules.g, boardState[..][to := currentPlayer], GroupOf(rules.g, boardState[..][to := currentPlayer], to)))
      modifies blockPool
      ensures Linked() && SamePool(old(blockPool[..]), blockPool[..], blk)
      ensures OpenedRecord(rules.g, boardState[..], currentPlayer, to, groups, dieId, |dieId|, blockPool[blk])
    {
      hide Bits.Members, BlockOk, Liberties, Border, GroupOf, PoolShape, Covered, GroupsAlive, TrialRecord, Elems;
      ghost var g, b, c, pool0 := rules.g, boardState[..], currentPlayer, blockPool[..];
      OpenFirst(g, b, c, to, groups, dieId, blockPool[blk]);
      for i := 0 to |dieId|
        invariant SamePool(pool0, blockPool[..], blk) && PoolShape(blockPool[..], words)
        invariant OpenedRecord(g, b, c, to, groups, dieId, i, blockPool[blk])
      {
        ghost var rec, pool1 := blockPool[blk], blockPool[..];
        PoolShapeAt(pool1, words);
        BlockParts(g, b, pool0[dieId[i]], groups[dieId[i]]);
        blockPool[blk] := AddDyingStones(blockPool[blk], blockPool[dieId[i]], words);
        OpenStep(g, b, c, to, groups, dieId, i, rec, blockPool[blk]);
        PoolShapeUpdate(pool1, blockPool[..], blk, words);
      }
      SamePoolKeepsBlocks(g, b, pool0, blockPool[..], groups, blk);
    }

    // ---------- hashes of positions not on the board ----------

    /** Takes the stones of block `blk` out of hash `h0`, walking its list. */
    method XorBlock(h0: Zobrist.Hash, blk: int, ghost b1: Board, ghost R: set<int>) returns (h: Zobrist.Hash)
      requires Sized() && Linked() && blk in groups && |b1| == |rules.g|
      requires blockPool[blk].color == Opponent(currentPlayer)
      requires Elems(groups[blk]) !! R && forall q :: q in groups[blk] ==> 0 <= q < |b1| && b1[q] == Opponent(currentPlayer)
      requires h0 == Zobrist.HashOf(rules.z, Remove(b1, R), Opponent(currentPlayer))
      ensures h == Zobrist.HashOf(rules.z, Remove(b1, R + Elems(groups[blk])), Opponent(currentPlayer))
    {
      hide Bits.Members, Zobrist.Xor, Zobrist.HashOf, Liberties, Border, IsGroup, Elems, Remove;
      ghost var ord, k := groups[blk], 0;
      assert ListOk(stones[..], ord, blk);
      h := h0;
      var id := blockPool[blk].head;
      assert R + Elems(ord[..0]) == R by { ElemsEmpty(); }
      while true
        invariant 0 <= k < |ord| && id == ord[k]
        invariant h == Zobrist.HashOf(rules.z, Remove(b1, R + Elems(ord[..k])), Opponent(currentPlayer))
        decreases |ord| - k
      {
        ElemsPrefix(ord, k);
        assert id in ord;
        assert id !in R + Elems(ord[..k]) by { NotInPrefix(ord, k); ElemsHas(ord, id); }
        assert R + Elems(ord[..k + 1]) == (R + Elems(ord[..k])) + {id};
        Zobrist.RemoveStone(rules.z, b1, R + Elems(ord[..k]), id, Opponent(currentPlayer), Opponent(currentPlayer));
        h := Zobrist.Xor(h, Zobrist.StoneWeight(rules.z, Opponent(currentPlayer), id));
        assert k < |ord| - 1 ==> stones[id].nextId == ord[k + 1] && ord[k] != ord[k + 1];
        if id == stones[id].nextId {
          break;
        }
        id := stones[id].nextId;
        k := k + 1;
      }
      assert ord[..k + 1] == ord;
    }

    /** The hash with the stone on the board and the turn passed on. */
    method StoneHash(to: int) returns (h: Zobrist.Hash)
      requires Sized() && 0 <= to < |rules.g| && boardState[to] == Empty && IsPlayer(currentPlayer)
      requires zobristHashValue == Zobrist.HashOf(rules.z, boardState[..], currentPlayer)
      ensures h == Zobrist.HashOf(rules.z, boardState[..][to := currentPlayer], Opponent(currentPlayer))
    {
      hide Zobrist.Xor, Zobrist.HashOf, Zobrist.TurnWeight, Zobrist.StoneWeight, ValidGraph;
      Zobrist.PlaceStone(rules.z, boardState[..], currentPlayer, to);
      h := zobristHashValue;
      h := Zobrist.Xor(h, Zobrist.TurnWeight(rules.z, currentPlayer));
      h := Zobrist.Xor(h, Zobrist.TurnWeight(rules.z, Opponent(currentPlayer)));
      h := Zobrist.Xor(h, Zobrist.StoneWeight(rules.z, currentPlayer, to));
    }

    /** The hash of the position after playing `to`, given the blocks the move takes. */
    method NewHash(to: int, dieId: seq<int>) returns (h: Zobrist.Hash)
      requires Sized() && Linked() && 0 <= to < |rules.g| && boardState[to] == Empty
      requires zobristHashValue == Zobrist.HashOf(rules.z, boardState[..], currentPlayer)
      requires Increasing(dieId)
      requires forall id :: id in dieId <==> Dying(rules.g, boardState[..], currentPlayer, to, blockPool[..], groups, id)
      ensures h == Zobrist.HashOf(rules.z, Play(rules.g, boardState[..], currentPlayer, to), Opponent(currentPlayer))
    {
      hide Bits.Members, Zobrist.Xor, Zobrist.HashOf, Liberties, Border, IsGroup, Captured, Dying, Remove, BlockOk,
        MoveState, Covered, GroupsAlive, PoolShape, Forest, Elems, ValidGraph, Zobrist.TurnWeight, Zobrist.StoneWeight,
        Disjoint, ValidBoard;
      ghost var g, b, c, pool, F := rules.g, boardState[..], currentPlayer, blockPool[..], groups;
      ghost var b1 := b[to := c];
      StateForMove(to);
      DyingAreCaptured(g, b, c, to, pool, F, dieId);
      ForestDisjoint(stones[..], F);
      h := StoneHash(to);
      Zobrist.RemoveNothing(b1);
      for j := 0 to |dieId|
        invariant h == Zobrist.HashOf(rules.z, Remove(b1, StonesOf(F, dieId, j)), Opponent(c))
      {
        DyingBlock(g, b, c, to, pool, F, dieId, j);
        h := XorBlock(h, dieId[j], b1, StonesOf(F, dieId, j));
      }
    }

    lemma DyingBlock(g: Graph, b: Board, c: Color, to: int, pool: seq<GoBlock>, F: Groups, dieId: seq<int>, j: nat)
      requires MoveState(g, b, c, to, pool, F) && Increasing(dieId) && Disjoint(F) && j < |dieId|
      requires forall id :: id in dieId <==> Dying(g, b, c, to, pool, F, id)
      ensures forall i :: 0 <= i < |dieId| ==> dieId[i] in F
      ensures 0 <= dieId[j] < |pool| && pool[dieId[j]].color == Opponent(c)
      ensures forall q :: q in F[dieId[j]] ==> 0 <= q < |b| && b[to := c][q] == Opponent(c)
      ensures Elems(F[dieId[j]]) !! StonesOf(F, dieId, j)
      ensures StonesOf(F, dieId, j + 1) == StonesOf(F, dieId, j) + Elems(F[dieId[j]])
    {
      hide MoveState, Dying;
      assert dieId[j] in dieId;
      DyingStones(g, b, c, to, pool, F, dieId[j]);
      DyingInPool(g, b, c, to, pool, F, dieId[j]);
      forall i | 0 <= i < |dieId| ensures dieId[i] in F { assert dieId[i] in dieId; DyingStones(g, b, c, to, pool, F, dieId[i]); }
      StonesOfCount(F, dieId, j);
    }

    lemma DyingInPool(g: Graph, b: Board, c: Color, to: int, pool: seq<GoBlock>, F: Groups, id: int)
      requires MoveState(g, b, c, to, pool, F) && Dying(g, b, c, to, pool, F, id)
      ensures 0 <= id < |pool|
    {}

    // ---------- legal moves ----------

    method HasLiberty(i: int) returns (r: bool)
      requires Sized() && 0 <= i < |rules.g|
      ensures r <==> HasEmptyNeighbour(rules.g, boardState[..], i)
    {
      var libCnt := 0;
      ghost var ns := rules.g[i];
      assert forall k :: 0 <= k < |ns| ==> ns[k] in rules.g[i];
      for j := 0 to |rules.g[i]|
        invariant libCnt == 0
        invariant forall k :: 0 <= k < j ==> boardState[ns[k]] != Empty
      {
        var nb := rules.g[i][j];
        assert Adj(rules.g, i, nb);
        if boardState[nb] == Empty {
          libCnt := libCnt + 1;
          break;
        }
      }
      if libCnt == 0 {
        assert forall q :: 0 <= q < |rules.g| && Adj(rules.g, i, q) ==> boardState[q] != Empty;
      }
      return libCnt > 0;
    }

    /** Decides one point, playing it on the scratch block `blk` when it has no empty neighbour. */
    method CheckPoint(blk: int, i: int)
      requires Sized() && Linked() && 0 <= blk < cap && blk !in groups && 0 <= i < |rules.g|
      requires zobristHashValue == Zobrist.HashOf(rules.z, boardState[..], currentPlayer)
      requires !legalMoveMap[i]
      modifies blockPool, stones, legalMoveMap
      ensures Linked() && SamePool(old(blockPool[..]), blockPool[..], blk)
      ensures blockPool[blk].inUse ==> old(blockPool[blk]).inUse
      ensures legalMoveMap[..] == old(legalMoveMap[..])[i := legalMoveMap[i]]
      ensures legalMoveMap[i] == LegalPoint(rules, Now(), i)
    {
      hide Bits.Members, BlockOk, Border, GroupOf, Covered, GroupsAlive, Captured, PoolShape, Dying, Forest, ValidGraph,
        Zobrist.HashOf, SameLinks, AllAlive, ValidBoard, NotSuicide;
      if Empty != boardState[i] {
        return;
      }
      if koPosition == i {
        return;
      }
      var hasLiberty := HasLiberty(i);
      legalMoveMap[i] := true;
      if hasLiberty {
        return;
      }
      ghost var g, b, c, pool0 := rules.g, boardState[..], currentPlayer, blockPool[..];
      var cnt, nbId, dieId := TryMove(blk, i, |rules.g|);
      StateForMove(i);
      SuicideTest(g, b, c, i, blockPool[blk]);
      ghost var pool1 := blockPool[..];
      blockPool[blk] := blockPool[blk].CountLiberty();
      CachedLiberty(pool1, blockPool[..], blk, words);
      SamePoolKeepsBlocks(g, b, pool1, blockPool[..], groups, blk);
      if blockPool[blk].liberty <= 0 {
        legalMoveMap[i] := false;
        return;
      }
      if rules.superko {
        DyingSame(g, b, c, i, pool0, blockPool[..], groups, blk);
        var newHash := NewHash(i, dieId);
        if newHash in boardHashStates {
          legalMoveMap[i] := false;
        }
      }
    }

    method CheckPoints(blk: int)
      requires Sized() && Linked() && 0 <= blk < cap && blk !in groups && !blockPool[blk].inUse
      requires zobristHashValue == Zobrist.HashOf(rules.z, boardState[..], currentPlayer)
      modifies blockPool, stones, legalMoveMap
      ensures Linked() && SamePool(old(blockPool[..]), blockPool[..], blk) && !blockPool[blk].inUse
      ensures ExactMap(rules, Now(), legalMoveMap[..])
    {
      hide Bits.Members, BlockOk, Liberties, Border, GroupOf, Covered, GroupsAlive, PoolShape, Forest, ValidGraph,
        Zobrist.HashOf, AllAlive, ValidBoard, LegalPoint, BlocksOk;
      ghost var pos, b, pool0 := Now(), boardState[..], blockPool[..];
      forall i | 0 <= i < |rules.g| { legalMoveMap[i] := false; }
      assert boardState[..] == b && blockPool[..] == pool0 && stones[..] == old(stones[..]);
      for i := 0 to |rules.g|
        invariant boardState[..] == b && Linked() && Now() == pos
        invariant SamePool(pool0, blockPool[..], blk) && !blockPool[blk].inUse
        invariant forall j :: 0 <= j < i ==> legalMoveMap[j] == LegalPoint(rules, pos, j)
        invariant forall j :: i <= j < |rules.g| ==> !legalMoveMap[j]
      {
        ghost var pool1, map1 := blockPool[..], legalMoveMap[..];
        CheckPoint(blk, i);
        SamePoolTransitive(pool0, pool1, blockPool[..], blk);
        assert forall j :: 0 <= j < |rules.g| && j != i ==> legalMoveMap[..][j] == map1[j];
      }
    }

    /** Recomputes the map of legal points. */
    method GetSensibleMove()
      requires Sized() && Core() && |groups| < cap
      modifies this`recycledBlocks, this`blockInUse, blockPool, stones, legalMoveMap
      ensures Core() && Linked() && zobristHashValue == Zobrist.HashOf(rules.z, boardState[..], currentPlayer)
      ensures boardState[..] == old(boardState[..])
      ensures blockInUse == old(blockInUse) || blockInUse == |groups| + 1
      ensures ExactMap(rules, Now(), legalMoveMap[..])
    {
      hide Bits.Members, BlockOk, Liberties, Border, GroupOf, Covered, GroupsAlive, PoolShape, Forest, ValidGraph,
        Zobrist.HashOf, AllAlive, ValidBoard, LegalPoint, AllocOk, Counted, BlocksOk, Disjoint, InUseExact;
      ghost var b, lc0, pool0 := boardState[..], libertyCount[..], blockPool[..];
      var blkId := CheckOutBlock();
      assert {blkId} - {blkId} == {} && boardState[..] == b;
      ghost var pool1 := blockPool[..];
      CheckPoints(blkId);
      assert boardState[..] == b;
      SamePoolTransitive(pool0, pool1, blockPool[..], blkId);
      ghost var pool2, st2, map2 := blockPool[..], stones[..], legalMoveMap[..];
      RecycleBlock(blkId, {blkId});
      assert boardState[..] == b && libertyCount[..] == lc0 && stones[..] == st2 && legalMoveMap[..] == map2;
      FreePool(pool2, blockPool[..], blkId, words);
      SamePoolKeepsBlocks(rules.g, b, pool2, blockPool[..], groups, blkId);
      SamePoolTransitive(pool0, pool2, blockPool[..], blkId);
      SamePoolInUse(pool0, blockPool[..], groups, blkId);
    }

    // ---------- moves ----------

    /** Splices block `id` in front of block `blk`. */
    method MergeBlocks(blk: int, id: int)
      requires Sized() && Forest(stones[..], groups) && blk in groups && id in groups && blk != id
      requires 0 <= blk < cap && 0 <= id < cap
      requires blockPool[blk].head == groups[blk][0] && blockPool[blk].tail == Last(groups[blk])
      requires blockPool[id].head == groups[id][0] && blockPool[id].tail == Last(groups[id])
      modifies blockPool, stones, this`groups
      ensures groups == (old(groups) - {id})[blk := old(groups)[id] + old(groups)[blk]]
      ensures Forest(stones[..], groups)
      ensures blockPool[..] == old(blockPool[..])[blk := old(blockPool[blk]).(head := groups[blk][0])]
    {
      hide Bits.Members, Disjoint;
      ghost var st := stones[..];
      SpliceKeepsForest(st, groups, id, blk);
      assert ListOk(st, groups[id], id) && ListOk(st, groups[blk], blk);
      assert blockPool[id].tail != blockPool[blk].head && blockPool[id].tail != blockPool[blk].tail by {
        HeadsApart(st, groups, id, blk);
      }
      stones[blockPool[id].tail] := stones[blockPool[id].tail].(nextId := stones[blockPool[blk].head].selfId);
      blockPool[blk] := blockPool[blk].(head := blockPool[id].head);
      stones[blockPool[id].tail] := stones[blockPool[id].tail].(parentId := stones[blockPool[blk].tail].selfId);
      assert stones[..] == Spliced(st, Last(groups[id]), groups[blk][0], Last(groups[blk]));
      groups := (groups - {id})[blk := groups[id] + groups[blk]];
    }

    /** Merges own block `id` into the new block and gives its record back. */
    method JoinBlock(blk: int, id: int)
      requires Sized() && Forest(stones[..], groups) && InUseExact(blockPool[..], groups)
      requires AllocOk(recycledBlocks, blockInUse, groups, {}, cap)
      requires blk in groups && id in groups && blk != id && 0 <= blk < cap && 0 <= id < cap
      requires blockPool[blk].head == groups[blk][0] && blockPool[blk].tail == Last(groups[blk])
      requires blockPool[id].head == groups[id][0] && blockPool[id].tail == Last(groups[id])
      modifies blockPool, stones, this`groups, this`recycledBlocks
      ensures Forest(stones[..], groups) && InUseExact(blockPool[..], groups)
      ensures AllocOk(recycledBlocks, blockInUse, groups, {}, cap)
      ensures groups == (old(groups) - {id})[blk := old(groups)[id] + old(groups)[blk]]
      ensures blockPool[..] == old(blockPool[..])[blk := old(blockPool[blk]).(head := groups[blk][0])]
                                                 [id := old(blockPool[id]).(inUse := false)]
    {
      hide Bits.Members, Forest, AllocOk, ValidRules;
      MergeBlocks(blk, id);
      ghost var st1 := stones[..];
      Retire(recycledBlocks, blockInUse, old(groups), {}, cap, id);
      Relist(recycledBlocks, blockInUse, old(groups) - {id}, {id}, cap, blk, groups[blk]);
      assert {} + {id} == {id} && {id} - {id} == {};
      RecycleBlock(id, {id});
      assert stones[..] == st1;
    }

    /** One neighbouring block: it loses the liberty `to`; an own one joins the new block. */
    method MergeNeighbour(blk: int, id: int, to: int)
      requires Sized() && Forest(stones[..], groups) && PoolShape(blockPool[..], words) && InUseExact(blockPool[..], groups)
      requires AllocOk(recycledBlocks, blockInUse, groups, {}, cap)
      requires blk in groups && id in groups && blk != id && 0 <= to < |rules.g| && 0 <= blk < cap && 0 <= id < cap
      requires blockPool[blk].head == groups[blk][0] && blockPool[blk].tail == Last(groups[blk])
      requires blockPool[id].head == groups[id][0] && blockPool[id].tail == Last(groups[id])
      modifies blockPool, stones, visitedPositions, this`groups, this`recycledBlocks
      ensures Forest(stones[..], groups) && PoolShape(blockPool[..], words) && InUseExact(blockPool[..], groups)
      ensures AllocOk(recycledBlocks, blockInUse, groups, {}, cap)
      ensures visitedPositions[..] == old(visitedPositions[..])[id := timestamp]
      ensures forall i :: 0 <= i < cap && i != blk && i != id ==> blockPool[i] == old(blockPool[i])
      ensures blockPool[id] == old(blockPool[id]).(libertyState := blockPool[id].libertyState, inUse := blockPool[id].inUse)
      ensures blockPool[id].Libs() == old(blockPool[id].Libs()) - {to}
      ensures currentPlayer != old(blockPool[id]).color ==>
                groups == old(groups) && blockPool[blk] == old(blockPool[blk]) && blockPool[id].inUse == old(blockPool[id].inUse)
      ensures currentPlayer == old(blockPool[id]).color ==>
                && groups == (old(groups) - {id})[blk := old(groups)[id] + old(groups)[blk]]
                && blockPool[blk] == old(blockPool[blk]).(head := groups[blk][0])
    {
      hide Bits.Members, Forest, AllocOk, ValidRules, InUseExact, PoolShape;
      ghost var pool0, st0 := blockPool[..], stones[..];
      PoolShapeAt(pool0, words);
      visitedPositions[id] := timestamp;
      blockPool[id] := blockPool[id].ResetLiberty(to);
      PoolShapeUpdate(pool0, blockPool[..], id, words);
      ghost var pool1 := blockPool[..];
      InUseSame(pool0, pool1, groups);
      assert stones[..] == st0;
      if currentPlayer == blockPool[id].color {
        JoinBlock(blk, id);
        PoolShapeTwo(pool1, blockPool[..], blk, id, words);
      }
    }

    /** The lists, forest and pool between two steps of a move. */
    ghost predicate Stored()
      reads this`groups, this`recycledBlocks, this`blockInUse, stones, blockPool
      requires Sized()
    {
      && Forest(stones[..], groups) && PoolShape(blockPool[..], words) && InUseExact(blockPool[..], groups)
      && AllocOk(recycledBlocks, blockInUse, groups, {}, cap)
    }

    /** The new block goes live with the played stone as its only member. */
    method GoLive(blk: int, to: int)
      requires Sized() && Linked() && InUseExact(blockPool[..], groups)
      requires AllocOk(recycledBlocks, blockInUse, groups, {blk}, cap)
      requires 0 <= blk < cap && blk !in groups && 0 <= to < |rules.g| && boardState[to] == Empty
      modifies blockPool, stones, visitedPositions, this`groups
      ensures Stored() && groups == old(groups)[blk := [to]]
      ensures blockPool[..] == old(blockPool[..])[blk := old(blockPool[blk]).(inUse := true, head := to, tail := to)]
      ensures visitedPositions[..] == old(visitedPositions[..])
    {
      hide Bits.Members, Forest, AllocOk, ValidRules, BlockOk, Covered, GroupsAlive, Liberties, ValidBoard;
      ghost var st, pool0 := stones[..], blockPool[..];
      EmptyNotOwned(rules.g, boardState[..], blockPool[..], groups, to);
      AddKeepsForest(st, groups, blk, to);
      MakeLive(recycledBlocks, blockInUse, groups, {blk}, cap, blk, [to]);
      assert {blk} - {blk} == {};
      stones[to] := stones[to].Reset(blk);
      assert stones[..] == st[to := st[to].Reset(blk)];
      ghost var st1 := stones[..];
      blockPool[blk] := blockPool[blk].(inUse := true);
      blockPool[blk] := blockPool[blk].(head := to, tail := to);
      assert stones[..] == st1;
      groups := groups[blk := [to]];
    }

    /** Places the stone's records and merges the own blocks around it. */
    method PlaceAndMerge(blk: int, to: int, nbId: seq<int>)
      requires Sized() && Linked() && InUseExact(blockPool[..], groups)
      requires AllocOk(recycledBlocks, blockInUse, groups, {blk}, cap)
      requires 0 <= blk < cap && blk !in groups && 0 <= to < |rules.g| && boardState[to] == Empty
      requires Increasing(nbId) && Elems(nbId) == Near(rules.g, groups, to)
      requires TrialRecord(rules.g, blockPool[blk], currentPlayer, GroupOf(rules.g, boardState[..][to := currentPlayer], to),
                           Liberties(rules.g, Play(rules.g, boardState[..], currentPlayer, to), GroupOf(rules.g, boardState[..][to := currentPlayer], to)))
      modifies blockPool, stones, visitedPositions, this`groups, this`recycledBlocks
      ensures Stored()
      ensures Mid(rules.g, boardState[..][to := currentPlayer], Play(rules.g, boardState[..], currentPlayer, to),
                  blockPool[..], groups, blk, {}, currentPlayer)
      ensures Covered(boardState[..][to := currentPlayer], groups)
      ensures Elems(groups[blk]) == GroupOf(rules.g, boardState[..][to := currentPlayer], to)
      ensures blockPool[blk].head == groups[blk][0]
      ensures Untouched(rules.g, boardState[..], blockPool[..], groups, visitedPositions[..], timestamp)
      ensures forall id :: id in old(groups) && 0 <= id < cap && old(blockPool[..])[id].color != currentPlayer ==>
                id in groups && groups[id] == old(groups)[id]
      ensures forall id :: id in groups && id != blk ==> id in old(groups) && groups[id] == old(groups)[id]
      ensures forall i :: 0 <= i < cap ==> visitedPositions[i] == old(visitedPositions[i]) || visitedPositions[i] == timestamp
      ensures visitedPositions[blk] == timestamp
      ensures forall id :: id in groups && 0 <= id < cap ==> blockPool[..][id].color == old(blockPool[..])[id].color
    {
      hide Bits.Members, Forest, AllocOk, ValidRules, BlockOk, Covered, GroupsAlive, Liberties, Border, GroupOf, TrialRecord,
        MoveState, Joined, InUseExact, PoolShape, BlocksOk, Elems, Captured, MergedLists, MergedPool, Mid, Untouched;
      ghost var g, b, c, F0, pool0 := rules.g, boardState[..], currentPlayer, groups, blockPool[..];
      StateForMove(to);
      NearIdsRange(g, b, c, to, pool0, F0, nbId);
      BlocksInRange(g, b, pool0, F0);
      FirstLists(g, F0, pool0, nbId, blk, c, to);
      GoLive(blk, to);
      MergeAll(blk, to, nbId, F0, pool0, b);
      visitedPositions[blk] := timestamp;
      MergedEnds(F0, pool0, groups, blockPool[..], nbId, blk, c, to);
      ForestList(stones[..], groups, blk);
      MergedMid(g, b, c, to, pool0, F0, groups, blockPool[..], nbId, blk, visitedPositions[..], timestamp);
      MergedCovers(g, b, c, to, pool0, F0, groups, nbId, blk);
    }

    /** Visits all neighbouring blocks of the new block. */
    method MergeAll(blk: int, to: int, nbId: seq<int>, ghost F0: Groups, ghost pool0: seq<GoBlock>, ghost b: Board)
      requires Sized() && Stored() && 0 <= blk < cap && blk !in F0 && |pool0| == cap
      requires MoveState(rules.g, b, currentPlayer, to, pool0, F0) && IdsIn(F0, pool0, nbId)
      requires Increasing(nbId) && Elems(nbId) == Near(rules.g, F0, to) && 0 <= to < |rules.g|
      requires MergedLists(F0, pool0, groups, nbId, 0, blk, currentPlayer, to)
      requires MergedPool(pool0, groups, blockPool[..], nbId, 0, blk, to)
      modifies blockPool, stones, visitedPositions, this`groups, this`recycledBlocks
      ensures Stored()
      ensures MergedLists(F0, pool0, groups, nbId, |nbId|, blk, currentPlayer, to)
      ensures MergedPool(pool0, groups, blockPool[..], nbId, |nbId|, blk, to)
      ensures forall j :: 0 <= j < |nbId| ==> 0 <= nbId[j] < cap && visitedPositions[nbId[j]] == timestamp
      ensures forall j :: 0 <= j < cap ==> visitedPositions[j] == old(visitedPositions[j]) || visitedPositions[j] == timestamp
    {
      hide Bits.Members, Forest, AllocOk, ValidRules, BlockOk, MoveState, Joined, InUseExact, PoolShape, Elems, MergedLists;
      ghost var v0 := visitedPositions[..];
      for i := 0 to |nbId|
        invariant Stored()
        invariant MergedLists(F0, pool0, groups, nbId, i, blk, currentPlayer, to)
        invariant MergedPool(pool0, groups, blockPool[..], nbId, i, blk, to)
        invariant forall j :: 0 <= j < i ==> 0 <= nbId[j] < cap && visitedPositions[nbId[j]] == timestamp
        invariant forall j :: 0 <= j < cap ==> visitedPositions[j] == v0[j] || visitedPositions[j] == timestamp
      {
        var id := nbId[i];
        ghost var F1, pool1 := groups, blockPool[..];
        MergeListsNext(F0, pool0, groups, nbId, i, blk, currentPlayer, to);
        if pool0[id].color == currentPlayer {
          MergeListsOwn(F0, pool0, groups, nbId, i, blk, currentPlayer, to);
        } else {
          MergeListsOther(F0, pool0, groups, nbId, i, blk, currentPlayer, to);
        }
        MergedTail(F0, pool0, groups, nbId, i, blk, currentPlayer, to);
        NearFacts(rules.g, b, currentPlayer, to, pool0, F0, nbId, id);
        BlockEnds(rules.g, b, pool0[id], F0[id]);
        MergeNeighbour(blk, id, to);
        MergePoolStep(F0, pool0, F1, pool1, groups, blockPool[..], nbId, i, blk, to);
      }
    }

    /** Some captured stones are off: `x` is the board with the new stone (which the array does
        not show yet), `play` the board the move leads to, `b` and `lc0` the board and the liberty
        counts before the move. */
    ghost predicate Capturing(x: Board, play: Board, b: Board, lc0: seq<int>, blk: int, to: int, dead: set<int>)
      reads this`groups, this`recycledBlocks, this`blockInUse, this`currentPlayer, this`zobristHashValue, this`timestamp,
        boardState, stones, blockPool, libertyCount, visitedPositions
      requires Sized()
    {
      && IsPlayer(currentPlayer) && |x| == |play| == |lc0| == |rules.g| && 0 <= to < |x|
      && Stored()
      && Mid(rules.g, x, play, blockPool[..], groups, blk, dead, currentPlayer) && to in groups[blk]
      && boardState[..] == x[to := Empty] && x[to] == currentPlayer
      && Covered(x, groups)
      && zobristHashValue == Zobrist.HashOf(rules.z, x, Opponent(currentPlayer))
      && Untouched(rules.g, b, blockPool[..], groups, visitedPositions[..], timestamp)
      && (forall p :: 0 <= p < |x| && p != to ==> libertyCount[p] == if x[p] == Empty then 0 else lc0[p])
      && 0 <= blk < cap && visitedPositions[blk] == timestamp
      && (forall i :: 0 <= i < cap ==> visitedPositions[i] <= timestamp)
    }

    method OpenAt(nb: int, t: int, ghost pool0: seq<GoBlock>, ghost v0: seq<int>, ghost Q: set<int>)
      requires Sized() && Stored() && 0 <= t < |rules.g| && 0 <= nb < |rules.g|
      requires forall id :: id in groups ==> 0 <= id < cap
      requires boardState[nb] != Empty && Owned(groups, nb)
      requires OpenedPool(pool0, blockPool[..], groups, Owners(groups, Q), t)
      requires Stamped(v0, visitedPositions[..], Owners(groups, Q), timestamp)
      modifies blockPool, stones, visitedPositions
      ensures Stored()
      ensures OpenedPool(pool0, blockPool[..], groups, Owners(groups, Q + {nb}), t)
      ensures Stamped(v0, visitedPositions[..], Owners(groups, Q + {nb}), timestamp)
    {
      hide Bits.Members, Forest, AllocOk, ValidRules, InUseExact, PoolShape, Owners, OpenedPool, Stamped;
      ForestDisjoint(stones[..], groups);
      var bid := GetBlockIdByCoord(nb);
      OwnersStep(groups, Q, nb, bid);
      ghost var st1, pool1, v1 := stones[..], blockPool[..], visitedPositions[..];
      PoolShapeAt(pool1, words);
      visitedPositions[bid] := timestamp;
      blockPool[bid] := blockPool[bid].SetLiberty(t);
      assert stones[..] == st1;
      PoolShapeUpdate(pool1, blockPool[..], bid, words);
      InUseSame(pool1, blockPool[..], groups);
      OpenOne(pool0, pool1, blockPool[..], groups, Owners(groups, Q), bid, t);
      StampOne(v0, v1, Owners(groups, Q), bid, timestamp);
      assert visitedPositions[..] == v1[bid := timestamp];
    }

    /** The emptied point `t` becomes a liberty of the own blocks next to it. */
    method OpenLiberty(t: int)
      requires Sized() && Stored() && 0 <= t < |rules.g|
      requires forall id :: id in groups ==> 0 <= id < cap
      requires currentPlayer != Empty
      requires forall q :: 0 <= q < |rules.g| && boardState[q] == currentPlayer ==> Owned(groups, q)
      modifies blockPool, stones, visitedPositions
      ensures Stored()
      ensures OpenedPool(old(blockPool[..]), blockPool[..], groups,
                Owners(groups, OwnAmong(boardState[..], Elems(rules.g[t]), currentPlayer)), t)
      ensures Stamped(old(visitedPositions[..]), visitedPositions[..],
                Owners(groups, OwnAmong(boardState[..], Elems(rules.g[t]), currentPlayer)), timestamp)
    {
      assert forall q :: q in rules.g[t] ==> 0 <= q < |rules.g|;
      hide Bits.Members, Forest, AllocOk, ValidRules, ValidGraph, OwnAmong, Owners, InUseExact, PoolShape, Disjoint,
        OpenedPool, Stamped;
      ghost var b, ns, c, pool0, v0 := boardState[..], rules.g[t], currentPlayer, blockPool[..], visitedPositions[..];
      assert Elems(ns[..0]) == {};
      OwnAmongNone(b, Elems(ns[..0]), c);
      NoOwners(groups, OwnAmong(b, Elems(ns[..0]), c));
      OpenNone(pool0, groups, {}, t);
      StampNone(v0, {}, timestamp);
      hide Elems;
      for j := 0 to |rules.g[t]|
        invariant Stored() && boardState[..] == b
        invariant OpenedPool(pool0, blockPool[..], groups, Owners(groups, OwnAmong(b, Elems(ns[..j]), c)), t)
        invariant Stamped(v0, visitedPositions[..], Owners(groups, OwnAmong(b, Elems(ns[..j]), c)), timestamp)
      {
        var nb := rules.g[t][j];
        assert nb in rules.g[t];
        ElemsPrefix(ns, j);
        OwnAmongStep(b, Elems(ns[..j]), nb, c);
        if currentPlayer == boardState[nb] {
          OpenAt(nb, t, pool0, v0, OwnAmong(b, Elems(ns[..j]), c));
        }
      }
      assert ns[..|ns|] == ns;
    }

    /** Takes one captured stone off. */
    method TakeStone(t: int, ghost x: Board, ghost play: Board, ghost b: Board, ghost lc0: seq<int>, ghost blk: int,
                     ghost to: int, ghost dead: set<int>, ghost d: int)
      requires Sized() && Capturing(x, play, b, lc0, blk, to, dead)
      requires d in groups && d in dead && t in groups[d] && 0 <= t < |x| && x[t] == Opponent(currentPlayer)
      requires play[t] == Empty
      modifies boardState, stones, blockPool, libertyCount, visitedPositions, this`zobristHashValue
      ensures Capturing(x[t := Empty], play, b, lc0, blk, to, dead)
    {
      hide Bits.Members, Forest, AllocOk, ValidGraph, InUseExact, PoolShape, Mid, Untouched, OpenedPool, Stamped, Owners,
        OwnAmong, Zobrist.HashOf, Zobrist.Xor, Elems;
      ghost var g, c, pool0, v0, lc1 := rules.g, currentPlayer, blockPool[..], visitedPositions[..], libertyCount[..];
      ghost var ids := Owners(groups, OwnAmong(boardState[..], Elems(g[t]), c));
      ForestDisjoint(stones[..], groups);
      MidRange(g, x, play, pool0, groups, blk, dead, c);
      OpenLiberty(t);
      TakeStep(g, x, play, pool0, blockPool[..], groups, blk, dead, c, to, d, t);
      UntouchedStep(g, b, pool0, blockPool[..], groups, ids, t, v0, visitedPositions[..], timestamp);
      StampedBelow(v0, visitedPositions[..], ids, timestamp);
      StampedKeeps(v0, visitedPositions[..], ids, timestamp, blk);
      TakenHash(rules.z, x, t, c);
      ghost var st1, pool1, v1, b1 := stones[..], blockPool[..], visitedPositions[..], boardState[..];
      boardState[t] := Empty;
      libertyCount[t] := 0;
      zobristHashValue := Zobrist.Xor(zobristHashValue, Zobrist.StoneWeight(rules.z, Opponent(currentPlayer), t));
      assert boardState[..] == b1[t := Empty] == x[t := Empty][to := Empty];
      assert stones[..] == st1 && blockPool[..] == pool1 && visitedPositions[..] == v1;
      CoveredLess(x, t, groups);
    }

    /** Takes one captured block off, walking its list, and gives its record back. */
    method TakeBlock(d: int, ghost x: Board, ghost play: Board, ghost b: Board, ghost lc0: seq<int>, ghost blk: int,
                     ghost to: int, ghost dead: set<int>)
      requires Sized() && Capturing(x, play, b, lc0, blk, to, dead)
      requires d in groups && d in dead
      requires forall q :: q in groups[d] ==> 0 <= q < |x| && x[q] == Opponent(currentPlayer) && play[q] == Empty
      modifies boardState, stones, blockPool, libertyCount, visitedPositions, this`zobristHashValue,
        this`groups, this`recycledBlocks
      ensures groups == old(groups) - {d}
      ensures Capturing(Remove(x, Elems(old(groups[d]))), play, b, lc0, blk, to, dead)
    {
      hide Bits.Members, Capturing, ValidRules, Mid, Remove;
      ghost var ord, k := groups[d], 0;
      CapturingList(x, play, b, lc0, blk, to, dead, d);
      var id := blockPool[d].head;
      assert ord[..0] == [];
      ElemsEmpty();
      Zobrist.RemoveNothing(x);
      while true
        invariant groups == old(groups) && 0 <= k < |ord| && id == ord[k]
        invariant Capturing(Remove(x, Elems(ord[..k])), play, b, lc0, blk, to, dead)
        decreases |ord| - k
      {
        assert id in ord;
        ElemsPrefix(ord, k);
        NotInPrefix(ord, k);
        TakeOne(x, Elems(ord[..k]), id);
        TakeStone(id, Remove(x, Elems(ord[..k])), play, b, lc0, blk, to, dead, d);
        CapturingList(Remove(x, Elems(ord[..k + 1])), play, b, lc0, blk, to, dead, d);
        assert k < |ord| - 1 ==> stones[id].nextId == ord[k + 1] && ord[k] != ord[k + 1];
        if id == stones[id].nextId {
          break;
        }
        id := stones[id].nextId;
        k := k + 1;
      }
      assert ord[..k + 1] == ord;
      RemovedAll(x, ord);
      FreeDead(d, Remove(x, Elems(ord)), play, b, lc0, blk, to, dead);
    }

    method FreeDead(d: int, ghost x: Board, ghost play: Board, ghost b: Board, ghost lc0: seq<int>, ghost blk: int,
                    ghost to: int, ghost dead: set<int>)
      requires Sized() && Capturing(x, play, b, lc0, blk, to, dead)
      requires d in groups && d in dead && forall q :: q in groups[d] ==> 0 <= q < |x| && x[q] == Empty
      modifies blockPool, this`groups, this`recycledBlocks
      ensures groups == old(groups) - {d}
      ensures Capturing(x, play, b, lc0, blk, to, dead)
    {
      hide Bits.Members, Forest, AllocOk, ValidRules, Mid, Untouched, Zobrist.HashOf, Covered, InUseExact, PoolShape;
      ghost var pool0, st0, v0, b0 := blockPool[..], stones[..], visitedPositions[..], boardState[..];
      PoolShapeAt(pool0, words);
      MidRange(rules.g, x, play, pool0, groups, blk, dead, currentPlayer);
      DropKeepsForest(st0, groups, d);
      Retire(recycledBlocks, blockInUse, groups, {}, cap, d);
      assert {} + {d} == {d} && {d} - {d} == {};
      groups := groups - {d};
      RecycleBlock(d, {d});
      assert stones[..] == st0 && visitedPositions[..] == v0 && boardState[..] == b0;
      PoolShapeUpdate(pool0, blockPool[..], d, words);
      InUseDrop(pool0, blockPool[..], old(groups), d);
      DropDead(rules.g, x, play, pool0, blockPool[..], old(groups), blk, dead, currentPlayer, d, b, v0, timestamp);
    }

    lemma CapturingList(x: Board, play: Board, b: Board, lc0: seq<int>, blk: int, to: int, dead: set<int>, d: int)
      requires Sized() && Capturing(x, play, b, lc0, blk, to, dead) && d in groups
      ensures 0 <= d < cap && |groups[d]| > 0 && NoDup(groups[d]) && blockPool[d].head == groups[d][0]
      ensures forall q :: q in groups[d] ==> 0 <= q < |rules.g|
      ensures forall k :: 0 <= k < |groups[d]| - 1 ==> stones[groups[d][k]].nextId == groups[d][k + 1]
      ensures stones[Last(groups[d])].nextId == Last(groups[d])
      ensures |x| == |play| == |rules.g|
    {
      assert ListOk(stones[..], groups[d], d);
      assert Records(rules.g, blockPool[..][d], groups[d]);
    }

    /** CountLiberty on a block during the captures. */
    method Recount(blk: int, ghost x: Board, ghost play: Board, ghost b: Board, ghost lc0: seq<int>, ghost to: int,
                   ghost dead: set<int>)
      requires Sized() && Capturing(x, play, b, lc0, blk, to, dead) && 0 <= blk < cap
      modifies blockPool
      ensures Capturing(x, play, b, lc0, blk, to, dead)
      ensures blockPool[..] == old(blockPool[..])[blk := old(blockPool[blk]).CountLiberty()]
    {
      hide Bits.Members, Forest, AllocOk, ValidRules, Mid, Untouched, Liberties, Border, Zobrist.HashOf, Covered;
      ghost var pool0, st0, v0, b0 := blockPool[..], stones[..], visitedPositions[..], boardState[..];
      MidCached(rules.g, x, play, pool0, groups, blk, dead, currentPlayer, b, v0, timestamp);
      CachedLiberty(pool0, pool0[blk := pool0[blk].CountLiberty()], blk, words);
      blockPool[blk] := blockPool[blk].CountLiberty();
      assert blockPool[..] == pool0[blk := pool0[blk].CountLiberty()];
      assert stones[..] == st0 && visitedPositions[..] == v0 && boardState[..] == b0;
      InUseSame(pool0, blockPool[..], groups);
    }

    /** Records the ko point when a lone stone with one liberty takes a lone stone. */
    method TestKo(blk: int, d: int, ghost x: Board, ghost play: Board, ghost b: Board, ghost lc0: seq<int>,
                  ghost to: int, ghost dead: set<int>)
      requires Sized() && Capturing(x, play, b, lc0, blk, to, dead) && blk in groups && d in groups && d != blk
      modifies blockPool, this`koPosition
      ensures Capturing(x, play, b, lc0, blk, to, dead)
      ensures koPosition == if LoneCapture(rules.g, play, groups, blk, d) then groups[d][0] else old(koPosition)
    {
      hide Bits.Members, Capturing, Liberties, ValidRules;
      CapturingCounts(x, play, b, lc0, blk, to, dead, d);
      CapturingCounts(x, play, b, lc0, blk, to, dead, blk);
      if 1 == blockPool[d].stoneCount && 1 == blockPool[blk].stoneCount {
        Recount(blk, x, play, b, lc0, to, dead);
        if 1 == blockPool[blk].liberty {
          koPosition := blockPool[d].head;
        }
      }
    }

    lemma CapturingCounts(x: Board, play: Board, b: Board, lc0: seq<int>, blk: int, to: int, dead: set<int>, id: int)
      requires Sized() && Capturing(x, play, b, lc0, blk, to, dead) && id in groups
      ensures 0 <= id < cap && blockPool[id].stoneCount == |groups[id]| > 0 && blockPool[id].head == groups[id][0]
      ensures id == blk ==> blockPool[blk].Libs() == Liberties(rules.g, play, Elems(groups[blk]))
    {
      CapturingList(x, play, b, lc0, blk, to, dead, id);
      MidCounts(rules.g, x, play, blockPool[..], groups, blk, dead, currentPlayer, id);
    }

    /** Takes the `i`-th dying block off. */
    method TakeNext(blk: int, dieId: seq<int>, i: nat, ghost F: Groups, ghost b1: Board, ghost play: Board, ghost b: Board,
                    ghost lc0: seq<int>, ghost to: int)
      requires Sized() && i < |dieId| && blk in groups && blk in F && groups[blk] == F[blk] && blk != dieId[i]
      requires forall j :: 0 <= j < |dieId| ==> dieId[j] in F
      requires Capturing(Remove(b1, StonesOf(F, dieId, i)), play, b, lc0, blk, to, Elems(dieId))
      requires dieId[i] in groups && groups[dieId[i]] == F[dieId[i]] && Disjoint(F) && Increasing(dieId)
      requires Doomed(b1, play, currentPlayer, F[dieId[i]])
      requires KoScan(rules.g, play, F, blk, dieId, i, koPosition) && |F[dieId[i]]| > 0
      requires forall q :: q in F[dieId[i]] ==> q != COORD_UNSET
      modifies boardState, stones, blockPool, libertyCount, visitedPositions, this`zobristHashValue,
        this`groups, this`recycledBlocks, this`koPosition
      ensures Capturing(Remove(b1, StonesOf(F, dieId, i + 1)), play, b, lc0, blk, to, Elems(dieId))
      ensures groups == old(groups) - {dieId[i]}
      ensures KoScan(rules.g, play, F, blk, dieId, i + 1, koPosition)
    {
      hide Bits.Members, Capturing, ValidRules, Remove, Elems, LoneCapture, Liberties;
      ghost var d := dieId[i];
      assert d in dieId && F[d][0] in F[d];
      ElemsHas(dieId, d);
      SameLone(rules.g, play, F, groups, blk, d);
      if LoneCapture(rules.g, play, F, blk, d) { LoneIsOne(rules.g, play, F, blk, d); }
      TestKo(blk, dieId[i], Remove(b1, StonesOf(F, dieId, i)), play, b, lc0, to, Elems(dieId));
      StonesOfCount(F, dieId, i);
      StillThere(b1, StonesOf(F, dieId, i), F[d]);
      TakeBlock(dieId[i], Remove(b1, StonesOf(F, dieId, i)), play, b, lc0, blk, to, Elems(dieId));
      RemoveTwice(b1, StonesOf(F, dieId, i), Elems(F[d]));
    }

    /** Takes all dying blocks off. */
    method TakeDying(blk: int, dieId: seq<int>, ghost b1: Board, ghost play: Board, ghost b: Board, ghost lc0: seq<int>,
                     ghost to: int)
      requires Sized() && Capturing(b1, play, b, lc0, blk, to, Elems(dieId)) && blk in groups && blk !in dieId
      requires Increasing(dieId) && forall j :: 0 <= j < |dieId| ==> dieId[j] in groups
      requires forall j :: 0 <= j < |dieId| ==> Doomed(b1, play, currentPlayer, groups[dieId[j]])
      requires koPosition == COORD_UNSET
      modifies boardState, stones, blockPool, libertyCount, visitedPositions, this`zobristHashValue,
        this`groups, this`recycledBlocks, this`koPosition
      ensures Capturing(Remove(b1, StonesOf(old(groups), dieId, |dieId|)), play, b, lc0, blk, to, Elems(dieId))
      ensures forall id :: id in groups <==> id in old(groups) && id !in dieId
      ensures forall id :: id in groups ==> groups[id] == old(groups)[id]
      ensures KoScan(rules.g, play, old(groups), blk, dieId, |dieId|, koPosition)
    {
      hide Bits.Members, Capturing, ValidRules, Remove, Elems, LoneCapture, KoScan, Doomed, StonesOf;
      ghost var F := groups;
      KoScanNone(rules.g, play, F, blk, dieId);
      CapturingApart(b1, play, b, lc0, blk, to, Elems(dieId));
      Zobrist.RemoveNothing(b1);
      StonesOfNone(F, dieId);
      for i := 0 to |dieId|
        invariant Capturing(Remove(b1, StonesOf(F, dieId, i)), play, b, lc0, blk, to, Elems(dieId))
        invariant forall id :: id in groups <==> id in F && id !in dieId[..i]
        invariant forall id :: id in groups ==> groups[id] == F[id]
        invariant KoScan(rules.g, play, F, blk, dieId, i, koPosition)
      {
        assert dieId[i] in dieId && dieId[i] !in dieId[..i] && dieId[..i + 1] == dieId[..i] + [dieId[i]];
        assert blk !in dieId[..i];
        TakeNext(blk, dieId, i, F, b1, play, b, lc0, to);
      }
      assert dieId[..|dieId|] == dieId;
    }

    lemma NewBlockList(play: Board, b: Board, lc0: seq<int>, blk: int, to: int, dead: set<int>, F1: Groups)
      requires Sized() && Capturing(play, play, b, lc0, blk, to, dead) && blk in F1 && groups[blk] == F1[blk]
      ensures NoDup(F1[blk])
    {
      CapturingList(play, play, b, lc0, blk, to, dead, blk);
    }

    lemma CapturingApart(x: Board, play: Board, b: Board, lc0: seq<int>, blk: int, to: int, dead: set<int>)
      requires Sized() && Capturing(x, play, b, lc0, blk, to, dead)
      ensures Disjoint(groups)
      ensures forall id :: id in groups ==> |groups[id]| > 0 && forall q :: q in groups[id] ==> 0 <= q < |rules.g|
    {
      forall id | id in groups ensures |groups[id]| > 0 && forall q :: q in groups[id] ==> 0 <= q < |rules.g| {
        CapturingList(x, play, b, lc0, blk, to, dead, id);
      }
    }

    /** Writes the liberty count of block `i` on each of its stones, walking its list. */
    method SetLibertyCounts(i: int)
      requires Sized() && Stored() && i in groups && 0 <= i < cap && blockPool[i].head == groups[i][0]
      modifies libertyCount
      ensures forall q :: q in groups[i] ==> 0 <= q < |rules.g| && libertyCount[q] == blockPool[i].liberty
      ensures forall p :: 0 <= p < |rules.g| && p !in groups[i] ==> libertyCount[p] == old(libertyCount[p])
    {
      ghost var ord, k := groups[i], 0;
      assert ListOk(stones[..], ord, i);
      hide Bits.Members, Forest, AllocOk, ValidRules, InUseExact, PoolShape, Stored;
      var id := blockPool[i].head;
      while true
        invariant 0 <= k < |ord| && id == ord[k]
        invariant forall j :: 0 <= j < k ==> libertyCount[ord[j]] == blockPool[i].liberty
        invariant forall p :: 0 <= p < |rules.g| && p !in ord ==> libertyCount[p] == old(libertyCount[p])
        decreases |ord| - k
      {
        assert id in ord;
        libertyCount[id] := blockPool[i].liberty;
        assert k < |ord| - 1 ==> stones[id].nextId == ord[k + 1] && ord[k] != ord[k + 1];
        if id == stones[id].nextId {
          break;
        }
        id := stones[id].nextId;
        k := k + 1;
      }
    }

    /** Recounts the liberties of all blocks this move touched. */
    method UpdateLibertyCounts(ghost play: Board)
      requires Sized() && Stored() && |play| == |rules.g| && BlocksOk(rules.g, play, blockPool[..], groups)
      modifies blockPool, libertyCount
      ensures Stored() && BlocksOk(rules.g, play, blockPool[..], groups)
      ensures forall id :: id in groups ==> 0 <= id < cap && blockPool[id].Libs() == old(blockPool[..])[id].Libs()
      ensures CountsUpTo(rules.g, play, groups, visitedPositions[..], timestamp, libertyCount[..], blockInUse)
      ensures CountsKept(groups, visitedPositions[..], timestamp, old(libertyCount[..]), libertyCount[..])
    {
      hide Bits.Members, Forest, AllocOk, ValidRules, InUseExact, PoolShape, Liberties, BlocksOk, CountsUpTo, CountsKept;
      ghost var v, st, lc0, pool0 := visitedPositions[..], stones[..], libertyCount[..], blockPool[..];
      BlocksInRange(rules.g, play, pool0, groups);
      UsedRange();
      CountsNone(rules.g, play, groups, v, timestamp, lc0);
      for i := 0 to blockInUse
        invariant Stored() && visitedPositions[..] == v && 0 <= blockInUse <= cap
        invariant BlocksOk(rules.g, play, blockPool[..], groups) && SamePool(pool0, blockPool[..], -1)
        invariant CountsUpTo(rules.g, play, groups, v, timestamp, libertyCount[..], i)
        invariant CountsKept(groups, v, timestamp, lc0, libertyCount[..])
      {
        ghost var lc1 := libertyCount[..];
        InUseAt(blockPool[..], groups, i);
        if blockPool[i].inUse && timestamp == visitedPositions[i] {
          CountBlock(i, play, pool0);
        }
        ForestDisjoint(stones[..], groups);
        CountsStep(rules.g, play, groups, v, timestamp, lc0, lc1, libertyCount[..], i);
      }
    }

    method CountBlock(i: int, ghost play: Board, ghost pool0: seq<GoBlock>)
      requires Sized() && Stored() && |play| == |rules.g| && BlocksOk(rules.g, play, blockPool[..], groups)
      requires SamePool(pool0, blockPool[..], -1) && i in groups
      modifies blockPool, libertyCount
      ensures Stored() && BlocksOk(rules.g, play, blockPool[..], groups) && SamePool(pool0, blockPool[..], -1)
      ensures BlockCounted(rules.g, play, groups[i], libertyCount[..])
      ensures forall p :: 0 <= p < |rules.g| && p !in groups[i] ==> libertyCount[p] == old(libertyCount[p])
    {
      hide Bits.Members, Forest, AllocOk, ValidRules, InUseExact, PoolShape, Liberties, BlockOk;
      ghost var st, pool1 := stones[..], blockPool[..];
      BlockEnds(rules.g, play, blockPool[i], groups[i]);
      BlockParts(rules.g, play, blockPool[i], groups[i]);
      blockPool[i] := blockPool[i].CountLiberty();
      CachedLiberty(pool1, blockPool[..], i, words);
      InUseSame(pool1, blockPool[..], groups);
      CachedBlocks(rules.g, play, pool1, i, groups);
      SamePoolAll(pool0, pool1, blockPool[..], i);
      assert stones[..] == st;
      ghost var pool2 := blockPool[..];
      SetLibertyCounts(i);
      assert stones[..] == st && blockPool[..] == pool2;
    }

    lemma UsedRange()
      requires Sized() && Stored()
      ensures 0 <= blockInUse <= cap && forall id :: id in groups ==> id < blockInUse
    {}

    /** What a legal point guarantees to the steps of a move; the hash already has the stone. */
    ghost predicate ReadyToPlay(to: int)
      reads this`groups, this`recycledBlocks, this`blockInUse, this`currentPlayer, this`zobristHashValue, this`timestamp,
        this`koPosition, boardState, stones, blockPool, libertyCount, visitedPositions, legalMoveMap
      requires Sized()
    {
      && Standing() && |groups| < cap
      && 0 <= to < |rules.g| && boardState[to] == Empty && legalMoveMap[to]
      && zobristHashValue == Zobrist.HashOf(rules.z, boardState[..][to := currentPlayer], Opponent(currentPlayer))
      && Stamps(timestamp - 1)
      && koPosition == COORD_UNSET
    }

    /** The first half of a move: the stone's block is built and its neighbours are merged. */
    method BeginMove(to: int) returns (blk: int, dieId: seq<int>, ghost pool0: seq<GoBlock>)
      requires Sized() && ReadyToPlay(to)
      modifies blockPool, stones, visitedPositions, this`groups, this`recycledBlocks, this`blockInUse
      ensures Capturing(boardState[..][to := currentPlayer], Play(rules.g, boardState[..], currentPlayer, to), boardState[..],
                        libertyCount[..], blk, to, Elems(dieId))
      ensures blockInUse == old(blockInUse) || blockInUse == |old(groups)| + 1
      ensures MoveState(rules.g, boardState[..], currentPlayer, to, pool0, old(groups))
      ensures Increasing(dieId)
      ensures forall id :: id in dieId <==> Dying(rules.g, boardState[..], currentPlayer, to, pool0, old(groups), id)
      ensures forall j :: 0 <= j < |dieId| ==>
                dieId[j] in groups && dieId[j] in old(groups) && groups[dieId[j]] == old(groups)[dieId[j]]
      ensures blk in groups && blk !in dieId && blk !in old(groups)
      ensures Elems(groups[blk]) == GroupOf(rules.g, boardState[..][to := currentPlayer], to)
      ensures forall id :: id in groups && id != blk ==> id in old(groups) && groups[id] == old(groups)[id]
    {
      hide Bits.Members, Forest, AllocOk, ValidRules, BlockOk, Covered, GroupsAlive, Liberties, Border, GroupOf,
        TrialRecord, MoveState, InUseExact, PoolShape, BlocksOk, Elems, Captured, Mid, Untouched, Counted, Dying,
        Zobrist.HashOf, SameLinks;
      ghost var g, b, c, lc0 := rules.g, boardState[..], currentPlayer, libertyCount[..];
      blk := CheckOutBlock();
      assert boardState[..] == b;
      pool0 := blockPool[..];
      StateForMove(to);
      var cnt, nbId;
      cnt, nbId, dieId := TryMove(blk, to, |rules.g|);
      assert cnt >= 0;  // so the error return after the trial move is never taken
      assert boardState[..] == b && libertyCount[..] == lc0;
      TrialNotInUse(g, b, c, to, pool0, groups, blockPool[blk], nbId, dieId, cnt);
      SamePoolInUse(pool0, blockPool[..], groups, blk);
      SamePoolColours(pool0, blockPool[..], blk);
      DyingColours(g, b, c, to, pool0, groups, dieId);
      PlaceAndMerge(blk, to, nbId);
      assert boardState[..] == b && libertyCount[..] == lc0;
      ElemsSame(dieId);
      MarkDead(g, b[to := c], Play(g, b, c, to), blockPool[..], groups, blk, Elems(dieId), c);
      CountedEmpty(g, b, lc0);
      assert b == b[to := c][to := Empty];
      InOwnGroup(g, b[to := c], to);
      ElemsSame(groups[blk]);
    }

    /** The last part of a move: liberty counts, the stone on the board, the turn. */
    method FinishMove(blk: int, to: int, ghost play: Board, ghost b: Board, ghost lc0: seq<int>, ghost dead: set<int>,
                      ghost pool0: seq<GoBlock>, ghost F0: Groups)
      requires Sized() && Capturing(play, play, b, lc0, blk, to, dead) && |b| == |rules.g|
      requires forall id :: id in dead ==> id !in groups
      requires BlocksOk(rules.g, b, pool0, F0) && Counted(rules.g, b, lc0)
      requires forall id :: id in groups && id != blk ==> id in F0 && groups[id] == F0[id]
      requires ValidBoard(rules.g, play) && AllAlive(rules.g, play)
      modifies blockPool, libertyCount, boardState, this`currentPlayer
      ensures Core() && boardState[..] == play && currentPlayer == Opponent(old(currentPlayer))
    {
      hide Bits.Members, Forest, AllocOk, ValidRules, BlockOk, Covered, GroupsAlive, Liberties, GroupOf, Mid, Untouched,
        InUseExact, PoolShape, BlocksOk, Elems, Counted, Zobrist.HashOf, CountsUpTo, CountsKept, AllAlive, ValidBoard;
      ghost var g, v, st, lc1, pool1 := rules.g, visitedPositions[..], stones[..], libertyCount[..], blockPool[..];
      MidRange(g, play, play, pool1, groups, blk, dead, currentPlayer);
      MidComplete(g, play, pool1, groups, blk, dead, currentPlayer);
      UpdateLibertyCounts(play);
      assert stones[..] == st && visitedPositions[..] == v;
      UntouchedSame(g, b, pool1, blockPool[..], groups, v, timestamp);
      UsedRange();
      CountsAll(g, play, blockPool[..], groups, v, timestamp, libertyCount[..], blockInUse, cap);
      CountsOutside(g, play, blockPool[..], groups, v, timestamp, lc1, libertyCount[..]);
      StoneTouched(groups, v, timestamp, blk, to);
      ForestDisjoint(st, groups);
      CountedAfter(g, b, play, pool0, F0, blockPool[..], groups, blk, lc0, libertyCount[..], v, timestamp);
      ghost var pool2, lc2, b1 := blockPool[..], libertyCount[..], boardState[..];
      boardState[to] := currentPlayer;
      assert boardState[..] == b1[to := currentPlayer] == play;
      assert stones[..] == st && visitedPositions[..] == v && blockPool[..] == pool2 && libertyCount[..] == lc2;
      currentPlayer := Opponent(currentPlayer);
      BlocksAlive(g, play, pool2, groups);
    }

    /** Puts the stone on the board, with all its consequences but the map of legal points. */
    method PutStone(to: int)
      requires Sized() && ReadyToPlay(to) && NotSuicide(rules.g, boardState[..], currentPlayer, to)
      modifies blockPool, stones, visitedPositions, libertyCount, boardState, this`groups, this`recycledBlocks,
        this`blockInUse, this`zobristHashValue, this`koPosition, this`currentPlayer
      ensures Core()
      ensures boardState[..] == Play(rules.g, old(boardState[..]), old(currentPlayer), to)
      ensures currentPlayer == Opponent(old(currentPlayer))
      ensures koPosition == KoPoint(rules.g, old(boardState[..]), boardState[..], currentPlayer)
      ensures blockInUse == old(blockInUse) || blockInUse == |old(groups)| + 1
      ensures |groups| <= |old(groups)| + 1
    {
      hide Bits.Members, AllocOk, ValidRules, BlockOk, Covered, GroupsAlive, Liberties, GroupOf, Capturing, MoveState, Dying,
        InUseExact, PoolShape, BlocksOk, Elems, Counted, Zobrist.HashOf, AllAlive, ValidBoard, Captured, NotSuicide,
        KoPoint, Disjoint, Core, Play, Forest;
      ghost var g, b, c, F0, lc0 := rules.g, boardState[..], currentPlayer, groups, libertyCount[..];
      ghost var play, used := Play(g, b, c, to), blockInUse;
      BlocksAlive(g, b, blockPool[..], F0);
      var blk, dieId;
      ghost var pool0;
      blk, dieId, pool0 := BeginMove(to);
      assert boardState[..] == b && libertyCount[..] == lc0;
      StateParts(g, b, c, to, pool0, F0);
      AliveAfterMove(g, b, c, to);
      ValidAfterMove(g, b, c, to);
      TakeCaptured(blk, dieId, to, b, lc0, pool0, F0);
      ElemsSame(dieId);
      FinishMove(blk, to, play, b, lc0, Elems(dieId), pool0, F0);
      OneMore(groups, F0, blk);
    }

    /** The middle of a move: the captured blocks go, and the ko point is recorded. */
    method TakeCaptured(blk: int, dieId: seq<int>, to: int, ghost b: Board, ghost lc0: seq<int>, ghost pool0: seq<GoBlock>,
                        ghost F0: Groups)
      requires Sized() && |b| == |rules.g| && 0 <= to < |b|
      requires Capturing(b[to := currentPlayer], Play(rules.g, b, currentPlayer, to), b, lc0, blk, to, Elems(dieId))
      requires MoveState(rules.g, b, currentPlayer, to, pool0, F0) && AllAlive(rules.g, b)
      requires NotSuicide(rules.g, b, currentPlayer, to)
      requires Increasing(dieId)
      requires forall id :: id in dieId <==> Dying(rules.g, b, currentPlayer, to, pool0, F0, id)
      requires forall j :: 0 <= j < |dieId| ==> dieId[j] in groups && dieId[j] in F0 && groups[dieId[j]] == F0[dieId[j]]
      requires blk in groups && blk !in dieId
      requires Elems(groups[blk]) == GroupOf(rules.g, b[to := currentPlayer], to)
      requires koPosition == COORD_UNSET
      modifies boardState, stones, blockPool, libertyCount, visitedPositions, this`zobristHashValue,
        this`groups, this`recycledBlocks, this`koPosition
      ensures Capturing(Play(rules.g, b, currentPlayer, to), Play(rules.g, b, currentPlayer, to), b, lc0, blk, to, Elems(dieId))
      ensures koPosition == KoPoint(rules.g, b, Play(rules.g, b, currentPlayer, to), Opponent(currentPlayer))
      ensures forall id :: id in dieId ==> id !in groups
      ensures forall id :: id in groups ==> id in old(groups) && groups[id] == old(groups)[id]
    {
      hide Bits.Members, ValidRules, Capturing, MoveState, Dying, Elems, AllAlive, NotSuicide, KoScan, KoPoint, Disjoint,
        GroupOf, Captured, Play;
      ghost var g, c, F1 := rules.g, currentPlayer, groups;
      ghost var play := Play(g, b, c, to);
      CapturedList(g, b, c, to, pool0, F0, F1, dieId);
      TakeDying(blk, dieId, b[to := c], play, b, lc0, to);
      NewBlockList(play, b, lc0, blk, to, Elems(dieId), F1);
      KoScanIsExact(g, b, c, to, pool0, F0, F1, blk, dieId, koPosition);
    }

    /** Computes the legal moves of the position on the board, then records its hash. */
    method Conclude()
      requires Sized() && Core() && |groups| < cap
      requires blockInUse <= peak + 1
      modifies this`recycledBlocks, this`blockInUse, this`boardHashStates, this`seen, this`peak, blockPool, stones, legalMoveMap
      ensures Valid() && seen == old(boardHashStates) && peak == if old(peak) < |groups| then |groups| else old(peak)
      ensures boardHashStates == old(boardHashStates) +
                if rules.superko then {Zobrist.HashOf(rules.z, boardState[..], currentPlayer)} else {}
      ensures boardState[..] == old(boardState[..])
    {
      hide Bits.Members, ExactMap, Linked, Core, ValidRules, ValidPosition, Zobrist.HashOf;
      GetSensibleMove();
      ghost var pos := Now();
      RecordHash();
      HistoryIsNotRead(rules, pos, boardHashStates, legalMoveMap[..]);
    }

    /** Adds the hash of the position to those that later moves must not repeat. */
    method RecordHash()
      modifies this`boardHashStates, this`seen, this`peak
      ensures boardHashStates == old(boardHashStates) + if rules.superko then {zobristHashValue} else {}
      ensures seen == old(boardHashStates) && peak == if old(peak) < |groups| then |groups| else old(peak)
    {
      seen := boardHashStates;
      peak := if peak < |groups| then |groups| else peak;
      if rules.superko {
        boardHashStates := boardHashStates + {zobristHashValue};
      }
    }

    /** Plays `to`; -1 means the move is illegal and nothing changed. */
    method Move(to: int) returns (ret: int)
      requires Valid() && (to == COORD_PASS || 0 <= to < |rules.g|)
      requires RoomFor(rules, Abs(), to, cap)
      modifies this, boardState, stones, blockPool, libertyCount, visitedPositions, legalMoveMap
      ensures Valid()
      ensures ret == if LegalMove(rules, old(Abs()), to) then 0 else -1
      ensures ret == 0 ==> Abs() == Step(rules, old(Abs()), to)
      ensures ret == -1 ==> unchanged(this, boardState, stones, blockPool, libertyCount, visitedPositions, legalMoveMap)
      ensures |groups| <= |old(groups)| + 1 && |groups| <= peak
      ensures peak <= if old(peak) < |groups| then |groups| else old(peak)
      ensures ret == 0 ==> MapAfter(old(boardState[..]), old(boardHashStates))
    {
      LegalKnown(to);
      ghost var s := Abs();
      hide Valid, ValidPosition, Linked, ValidRules, Step, LegalMove, GroupCount;
      if !IsLegal(to) {
        return -1;
      }
      PlayLegal(to);
      MapIsAfter(s, to);
      ret := 0;
    }

    /** The map of legal points, said of the board: `before` is the board the last move was played
        on, `history` the hashes that were recorded then.  No allowed point brings that board back,
        and none without an empty neighbour brings a recorded position back. */
    ghost predicate MapAfter(before: Board, history: set<Zobrist.Hash>)
      reads this`currentPlayer, boardState, legalMoveMap
      requires Sized()
    {
      var g, b, c := rules.g, boardState[..], currentPlayer;
      && Zobrist.ValidTable(rules.z, |b|)
      && forall i :: 0 <= i < |b| ==>
           (legalMoveMap[i] <==>
              && b[i] == Empty
              && (exists q :: 0 <= q < |b| && Adj(g, i, q) && Saves(g, b, c, i, q))
              && Play(g, b, c, i) != before
              && (rules.superko && !HasEmptyNeighbour(g, b, i) ==>
                    Zobrist.HashOf(rules.z, Play(g, b, c, i), Opponent(c)) !in history))
    }

    lemma MapIsAfter(s: Position, to: int)
      requires Valid() && ValidPosition(rules, s) && LegalMove(rules, s, to) && Abs() == Step(rules, s, to)
      ensures MapAfter(s.board, s.history)
    {
      hide Linked, Core, LegalPoint, Saves, NotSuicide, Play, GroupOf, AllAlive, HasEmptyNeighbour, Zobrist.HashOf, KoPoint, LegalMove,
        ValidGraph;
      CoreParts();
      ghost var t := Abs();
      TableFits(rules, t);
      forall i | 0 <= i < |t.board|
        ensures legalMoveMap[i] <==>
                && t.board[i] == Empty
                && (exists q :: 0 <= q < |t.board| && Adj(rules.g, i, q) && Saves(rules.g, t.board, t.player, i, q))
                && Play(rules.g, t.board, t.player, i) != s.board
                && (rules.superko && !HasEmptyNeighbour(rules.g, t.board, i) ==>
                      Zobrist.HashOf(rules.z, Play(rules.g, t.board, t.player, i), Opponent(t.player)) !in s.history)
      {
        assert legalMoveMap[i] == legalMoveMap[..][i] == LegalPoint(rules, t, i);
        LegalAfterStep(rules, s, to, i);
        if t.board[i] == Empty { NotSuicideIff(rules.g, t.board, t.player, i); }
      }
    }

    /** The part of Move behind the test of the legal map. */
    method PlayLegal(to: int)
      requires Valid() && LegalMove(rules, Abs(), to) && IsLegal(to) && RoomFor(rules, Abs(), to, cap)
      modifies this, boardState, stones, blockPool, libertyCount, visitedPositions, legalMoveMap
      ensures Valid() && Abs() == Step(rules, old(Abs()), to)
      ensures |groups| <= |old(groups)| + 1 && |groups| <= peak
      ensures peak <= if old(peak) < |groups| then |groups| else old(peak)
    {
      hide Bits.Members, ValidPosition, Linked, ValidRules, Step, Core, ExactMap, LegalMove, Standing, Stamps,
        LegalPoint, Play, NotSuicide, KoPoint, Zobrist.HashOf, GroupCount;
      CoreParts();
      ghost var s := Abs();
      BlocksAreGroups();
      Announce(to, s);
      Apply(to, s);
      BlocksAreGroups();
      StepFields(rules, s, to);
      Conclude();
    }

    /** The live blocks number the groups on the board. */
    lemma BlocksAreGroups()
      requires Sized() && Core()
      ensures |groups| == GroupCount(rules.g, boardState[..])
    {
      hide ValidRules, GroupCount, BlocksOk, Covered, Zobrist.HashOf, Stamps, AllocOk, Counted;
      BlocksCountGroups(rules.g, boardState[..], blockPool[..], groups);
    }

    lemma LegalKnown(to: int)
      requires Valid() && (to == COORD_PASS || 0 <= to < |rules.g|)
      ensures Linked() && (IsLegal(to) <==> LegalMove(rules, Abs(), to))
    {
      hide LegalPoint, Linked;
    }

    lemma CoreParts()
      requires Sized() && Core()
      ensures Standing() && Stamps(timestamp) && Linked()
      ensures zobristHashValue == Zobrist.HashOf(rules.z, boardState[..], currentPlayer)
    {
      hide Linked, Stamps, Zobrist.HashOf;
    }

    /** The counters, the ko point and the hash at the start of a legal move. */
    method Announce(to: int, ghost s: Position)
      requires Sized() && ValidPosition(rules, s) && LegalMove(rules, s, to)
      requires s.board == boardState[..] && s.player == currentPlayer
      requires zobristHashValue == Zobrist.HashOf(rules.z, s.board, s.player)
      modifies this`timestamp, this`isDoublePass, this`lastPosition, this`koPosition, this`zobristHashValue
      ensures isDoublePass == (old(lastPosition) == COORD_PASS && to == COORD_PASS)
      ensures lastPosition == to && koPosition == COORD_UNSET && timestamp == old(timestamp) + 1
      ensures to == COORD_PASS ==> zobristHashValue == Zobrist.HashOf(rules.z, s.board, Opponent(s.player))
      ensures to != COORD_PASS ==>
                && 0 <= to < |s.board| && s.board[to] == Empty && NotSuicide(rules.g, s.board, s.player, to)
                && zobristHashValue == Zobrist.HashOf(rules.z, s.board[to := s.player], Opponent(s.player))
    {
      hide Bits.Members, LegalPoint, KoPoint, Play, NotSuicide, Zobrist.HashOf, Zobrist.Xor, ValidGraph, AllAlive, ValidBoard;
      timestamp := timestamp + 1;
      isDoublePass := lastPosition == COORD_PASS && to == COORD_PASS;
      lastPosition := to;
      koPosition := COORD_UNSET;
      zobristHashValue := Zobrist.Xor(zobristHashValue, Zobrist.TurnWeight(rules.z, currentPlayer));
      zobristHashValue := Zobrist.Xor(zobristHashValue, Zobrist.TurnWeight(rules.z, Opponent(currentPlayer)));
      if to == COORD_PASS {
        Zobrist.ChangeTurn(rules.z, s.board, currentPlayer);
      } else {
        LegalPointFacts(rules, s, to);
        zobristHashValue := Zobrist.Xor(zobristHashValue, Zobrist.StoneWeight(rules.z, currentPlayer, to));
        Zobrist.PlaceStone(rules.z, s.board, currentPlayer, to);
      }
    }

    /** The board, the ko point and the turn after a legal move. */
    method Apply(to: int, ghost s: Position)
      requires Sized() && Standing() && Stamps(timestamp - 1) && koPosition == COORD_UNSET && |groups| < cap
      requires ValidPosition(rules, s) && s.board == boardState[..] && s.player == currentPlayer
      requires to == COORD_PASS ==> zobristHashValue == Zobrist.HashOf(rules.z, s.board, Opponent(s.player))
      requires to != COORD_PASS ==>
                 && 0 <= to < |s.board| && s.board[to] == Empty && NotSuicide(rules.g, s.board, s.player, to)
                 && zobristHashValue == Zobrist.HashOf(rules.z, s.board[to := s.player], Opponent(s.player))
                 && legalMoveMap[to]
      modifies blockPool, stones, visitedPositions, libertyCount, boardState, this`groups, this`recycledBlocks,
        this`blockInUse, this`zobristHashValue, this`koPosition, this`currentPlayer
      ensures Core()
      ensures boardState[..] == if to == COORD_PASS then s.board else Play(rules.g, s.board, s.player, to)
      ensures currentPlayer == Opponent(s.player) && koPosition == KoPoint(rules.g, s.board, boardState[..], currentPlayer)
      ensures blockInUse == old(blockInUse) || blockInUse == |old(groups)| + 1
      ensures |groups| <= |old(groups)| + 1
    {
      hide Bits.Members, Standing, Stamps, KoPoint, Play, NotSuicide, Zobrist.HashOf, AllAlive, ValidGraph, Core;
      if to == COORD_PASS {
        NoKoAfterPass(rules.g, s.board, Opponent(currentPlayer));
        HandOff();
      } else {
        PutStone(to);
      }
    }

    method HandOff()
      requires Sized() && Standing() && Stamps(timestamp - 1)
      requires zobristHashValue == Zobrist.HashOf(rules.z, boardState[..], Opponent(currentPlayer))
      modifies this`currentPlayer
      ensures Core() && currentPlayer == Opponent(old(currentPlayer))
    {
      hide Bits.Members, ValidRules, Zobrist.HashOf, AllocOk, Forest, BlocksOk, Covered, GroupsAlive, PoolShape, InUseExact, Counted;
      currentPlayer := Opponent(currentPlayer);
    }

    /** The hash the position would have after the legal move `to`; the position stays as it is. */
    method GetNewHashValue(to: int) returns (h: Zobrist.Hash)
      requires Valid() && LegalMove(rules, Abs(), to) && |groups| < cap
      modifies this`recycledBlocks, this`blockInUse, blockPool, stones
      ensures Valid() && Abs() == old(Abs())
      ensures h == Zobrist.HashOf(rules.z, Step(rules, Abs(), to).board, Step(rules, Abs(), to).player)
    {
      hide Bits.Members, Zobrist.HashOf, Zobrist.Xor, LegalPoint, ValidGraph, Standing, Linked, Stamps, ExactMap, Play,
        KoPoint, NotSuicide, AllAlive, ValidBoard;
      CoreParts();
      ghost var s := Abs();
      StepFields(rules, s, to);
      if to == COORD_PASS {
        Zobrist.ChangeTurn(rules.z, s.board, currentPlayer);
        h := zobristHashValue;
        h := Zobrist.Xor(h, Zobrist.TurnWeight(rules.z, currentPlayer));
        h := Zobrist.Xor(h, Zobrist.TurnWeight(rules.z, Opponent(currentPlayer)));
      } else {
        LegalPointFacts(rules, s, to);
        LegalKnown(to);
        ghost var map1 := legalMoveMap[..];
        h := TrialHash(to);
        CoreParts();
        assert legalMoveMap[..] == map1;
      }
    }

    method TrialHash(to: int) returns (h: Zobrist.Hash)
      requires Sized() && Core() && |groups| < cap
      requires 0 <= to < |rules.g| && boardState[to] == Empty && legalMoveMap[to]
      modifies this`recycledBlocks, this`blockInUse, blockPool, stones
      ensures Core() && boardState[..] == old(boardState[..])
      ensures blockInUse == old(blockInUse) || blockInUse == |groups| + 1
      ensures h == Zobrist.HashOf(rules.z, Play(rules.g, boardState[..], currentPlayer, to), Opponent(currentPlayer))
    {
      hide Bits.Members, BlockOk, Liberties, Border, GroupOf, Covered, GroupsAlive, PoolShape, Forest, ValidGraph,
        Zobrist.HashOf, AllAlive, ValidBoard, AllocOk, Counted, BlocksOk, Disjoint, InUseExact, Stamps, Play, Dying, SameLinks;
      ghost var b, c, lc0, pool0 := boardState[..], currentPlayer, libertyCount[..], blockPool[..];
      var blkId := CheckOutBlock();
      assert {blkId} - {blkId} == {} && boardState[..] == b;
      ghost var pool1 := blockPool[..];
      var cnt, nbId, dieId := TryMove(blkId, to, |rules.g|);
      TrialNotInUse(rules.g, b, c, to, pool1, groups, blockPool[blkId], nbId, dieId, cnt);
      DyingSame(rules.g, b, c, to, pool1, blockPool[..], groups, blkId);
      SamePoolTransitive(pool0, pool1, blockPool[..], blkId);
      h := NewHash(to, dieId);
      ghost var pool2, st2 := blockPool[..], stones[..];
      RecycleBlock(blkId, {blkId});
      assert boardState[..] == b && libertyCount[..] == lc0 && stones[..] == st2;
      FreePool(pool2, blockPool[..], blkId, words);
      SamePoolKeepsBlocks(rules.g, b, pool2, blockPool[..], groups, blkId);
      SamePoolTransitive(pool0, pool2, blockPool[..], blkId);
      SamePoolInUse(pool0, blockPool[..], groups, blkId);
    }

    /** The number of live blocks never exceeds the number of points. */
    lemma LiveBlocksBound()
      requires Valid()
      ensures |groups| <= |rules.g|
    {
      CoreParts();
      BlocksAreGroups();
      GroupsBound(rules.g, boardState[..]);
    }

    /** Plays a list of moves, skipping illegal ones, as a game record is replayed. */
    method Replay(moves: seq<int>)
      requires Valid() && |rules.g| < cap
      requires forall i :: 0 <= i < |moves| ==> moves[i] == COORD_PASS || 0 <= moves[i] < |rules.g|
      modifies this, boardState, stones, blockPool, libertyCount, visitedPositions, legalMoveMap
      ensures Valid() && Abs() == ReplayOf(rules, old(Abs()), moves)
      ensures blockInUse <= peak + 1 && peak <= if old(peak) <= |rules.g| then |rules.g| else old(peak)
    {
      hide Bits.Members, Core, LegalPoint, ExactMap, Step, ValidPosition, ValidRules, LegalMove, Linked;
      CoreParts();
      ghost var s0 := Abs();
      for i := 0 to |moves|
        invariant Valid() && Linked() && Abs() == ReplayOf(rules, s0, moves[..i])
        invariant peak <= if old(peak) <= |rules.g| then |rules.g| else old(peak)
      {
        ReplayStep(rules, s0, moves, i);
        LiveBlocksBound();
        ghost var t := Abs();
        AlwaysRoom(rules, t, moves[i], cap);
        var ret := Move(moves[i]);
        CoreParts();
        LiveBlocksBound();
      }
      assert moves[..|moves|] == moves;
    }

    /** What the invariant says in plain terms: the blocks in use are exactly the groups on the
        board, each with its true stones, liberties, border and size, listed from head to tail. */
    lemma RepresentationIsExact()
      requires Valid()
      ensures forall p :: 0 <= p < |rules.g| && boardState[p] != Empty ==>
                exists id :: 0 <= id < cap && blockPool[id].inUse && blockPool[id].Stones() == GroupOf(rules.g, boardState[..], p)
      ensures forall id :: 0 <= id < cap && blockPool[id].inUse ==>
                var blk := blockPool[id];
                && IsGroup(rules.g, boardState[..], blk.Stones(), blk.color)
                && blk.Libs() == Liberties(rules.g, boardState[..], blk.Stones()) != {}
                && blk.Virts() == Border(rules.g, blk.Stones())
                && blk.stoneCount == |blk.Stones()|
                && id in groups && ListOk(stones[..], groups[id], id) && Elems(groups[id]) == blk.Stones()
                && blk.head == groups[id][0] && blk.tail == Last(groups[id])
      ensures forall p :: 0 <= p < |rules.g| ==>
                libertyCount[p] == if boardState[p] == Empty then 0
                                   else |Liberties(rules.g, boardState[..], GroupOf(rules.g, boardState[..], p))|
    {
      hide Bits.Members, Liberties, Border, GroupOf, IsGroup, ListOk, ExactMap, Zobrist.HashOf, ValidPosition, ValidRules,
        AllocOk, PoolShape, Abs, Elems;
      assert Standing() && Linked();
      ghost var g, b, pool := rules.g, boardState[..], blockPool[..];
      forall p | 0 <= p < |g| && boardState[p] != Empty
        ensures exists id :: 0 <= id < cap && blockPool[id].inUse && blockPool[id].Stones() == GroupOf(g, b, p)
      {
        assert b[p] == boardState[p] && Owned(groups, p);
        var id :| id in groups && p in groups[id];
        BlockIsGroup(g, b, pool, groups, id, p);
        assert pool[id] == blockPool[id];
      }
      forall id | 0 <= id < cap && blockPool[id].inUse
        ensures id in groups && BlockOk(g, b, blockPool[id], groups[id]) && ListOk(stones[..], groups[id], id)
        ensures Liberties(g, b, Elems(groups[id])) != {} && |Elems(groups[id])| == |groups[id]|
      {
        assert pool[id] == blockPool[id] && pool[id].inUse;
        ListDistinct(stones[..], groups[id], id);
      }
      forall p | 0 <= p < |g|
        ensures libertyCount[p] == if boardState[p] == Empty then 0 else |Liberties(g, b, GroupOf(g, b, p))|
      {
        assert libertyCount[..][p] == libertyCount[p] && b[p] == boardState[p];
      }
    }

    lemma StateForMove(to: int)
      requires Sized() && Linked() && 0 <= to < |rules.g| && boardState[to] == Empty
      ensures MoveState(rules.g, boardState[..], currentPlayer, to, blockPool[..], groups)
    {
      assert forall id :: id in groups ==> ListOk(stones[..], groups[id], id);
    }
  }

  ghost function EmptyAmong(b: Board, Q: set<int>): set<int> {
    set q | q in Q && 0 <= q < |b| && b[q] == Empty
  }

  lemma EmptyAmongNone(b: Board, Q: set<int>)
    requires Q == {}
    ensures EmptyAmong(b, Q) == {}
  {}

  lemma EmptyAmongStep(b: Board, Q: set<int>, q: int)
    requires 0 <= q < |b|
    ensures EmptyAmong(b, Q + {q}) == EmptyAmong(b, Q) + if b[q] == Empty then {q} else {}
  {}

  lemma PoolShapeUpdate(pool: seq<GoBlock>, pool': seq<GoBlock>, i: int, words: nat)
    requires PoolShape(pool, words) && |pool| == |pool'| && 0 <= i < |pool|
    requires forall j :: 0 <= j < |pool| && j != i ==> pool'[j] == pool[j]
    requires pool'[i].selfId == i && pool'[i].HasWords(words)
    ensures PoolShape(pool', words)
  {}

  lemma PoolShapeAt(pool: seq<GoBlock>, words: nat)
    requires PoolShape(pool, words)
    ensures forall i :: 0 <= i < |pool| ==> pool[i].selfId == i && pool[i].HasWords(words)
  {}

  lemma FirstMerge(g: Graph, b: Board, c: Color, to: int, pool: seq<GoBlock>, F: Groups, ids: seq<int>, rec: GoBlock)
    requires IdsIn(F, pool, ids) && 0 <= to < |b|
    requires TrialRecord(g, rec, c, {to}, Liberties(g, b[to := c], {to}))
    ensures MergedRecord(g, b, c, to, pool, F, ids, 0, rec)
    ensures DyingPrefix(g, b, c, to, pool, F, ids, 0, [], 0)
  {}

  /** Next to the played point, one liberty means the played point. */
  lemma DyingByCount(g: Graph, b: Board, c: Color, to: int, pool: seq<GoBlock>, F: Groups, id: int)
    requires MoveState(g, b, c, to, pool, F) && id in Near(g, F, to)
    ensures id in F && 0 <= id < |pool| && pool[id].stoneCount == |F[id]|
    ensures Dying(g, b, c, to, pool, F, id) <==> pool[id].color != c && |pool[id].Libs()| == 1
  {
    BlockParts(g, b, pool[id], F[id]);
    hide BlockOk, BlocksOk, Covered, GroupsAlive;
    assert to in Liberties(g, b, Elems(F[id]));
    OneElement(Liberties(g, b, Elems(F[id])), to);
  }

  lemma OneElement(L: set<int>, x: int)
    requires x in L
    ensures |L| == 1 <==> L == {x}
  {
    assert |L - {x}| == |L| - 1;
    if |L| == 1 { assert L - {x} == {}; }
  }

  lemma DyingPrefixSame(g: Graph, b: Board, c: Color, to: int, pool: seq<GoBlock>, pool': seq<GoBlock>, F: Groups,
                        except: int, ids: seq<int>, die: seq<int>, cnt: int)
    requires SamePool(pool', pool, except) && except !in F
    requires DyingPrefix(g, b, c, to, pool, F, ids, |ids|, die, cnt)
    ensures DyingPrefix(g, b, c, to, pool', F, ids, |ids|, die, cnt)
  {
    forall id ensures Dying(g, b, c, to, pool, F, id) == Dying(g, b, c, to, pool', F, id) {
    }
  }

  lemma NotItsOwnLiberty(g: Graph, b: Board, S: set<int>, p: int)
    requires 0 <= p < |b| && b[p] != Empty
    ensures Liberties(g, b, S) - {p} == Liberties(g, b, S)
  {}

  lemma DyingStones(g: Graph, b: Board, c: Color, to: int, pool: seq<GoBlock>, F: Groups, id: int)
    requires MoveState(g, b, c, to, pool, F) && Dying(g, b, c, to, pool, F, id)
    ensures id in F && pool[id].color == Opponent(c)
    ensures forall q :: q in F[id] ==> 0 <= q < |b| && b[q] == Opponent(c) && b[to := c][q] == Opponent(c)
  {
    BlockParts(g, b, pool[id], F[id]);
    BlockColour(g, b, pool[id], F[id]);
    forall q | q in F[id] ensures 0 <= q < |b| && b[q] == Opponent(c) {
      assert q in Elems(F[id]);
    }
  }

  /** A trial record without liberties means suicide. */
  lemma SuicideTest(g: Graph, b: Board, c: Color, p: int, rec: GoBlock)
    requires MoveContext(g, b, c, p)
    requires rec.Libs() == Liberties(g, Play(g, b, c, p), GroupOf(g, b[p := c], p))
    ensures NotSuicide(g, b, c, p) <==> |rec.Libs()| > 0
  {
    StoneGroupAfterPlay(g, b, c, p);
  }

  lemma CachedLiberty(pool: seq<GoBlock>, pool': seq<GoBlock>, i: int, words: nat)
    requires PoolShape(pool, words) && 0 <= i < |pool| && pool' == pool[i := pool[i].CountLiberty()]
    ensures PoolShape(pool', words) && SamePool(pool, pool', i)
  {}

  lemma DyingSame(g: Graph, b: Board, c: Color, to: int, pool: seq<GoBlock>, pool': seq<GoBlock>, F: Groups, except: int)
    requires SamePool(pool, pool', except) && except !in F
    ensures forall id :: Dying(g, b, c, to, pool, F, id) == Dying(g, b, c, to, pool', F, id)
  {}

  lemma ResetPool(pool: seq<GoBlock>, pool': seq<GoBlock>, i: int, words: nat)
    requires PoolShape(pool, words) && 0 <= i < |pool| == |pool'|
    requires forall j :: 0 <= j < |pool| && j != i ==> pool'[j] == pool[j]
    requires pool'[i] == pool[i].Reset(words)
    ensures PoolShape(pool', words) && SamePool(pool, pool', i)
  {}

  lemma FreePool(pool: seq<GoBlock>, pool': seq<GoBlock>, i: int, words: nat)
    requires PoolShape(pool, words) && 0 <= i < |pool| && pool' == pool[i := pool[i].(inUse := false)]
    ensures PoolShape(pool', words) && SamePool(pool, pool', i)
  {}

  lemma SamePoolTransitive(p: seq<GoBlock>, q: seq<GoBlock>, r: seq<GoBlock>, except: int)
    requires SamePool(p, q, except) && SamePool(q, r, except)
    ensures SamePool(p, r, except)
  {}

  lemma SamePoolInUse(p: seq<GoBlock>, q: seq<GoBlock>, F: Groups, except: int)
    requires SamePool(p, q, except) && InUseExact(p, F) && except !in F
    requires 0 <= except < |q| ==> !q[except].inUse
    ensures InUseExact(q, F)
  {}

  lemma InUseSame(pool: seq<GoBlock>, pool': seq<GoBlock>, F: Groups)
    requires InUseExact(pool, F) && |pool| == |pool'|
    requires forall i :: 0 <= i < |pool| ==> pool'[i].inUse == pool[i].inUse
    ensures InUseExact(pool', F)
  {}

  lemma InUseDrop(pool: seq<GoBlock>, pool': seq<GoBlock>, F: Groups, d: int)
    requires InUseExact(pool, F) && 0 <= d < |pool| && pool' == pool[d := pool[d].(inUse := false)]
    ensures InUseExact(pool', F - {d})
  {}

  lemma PoolShapeTwo(pool: seq<GoBlock>, pool': seq<GoBlock>, i: int, j: int, words: nat)
    requires PoolShape(pool, words) && 0 <= i < |pool| && 0 <= j < |pool| && |pool'| == |pool|
    requires forall k :: 0 <= k < |pool| && k != i && k != j ==> pool'[k] == pool[k]
    requires forall k :: k in {i, j} ==> pool'[k] == pool[k].(head := pool'[k].head, inUse := pool'[k].inUse)
    ensures PoolShape(pool', words)
  {
    forall k | 0 <= k < |pool| ensures pool'[k].selfId == k && pool'[k].HasWords(words) {
      assert pool[k].selfId == k && pool[k].HasWords(words);
      if k == i || k == j { assert k in {i, j}; }
    }
  }

  lemma FirstLists(g: Graph, F0: Groups, pool0: seq<GoBlock>, ids: seq<int>, blk: int, c: Color, to: int)
    requires IdsIn(F0, pool0, ids) && blk !in F0 && 0 <= blk < |pool0|
    requires forall id :: id in F0 ==> 0 <= id < |pool0|
    ensures MergedLists(F0, pool0, F0[blk := [to]], ids, 0, blk, c, to)
    ensures MergedPool(pool0, F0[blk := [to]], pool0[blk := pool0[blk].(inUse := true, head := to, tail := to)], ids, 0, blk, to)
  {
    assert ids[..0] == [];
    assert Elems([to]) == {to};
  }

  lemma BlockEnds(g: Graph, b: Board, blk: GoBlock, ord: seq<int>)
    requires BlockOk(g, b, blk, ord)
    ensures |ord| > 0 && blk.head == ord[0] && blk.tail == Last(ord)
  {}

  lemma ForestList(st: seq<GoStone>, F: Groups, id: int)
    requires Forest(st, F) && id in F
    ensures NoDup(F[id]) && |F[id]| > 0
    ensures forall q :: q in F[id] ==> 0 <= q < |st|
  {
    assert ListOk(st, F[id], id);
  }

  lemma BlocksInRange(g: Graph, b: Board, pool: seq<GoBlock>, F: Groups)
    requires BlocksOk(g, b, pool, F)
    ensures forall id :: id in F ==> 0 <= id < |pool|
  {}

  lemma MergedTail(F0: Groups, pool0: seq<GoBlock>, F: Groups, ids: seq<int>, i: nat, blk: int, c: Color, to: int)
    requires i <= |ids| && IdsIn(F0, pool0, ids) && MergedLists(F0, pool0, F, ids, i, blk, c, to)
    ensures blk in F && |F[blk]| > 0 && Last(F[blk]) == to
  {}

  /** What the finished merge says without its history. */
  lemma MergedEnds(F0: Groups, pool0: seq<GoBlock>, F: Groups, pool: seq<GoBlock>, ids: seq<int>, blk: int, c: Color, to: int)
    requires IdsIn(F0, pool0, ids) && MergedLists(F0, pool0, F, ids, |ids|, blk, c, to) && blk !in F0
    requires MergedPool(pool0, F, pool, ids, |ids|, blk, to)
    ensures blk in F && |F[blk]| > 0 && pool[blk].head == F[blk][0]
    ensures forall id :: id in F0 && 0 <= id < |pool0| && pool0[id].color != c ==> id in F && F[id] == F0[id]
    ensures forall id :: id in F && id != blk ==> id in F0 && F[id] == F0[id]
    ensures forall id :: id in F && 0 <= id < |pool| ==> pool[id].color == pool0[id].color
  {}

  lemma OpenOne(pool0: seq<GoBlock>, pool1: seq<GoBlock>, pool2: seq<GoBlock>, F: Groups, ids: set<int>, id: int, t: int)
    requires OpenedPool(pool0, pool1, F, ids, t) && 0 <= id < |pool1|
    requires |pool2| == |pool1| && forall i :: 0 <= i < |pool1| && i != id ==> pool2[i] == pool1[i]
    requires pool2[id] == pool1[id].(libertyState := pool2[id].libertyState)
    requires pool2[id].Libs() == pool1[id].Libs() + {t}
    ensures OpenedPool(pool0, pool2, F, ids + {id}, t)
  {
    hide Bits.Members;
  }

  lemma MidRange(g: Graph, x: Board, play: Board, pool: seq<GoBlock>, F: Groups, blk: int, dead: set<int>, c: Color)
    requires Mid(g, x, play, pool, F, blk, dead, c)
    ensures forall id :: id in F ==> 0 <= id < |pool|
    ensures blk in F && blk !in dead
  {}

  lemma StampedBelow(v: seq<int>, v': seq<int>, ids: set<int>, ts: int)
    requires Stamped(v, v', ids, ts) && forall i :: 0 <= i < |v| ==> v[i] <= ts
    ensures |v'| == |v| && forall i :: 0 <= i < |v'| ==> v'[i] <= ts
  {}

  lemma StampedKeeps(v: seq<int>, v': seq<int>, ids: set<int>, ts: int, i: int)
    requires Stamped(v, v', ids, ts) && 0 <= i < |v| && v[i] == ts
    ensures v'[i] == ts
  {}

  lemma CoveredLess(x: Board, t: int, F: Groups)
    requires Covered(x, F) && 0 <= t < |x|
    ensures Covered(x[t := Empty], F)
  {}

  lemma TakeOne(x: Board, R: set<int>, t: int)
    requires 0 <= t < |x| && t !in R
    ensures Remove(x, R)[t] == x[t] && Remove(x, R)[t := Empty] == Remove(x, R + {t})
  {}

  lemma RemovedAll(x: Board, ord: seq<int>)
    requires forall q :: q in ord ==> 0 <= q < |x|
    ensures forall q :: q in ord ==> Remove(x, Elems(ord))[q] == Empty
  {
    assert forall q :: q in ord ==> q in Elems(ord);
  }

  lemma TakenHash(z: Zobrist.Table, x: Board, t: int, c: Color)
    requires Zobrist.ValidTable(z, |x|) && 0 <= t < |x| && x[t] == Opponent(c)
    ensures Zobrist.HashOf(z, x[t := Empty], Opponent(c)) ==
            Zobrist.Xor(Zobrist.HashOf(z, x, Opponent(c)), Zobrist.StoneWeight(z, Opponent(c), t))
  {
    Zobrist.RemoveNothing(x);
    Zobrist.RemoveStone(z, x, {}, t, Opponent(c), Opponent(c));
    assert {} + {t} == {t};
    assert Remove(x, {t}) == x[t := Empty];
  }

  lemma MidCounts(g: Graph, x: Board, play: Board, pool: seq<GoBlock>, F: Groups, blk: int, dead: set<int>, c: Color, id: int)
    requires Mid(g, x, play, pool, F, blk, dead, c) && id in F
    ensures 0 <= id < |pool| && pool[id].stoneCount == |F[id]| && pool[id].head == F[id][0]
  {}

  lemma StillThere(x: Board, R: set<int>, ord: seq<int>)
    requires R !! Elems(ord) && forall q :: q in ord ==> 0 <= q < |x|
    ensures forall q :: q in ord ==> Remove(x, R)[q] == x[q]
  {
    assert forall q :: q in ord ==> q in Elems(ord);
  }

  lemma RemoveTwice(x: Board, R: set<int>, T: set<int>)
    ensures Remove(Remove(x, R), T) == Remove(x, R + T)
  {}

  lemma SameLone(g: Graph, play: Board, F: Groups, F': Groups, blk: int, d: int)
    requires blk in F && blk in F' && d in F && d in F' && F[blk] == F'[blk] && F[d] == F'[d]
    ensures LoneCapture(g, play, F, blk, d) == LoneCapture(g, play, F', blk, d)
  {}

  lemma LoneIsOne(g: Graph, play: Board, F: Groups, blk: int, d: int)
    requires blk in F && d in F && LoneCapture(g, play, F, blk, d)
    ensures F[d] == [F[d][0]]
  {}

  lemma CachedBlocks(g: Graph, b: Board, pool: seq<GoBlock>, i: int, F: Groups)
    requires BlocksOk(g, b, pool, F) && 0 <= i < |pool|
    ensures BlocksOk(g, b, pool[i := pool[i].CountLiberty()], F)
  {}

  lemma SamePoolAll(p: seq<GoBlock>, q: seq<GoBlock>, r: seq<GoBlock>, i: int)
    requires SamePool(p, q, -1) && 0 <= i < |q| && r == q[i := q[i].CountLiberty()]
    ensures SamePool(p, r, -1)
  {}

  lemma InUseAt(pool: seq<GoBlock>, F: Groups, i: int)
    requires InUseExact(pool, F) && 0 <= i < |pool|
    ensures pool[i].inUse <==> i in F
  {}

  lemma TrialNotInUse(g: Graph, b: Board, c: Color, to: int, pool: seq<GoBlock>, F: Groups, rec: GoBlock, ids: seq<int>,
                      die: seq<int>, cnt: int)
    requires 0 <= to < |b| && TrialResult(g, b, c, to, pool, F, rec, ids, die, cnt)
    ensures !rec.inUse && cnt >= 0
  {}

  lemma SamePoolColours(pool: seq<GoBlock>, pool': seq<GoBlock>, except: int)
    requires SamePool(pool, pool', except)
    ensures forall i :: 0 <= i < |pool| && i != except ==> pool'[i].color == pool[i].color
  {}

  lemma DyingColours(g: Graph, b: Board, c: Color, to: int, pool: seq<GoBlock>, F: Groups, die: seq<int>)
    requires forall id :: id in die <==> Dying(g, b, c, to, pool, F, id)
    ensures forall j :: 0 <= j < |die| ==> die[j] in F && 0 <= die[j] < |pool| && pool[die[j]].color != c
  {
    forall j | 0 <= j < |die| ensures die[j] in F && 0 <= die[j] < |pool| && pool[die[j]].color != c {
      assert die[j] in die;
      assert Dying(g, b, c, to, pool, F, die[j]);
    }
  }

  lemma ElemsSame(s: seq<int>)
    ensures forall x :: x in Elems(s) <==> x in s
  {}

  lemma CountedEmpty(g: Graph, b: Board, lc: seq<int>)
    requires Counted(g, b, lc)
    ensures |lc| == |b| && forall p :: 0 <= p < |b| && b[p] == Empty ==> lc[p] == 0
  {}

  lemma InOwnGroup(g: Graph, b: Board, p: int)
    requires 0 <= p < |b|
    ensures p in GroupOf(g, b, p)
  {
    SelfChain(g, b, p);
  }

  lemma UntouchedSame(g: Graph, b: Board, pool: seq<GoBlock>, pool': seq<GoBlock>, F: Groups, visited: seq<int>, ts: int)
    requires Untouched(g, b, pool, F, visited, ts) && |pool'| == |pool|
    requires forall id :: id in F ==> 0 <= id < |pool| && pool'[id].Libs() == pool[id].Libs()
    ensures Untouched(g, b, pool', F, visited, ts)
  {
    hide Liberties, Bits.Members;
  }

  lemma CountsAll(g: Graph, play: Board, pool: seq<GoBlock>, F: Groups, visited: seq<int>, ts: int, lc: seq<int>, n: int, cap: nat)
    requires CountsUpTo(g, play, F, visited, ts, lc, n) && forall id :: id in F ==> id < n
    ensures CountsUpTo(g, play, F, visited, ts, lc, cap)
  {
    hide Liberties;
  }

  lemma StoneTouched(F: Groups, visited: seq<int>, ts: int, blk: int, to: int)
    requires blk in F && 0 <= blk < |visited| && visited[blk] == ts && to in F[blk]
    ensures InTouched(F, visited, ts, to)
  {}

  /** Recounting leaves empty points and untouched stones alone. */
  lemma CountsOutside(g: Graph, play: Board, pool: seq<GoBlock>, F: Groups, visited: seq<int>, ts: int, lc: seq<int>, lc': seq<int>)
    requires |play| == |g| == |lc| && BlocksOk(g, play, pool, F) && CountsKept(F, visited, ts, lc, lc')
    ensures |lc'| == |lc|
    ensures forall p :: 0 <= p < |g| && play[p] == Empty ==> lc'[p] == lc[p]
    ensures forall p :: 0 <= p < |g| && !InTouched(F, visited, ts, p) ==> lc'[p] == lc[p]
  {
    forall p | 0 <= p < |g| && play[p] == Empty ensures !InTouched(F, visited, ts, p) {
      EmptyNotOwned(g, play, pool, F, p);
      assert forall id :: id in F ==> p !in F[id];
    }
  }

  lemma StateParts(g: Graph, b: Board, c: Color, to: int, pool: seq<GoBlock>, F: Groups)
    requires MoveState(g, b, c, to, pool, F)
    ensures MoveContext(g, b, c, to) && BlocksOk(g, b, pool, F)
  {}

  /** The dying blocks' stones, in the lists as they are after the merging. */
  lemma CapturedList(g: Graph, b: Board, c: Color, to: int, pool: seq<GoBlock>, F: Groups, G: Groups, die: seq<int>)
    requires MoveState(g, b, c, to, pool, F)
    requires forall id :: id in die <==> Dying(g, b, c, to, pool, F, id)
    requires forall j :: 0 <= j < |die| ==> die[j] in G && die[j] in F && G[die[j]] == F[die[j]]
    ensures Remove(b[to := c], StonesOf(G, die, |die|)) == Play(g, b, c, to)
    ensures forall j :: 0 <= j < |die| ==> Doomed(b[to := c], Play(g, b, c, to), c, G[die[j]])
  {
    hide MoveState, Dying, Captured;
    StateParts(g, b, c, to, pool, F);
    DyingAreCaptured(g, b, c, to, pool, F, die);
    StonesOfAt(F, die, |die|);
    StonesOfLists(F, G, die, |die|);
    forall j | 0 <= j < |die| ensures Doomed(b[to := c], Play(g, b, c, to), c, G[die[j]]) {
      assert die[j] in die;
      DyingStones(g, b, c, to, pool, F, die[j]);
      forall q | q in F[die[j]] ensures Play(g, b, c, to)[q] == Empty {
        assert q in Elems(F[die[j]]);
        assert q in StonesOf(F, die, |die|);
      }
    }
  }

  lemma {:induction false} StonesOfLists(F: Groups, G: Groups, die: seq<int>, k: nat)
    requires k <= |die| && forall j :: 0 <= j < |die| ==> die[j] in F && die[j] in G && G[die[j]] == F[die[j]]
    ensures StonesOf(F, die, k) == StonesOf(G, die, k)
  {
    if k > 0 { StonesOfLists(F, G, die, k - 1); }
  }

  /** Opponent stones that the move takes off. */
  ghost predicate Doomed(x: Board, play: Board, c: Color, ord: seq<int>) {
    forall q :: q in ord ==> 0 <= q < |x| && x[q] == Opponent(c) && q < |play| && play[q] == Empty
  }

  lemma OneMore(F: Groups, F0: Groups, blk: int)
    requires forall id :: id in F && id != blk ==> id in F0
    ensures |F| <= |F0| + 1
  {
    assert forall id :: id in F.Keys ==> id in F0.Keys + {blk};
    SubsetCount(F.Keys, F0.Keys + {blk});
  }

  /** The map holds exactly the legal points. */
  ghost predicate ExactMap(r: Rules, s: Position, m: seq<bool>)
    requires ValidPosition(r, s)
  {
    |m| == |s.board| && forall i :: 0 <= i < |m| ==> m[i] == LegalPoint(r, s, i)
  }

  lemma HistoryIsNotRead(r: Rules, s: Position, history: set<Zobrist.Hash>, m: seq<bool>)
    requires ValidPosition(r, s) && ExactMap(r, s, m)
    ensures ExactMap(r, s.(history := history), m)
  {
    forall i ensures LegalPoint(r, s.(history := history), i) == LegalPoint(r, s, i) {}
  }

  lemma LegalPointFacts(r: Rules, s: Position, i: int)
    requires ValidPosition(r, s) && LegalPoint(r, s, i)
    ensures 0 <= i < |s.board| && s.board[i] == Empty && NotSuicide(r.g, s.board, s.player, i)
  {
    if HasEmptyNeighbour(r.g, s.board, i) { EmptyNeighbourIsSafe(r.g, s.board, s.player, i); }
  }

  lemma EmptyState(r: Rules, b: Board, st: seq<GoStone>, pool: seq<GoBlock>, lc: seq<int>, words: nat)
    requires ValidRules(r) && b == InitialPosition(r).board && |st| == |lc| == |b|
    requires forall p :: 0 <= p < |st| ==> st[p].selfId == p
    requires forall p :: 0 <= p < |lc| ==> lc[p] == 0
    requires forall i :: 0 <= i < |pool| ==> pool[i].selfId == i && pool[i].HasWords(words) && !pool[i].inUse
    ensures ValidBoard(r.g, b) && PoolShape(pool, words) && Forest(st, map[]) && BlocksOk(r.g, b, pool, map[])
    ensures Covered(b, map[]) && GroupsAlive(r.g, b, map[]) && InUseExact(pool, map[])
    ensures AllocOk([], 0, map[], {}, |pool|) && Counted(r.g, b, lc)
    ensures Zobrist.HashOf(r.z, b, Black) == Zobrist.ZERO
    ensures ValidPosition(r, InitialPosition(r))
  {
    hide Liberties, GroupOf, Zobrist.Xor, Bits.Members;
    Zobrist.EmptyHash(r.z, b, |b|);
    Zobrist.XorLaws(Zobrist.ZERO, Zobrist.ZERO, Zobrist.ZERO);
  }

  lemma EmptyMap(r: Rules, s: Position, m: seq<bool>)
    requires ValidRules(r) && s == InitialPosition(r)
    requires |m| == |r.g| && forall i :: 0 <= i < |m| ==> m[i]
    ensures ExactMap(r, s, m)
  {
    forall i | 0 <= i < |m| ensures HasEmptyNeighbour(r.g, s.board, i) {
      var q := r.g[i][0];
      assert q in r.g[i];
      assert Adj(r.g, i, q);
    }
  }

  lemma ListDistinct(st: seq<GoStone>, ord: seq<int>, id: int)
    requires ListOk(st, ord, id)
    ensures |Elems(ord)| == |ord|
  {
    ElemsCount(ord);
  }

  /** There are never more groups than points. */
  lemma GroupsBound(g: Graph, b: Board)
    ensures GroupCount(g, b) <= |b|
  {
    UptoMembers(|b|);
    var leaders := set p | 0 <= p < |b| && Leads(g, b, p);
    SubsetCount(leaders, Upto(|b|));
  }

  /** A pool with more records than points has room for every move. */
  lemma AlwaysRoom(r: Rules, s: Position, to: int, cap: nat)
    requires ValidPosition(r, s) && |r.g| < cap
    ensures RoomFor(r, s, to, cap)
  {
    if LegalMove(r, s, to) {
      StepIsValid(r, s, to);
      GroupsBound(r.g, s.board);
      GroupsBound(r.g, Step(r, s, to).board);
    }
  }

  /** The pool has a record for each group of the board before and after a legal move, and one to
      spare for the trial moves on either. */
  ghost predicate RoomFor(r: Rules, s: Position, to: int, cap: nat)
    requires ValidPosition(r, s)
  {
    LegalMove(r, s, to) ==> GroupCount(r.g, s.board) < cap && GroupCount(r.g, Step(r, s, to).board) < cap
  }

  lemma StepFields(r: Rules, s: Position, to: int)
    requires ValidPosition(r, s) && LegalMove(r, s, to)
    ensures var board := if to == COORD_PASS then s.board else Play(r.g, s.board, s.player, to);
            Step(r, s, to) ==
              Position(board, Opponent(s.player), KoPoint(r.g, s.board, board, Opponent(s.player)), to,
                       s.last == COORD_PASS && to == COORD_PASS, s.history,
                       s.history + if r.superko then {Zobrist.HashOf(r.z, board, Opponent(s.player))} else {})
  {}

  lemma HeadsApart(st: seq<GoStone>, F: Groups, a: int, b: int)
    requires Forest(st, F) && a in F && b in F && a != b
    ensures |F[a]| > 0 && |F[b]| > 0
    ensures Last(F[a]) != F[b][0] && Last(F[a]) != Last(F[b])
  {
    assert ListOk(st, F[a], a) && ListOk(st, F[b], b);
    assert Last(F[a]) in F[a] && F[b][0] in F[b] && Last(F[b]) in F[b];
  }

  lemma LonelyStone(g: Graph, b: Board, p: int)
    requires ValidGraph(g) && |b| == |g| && 0 <= p < |b|
    ensures Border(g, {p}) == Elems(g[p])
    ensures Liberties(g, b, {p}) == EmptyAmong(b, Elems(g[p]))
  {
    forall q | 0 <= q < |g| ensures Touches(g, {p}, q) <==> q in g[p] {
      if q in g[p] { assert p in {p} && Adj(g, p, q); }
    }
    assert !Adj(g, p, p);
  }

  lemma StonesInRange(g: Graph, b: Board, pool: seq<GoBlock>, F: Groups)
    requires |b| == |g| && BlocksOk(g, b, pool, F)
    ensures forall id, q :: id in F && q in F[id] ==> 0 <= q < |g|
  {
    forall id, q | id in F && q in F[id] ensures 0 <= q < |g| {
      BlockParts(g, b, pool[id], F[id]);
      assert q in Elems(F[id]);
      assert Uniform(b, Elems(F[id]), pool[id].color);
    }
  }

  method CopyArray<T>(to: array<T>, from: array<T>)
    requires to != from && to.Length == from.Length
    modifies to
    ensures to[..] == from[..]
  {
    for i := 0 to from.Length
      invariant to[..i] == from[..i]
    {
      to[i] := from[i];
    }
  }
}
