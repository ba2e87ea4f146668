/** Stones and block records as they are stored in the arrays of the board. */
module Blocks {
  import opened GoRules
  import opened Bits

  const BLOCK_UNSET: int := -1

  datatype GoStone = GoStone(selfId: int, blockId: int, nextId: int, parentId: int) {
    function Reset(block: int): GoStone {
      GoStone(selfId, block, selfId, selfId)
    }
  }

  datatype GoBlock = GoBlock(
    selfId: int, color: Color, liberty: int, head: int, tail: int, stoneCount: int, inUse: bool,
    libertyState: seq<bv64>, virtualLibertyState: seq<bv64>, stoneState: seq<bv64>)
  {
    predicate HasWords(n: nat) {
      |libertyState| == n && |virtualLibertyState| == n && |stoneState| == n
    }

    ghost function Libs(): set<int> { Members(libertyState) }

    ghost function Virts(): set<int> { Members(virtualLibertyState) }

    ghost function Stones(): set<int> { Members(stoneState) }

    function Reset(n: nat): (r: GoBlock)
      ensures r.HasWords(n) && r.Libs() == {} && r.Virts() == {} && r.Stones() == {}
      ensures r.selfId == selfId && !r.inUse
    {
      this.(libertyState := Zeros(n), virtualLibertyState := Zeros(n), stoneState := Zeros(n),
            inUse := false, head := -2, tail := -2, liberty := 0, stoneCount := 0)
    }

    function SetLiberty(p: int): (r: GoBlock)
      requires 0 <= p < 64 * |libertyState|
      ensures r == this.(libertyState := r.libertyState) && |r.libertyState| == |libertyState|
      ensures r.Libs() == Libs() + {p}
    {
      this.(libertyState := SetBit(libertyState, p))
    }

    function ResetLiberty(p: int): (r: GoBlock)
      requires 0 <= p < 64 * |libertyState|
      ensures r == this.(libertyState := r.libertyState) && |r.libertyState| == |libertyState|
      ensures r.Libs() == Libs() - {p}
    {
      this.(libertyState := ClearBit(libertyState, p))
    }

    function SetVirtLiberty(p: int): (r: GoBlock)
      requires 0 <= p < 64 * |virtualLibertyState|
      ensures r == this.(virtualLibertyState := r.virtualLibertyState)
      ensures |r.virtualLibertyState| == |virtualLibertyState| && r.Virts() == Virts() + {p}
    {
      this.(virtualLibertyState := SetBit(virtualLibertyState, p))
    }

    function SetStoneState(p: int): (r: GoBlock)
      requires 0 <= p < 64 * |stoneState|
      ensures r == this.(stoneState := r.stoneState) && |r.stoneState| == |stoneState|
      ensures r.Stones() == Stones() + {p}
    {
      this.(stoneState := SetBit(stoneState, p))
    }

    /** Recounts the liberties and caches the number. */
    function CountLiberty(): (r: GoBlock)
      ensures r == this.(liberty := |Libs()|)
    {
      this.(liberty := CountBits(libertyState))
    }
  }

  /** One word of a merge: stones, virtual liberties and liberties. */
  function MergedStones(s: bv64, t: bv64): bv64 { Or(s, t) }

  function MergedVirts(s: bv64, t: bv64, v: bv64, w: bv64): bv64 { AndNot(Or(v, w), Or(s, t)) }

  function MergedLibs(s: bv64, t: bv64, v: bv64, w: bv64, l: bv64, m: bv64): bv64 {
    And(Or(l, m), AndNot(Or(v, w), Or(s, t)))
  }

  lemma MergedWord(s: bv64, t: bv64, v: bv64, w: bv64, l: bv64, m: bv64, i: nat)
    requires i < 64
    ensures Bit(MergedStones(s, t), i) == (Bit(s, i) || Bit(t, i))
    ensures Bit(MergedVirts(s, t, v, w), i) == ((Bit(v, i) || Bit(w, i)) && !(Bit(s, i) || Bit(t, i)))
    ensures Bit(MergedLibs(s, t, v, w, l, m), i) == ((Bit(l, i) || Bit(m, i)) && Bit(MergedVirts(s, t, v, w), i))
  {
    hide Bit, Or, And, AndNot;
    OpBits(s, t, i);
    OpBits(v, w, i);
    OpBits(l, m, i);
    OpBits(Or(v, w), Or(s, t), i);
    OpBits(Or(l, m), AndNot(Or(v, w), Or(s, t)), i);
  }

  ghost predicate MergedUpTo(b: GoBlock, a: GoBlock, r: GoBlock, i: nat)
    requires b.HasWords(|r.stoneState|) && a.HasWords(|r.stoneState|) && r.HasWords(|r.stoneState|)
    requires i <= |r.stoneState|
  {
    forall j :: 0 <= j < i ==>
      && r.stoneState[j] == MergedStones(b.stoneState[j], a.stoneState[j])
      && r.virtualLibertyState[j] == MergedVirts(b.stoneState[j], a.stoneState[j],
                                                 b.virtualLibertyState[j], a.virtualLibertyState[j])
      && r.libertyState[j] == MergedLibs(b.stoneState[j], a.stoneState[j],
                                         b.virtualLibertyState[j], a.virtualLibertyState[j],
                                         b.libertyState[j], a.libertyState[j])
  }

  lemma MergedMembers(b: GoBlock, a: GoBlock, r: GoBlock, n: nat)
    requires b.HasWords(n) && a.HasWords(n) && r.HasWords(n) && MergedUpTo(b, a, r, n)
    ensures r.Stones() == b.Stones() + a.Stones()
    ensures r.Virts() == (b.Virts() + a.Virts()) - r.Stones()
    ensures r.Libs() == (b.Libs() + a.Libs()) * r.Virts()
  {
    hide Bit, MergedStones, MergedVirts, MergedLibs;
    forall p | 0 <= p < 64 * n
      ensures p in r.Stones() <==> p in b.Stones() + a.Stones()
      ensures p in r.Virts() <==> p in (b.Virts() + a.Virts()) - r.Stones()
      ensures p in r.Libs() <==> p in (b.Libs() + a.Libs()) * r.Virts()
    {
      var j := p / 64;
      MergedWord(b.stoneState[j], a.stoneState[j], b.virtualLibertyState[j], a.virtualLibertyState[j],
                 b.libertyState[j], a.libertyState[j], p % 64);
    }
  }

  lemma DyingMembers(b: GoBlock, d: GoBlock, r: GoBlock, n: nat)
    requires b.HasWords(n) && d.HasWords(n) && r.HasWords(n) && r.virtualLibertyState == b.virtualLibertyState
    requires forall j :: 0 <= j < n ==>
               r.libertyState[j] == And(Or(b.libertyState[j], d.stoneState[j]), b.virtualLibertyState[j])
    ensures r.Libs() == (b.Libs() + d.Stones()) * b.Virts()
  {
    hide Bit, And, Or;
    forall p | 0 <= p < 64 * n
      ensures p in r.Libs() <==> p in (b.Libs() + d.Stones()) * b.Virts()
    {
      var j := p / 64;
      OpBits(b.libertyState[j], d.stoneState[j], p % 64);
      OpBits(Or(b.libertyState[j], d.stoneState[j]), b.virtualLibertyState[j], p % 64);
    }
  }

  /** Merges block `a` into `blk`, word by word. */
  method TryMergeBlocks(blk: GoBlock, a: GoBlock, ghost n: nat) returns (r: GoBlock)
    requires blk.HasWords(n) && a.HasWords(n)
    ensures r == blk.(stoneCount := blk.stoneCount + a.stoneCount, stoneState := r.stoneState,
                      virtualLibertyState := r.virtualLibertyState, libertyState := r.libertyState)
    ensures r.HasWords(n)
    ensures r.Stones() == blk.Stones() + a.Stones()
    ensures r.Virts() == (blk.Virts() + a.Virts()) - r.Stones()
    ensures r.Libs() == (blk.Libs() + a.Libs()) * r.Virts()
  {
    hide Members, MergedStones, MergedVirts, MergedLibs, Or, And, AndNot;
    r := blk.(stoneCount := blk.stoneCount + a.stoneCount);
    for i := 0 to |blk.libertyState|
      invariant r == blk.(stoneCount := blk.stoneCount + a.stoneCount, stoneState := r.stoneState,
                          virtualLibertyState := r.virtualLibertyState, libertyState := r.libertyState)
      invariant r.HasWords(n) && MergedUpTo(blk, a, r, i)
      invariant forall j :: i <= j < n ==> r.stoneState[j] == blk.stoneState[j]
      invariant forall j :: i <= j < n ==> r.virtualLibertyState[j] == blk.virtualLibertyState[j]
      invariant forall j :: i <= j < n ==> r.libertyState[j] == blk.libertyState[j]
    {
      var s, t := r.stoneState[i], a.stoneState[i];
      var v, w := r.virtualLibertyState[i], a.virtualLibertyState[i];
      var l, m := r.libertyState[i], a.libertyState[i];
      r := r.(stoneState := r.stoneState[i := MergedStones(s, t)],
              virtualLibertyState := r.virtualLibertyState[i := MergedVirts(s, t, v, w)],
              libertyState := r.libertyState[i := MergedLibs(s, t, v, w, l, m)]);
    }
    MergedMembers(blk, a, r, n);
  }

  /** Adds the stones of a dying block as liberties, as far as they are next to `blk`. */
  method AddDyingStones(blk: GoBlock, dying: GoBlock, ghost n: nat) returns (r: GoBlock)
    requires blk.HasWords(n) && dying.HasWords(n)
    ensures r == blk.(libertyState := r.libertyState) && r.HasWords(n)
    ensures r.Libs() == (blk.Libs() + dying.Stones()) * blk.Virts()
  {
    hide Members, Or, And;
    r := blk;
    for k := 0 to |blk.libertyState|
      invariant r == blk.(libertyState := r.libertyState) && r.HasWords(n)
      invariant forall j :: 0 <= j < k ==>
        r.libertyState[j] == And(Or(blk.libertyState[j], dying.stoneState[j]), blk.virtualLibertyState[j])
      invariant forall j :: k <= j < n ==> r.libertyState[j] == blk.libertyState[j]
    {
      var l := Or(r.libertyState[k], dying.stoneState[k]);
      r := r.(libertyState := r.libertyState[k := And(l, r.virtualLibertyState[k])]);
    }
    DyingMembers(blk, dying, r, n);
  }
}
