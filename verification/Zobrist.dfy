/** The position hash, recomputed from the board: the exclusive or of one weight per stone and a
    side-to-move term.  The weight tables are arbitrary. */
module Zobrist {
  import opened GoRules

  /** A 64-bit hash word, as its two 32-bit halves: a weight is one random number shifted up by 32
      or-ed with another. */
  datatype Hash = Hash(hi: bv32, lo: bv32)

  const ZERO := Hash(0, 0)

  function XorWord(a: bv32, b: bv32): bv32 { a ^ b }

  function Xor(a: Hash, b: Hash): Hash {
    Hash(XorWord(a.hi, b.hi), XorWord(a.lo, b.lo))
  }

  /** One weight per point for each player, and one weight per player for the side to move. */
  datatype Table = Table(black: seq<Hash>, white: seq<Hash>, blackTurn: Hash, whiteTurn: Hash)

  predicate ValidTable(z: Table, n: int) {
    |z.black| == n && |z.white| == n
  }

  function StoneWeight(z: Table, c: Color, p: int): Hash
    requires 0 <= p < |z.black| && 0 <= p < |z.white|
  {
    match c
    case Black => z.black[p]
    case White => z.white[p]
    case _ => ZERO
  }

  function TurnWeight(z: Table, c: Color): Hash {
    if c == Black then z.blackTurn else z.whiteTurn
  }

  /** The stones on the first `k` points. */
  ghost function StonesHash(z: Table, b: Board, k: nat): Hash
    requires ValidTable(z, |b|) && k <= |b|
  {
    if k == 0 then ZERO else Xor(StonesHash(z, b, k - 1), StoneWeight(z, b[k - 1], k - 1))
  }

  ghost function TurnTerm(z: Table, player: Color): Hash {
    if player == Black then ZERO else Xor(z.blackTurn, z.whiteTurn)
  }

  /** The hash of board `b` with `player` to move; the empty board with Black to move hashes to 0. */
  ghost function HashOf(z: Table, b: Board, player: Color): Hash
    requires ValidTable(z, |b|)
  {
    Xor(StonesHash(z, b, |b|), TurnTerm(z, player))
  }

  lemma XorWordCommutes(x: bv32, y: bv32)
    ensures XorWord(x, y) == XorWord(y, x)
  {}

  lemma XorWordAssociates(a: bv32, x: bv32, y: bv32)
    ensures XorWord(a, XorWord(x, y)) == XorWord(XorWord(a, x), y)
  {}

  lemma XorWordCancels(a: bv32, x: bv32)
    ensures XorWord(XorWord(a, x), x) == a && XorWord(a, 0) == a
  {}

  lemma XorWordLaws(a: bv32, x: bv32, y: bv32)
    ensures XorWord(XorWord(a, x), y) == XorWord(XorWord(a, y), x)
    ensures XorWord(XorWord(a, x), x) == a
    ensures XorWord(a, 0) == a
    ensures XorWord(a, XorWord(x, y)) == XorWord(XorWord(a, x), y)
  {
    hide XorWord;
    XorWordAssociates(a, x, y);
    XorWordAssociates(a, y, x);
    XorWordCommutes(x, y);
    XorWordCancels(a, x);
  }

  lemma XorLaws(a: Hash, x: Hash, y: Hash)
    ensures Xor(Xor(a, x), y) == Xor(Xor(a, y), x)
    ensures Xor(Xor(a, x), x) == a
    ensures Xor(a, ZERO) == a
    ensures Xor(a, Xor(x, y)) == Xor(Xor(a, x), y)
  {
    hide XorWord;
    XorWordLaws(a.hi, x.hi, y.hi);
    XorWordLaws(a.lo, x.lo, y.lo);
  }

  lemma {:induction false} OneStone(z: Table, b: Board, p: int, c: Color, k: nat)
    requires ValidTable(z, |b|) && 0 <= p < |b| && k <= |b|
    ensures StonesHash(z, b[p := c], k) ==
            if p < k then Xor(Xor(StonesHash(z, b, k), StoneWeight(z, b[p], p)), StoneWeight(z, c, p))
            else StonesHash(z, b, k)
  {
    hide Xor;
    if k > 0 {
      OneStone(z, b, p, c, k - 1);
      var a := StonesHash(z, b, k - 1);
      var wb, wc, wk := StoneWeight(z, b[p], p), StoneWeight(z, c, p), StoneWeight(z, b[k - 1], k - 1);
      XorLaws(Xor(a, wb), wc, wk);
      XorLaws(a, wb, wk);
    }
  }

  /** Changing one point changes the hash by the two weights of that point. */
  lemma ChangePoint(z: Table, b: Board, player: Color, p: int, c: Color)
    requires ValidTable(z, |b|) && 0 <= p < |b|
    ensures HashOf(z, b[p := c], player) ==
            Xor(Xor(HashOf(z, b, player), StoneWeight(z, b[p], p)), StoneWeight(z, c, p))
  {
    hide Xor;
    OneStone(z, b, p, c, |b|);
    var a := StonesHash(z, b, |b|);
    var wb, wc, t := StoneWeight(z, b[p], p), StoneWeight(z, c, p), TurnTerm(z, player);
    XorLaws(Xor(a, wb), wc, t);
    XorLaws(a, wb, t);
  }

  /** Handing the turn over changes the hash by both players' turn weights. */
  lemma ChangeTurn(z: Table, b: Board, player: Color)
    requires ValidTable(z, |b|) && IsPlayer(player)
    ensures HashOf(z, b, Opponent(player)) ==
            Xor(Xor(HashOf(z, b, player), TurnWeight(z, player)), TurnWeight(z, Opponent(player)))
  {
    hide Xor;
    var h, x, y := StonesHash(z, b, |b|), z.blackTurn, z.whiteTurn;
    XorLaws(h, x, y);
    XorLaws(Xor(Xor(h, x), y), y, x);
    XorLaws(Xor(h, x), y, x);
    XorLaws(h, x, x);
  }

  /** What a stone adds, read off the table: black stones their black weight, white their white. */
  lemma StoneHashes(z: Table, b: Board, player: Color, p: int)
    requires ValidTable(z, |b|) && 0 <= p < |b| && b[p] == Empty
    ensures HashOf(z, b[p := Black], player) == Xor(HashOf(z, b, player), z.black[p])
    ensures HashOf(z, b[p := White], player) == Xor(HashOf(z, b, player), z.white[p])
  {
    ChangePoint(z, b, player, p, Black);
    ChangePoint(z, b, player, p, White);
    hide Xor;
    XorLaws(HashOf(z, b, player), ZERO, ZERO);
  }

  /** White to move differs from Black to move by both players' weights. */
  lemma TurnHashes(z: Table, b: Board)
    requires ValidTable(z, |b|)
    ensures HashOf(z, b, White) == Xor(HashOf(z, b, Black), Xor(z.blackTurn, z.whiteTurn))
  {
    hide Xor;
    XorLaws(StonesHash(z, b, |b|), ZERO, ZERO);
  }

  /** The hash of a new game is zero, whatever the weights. */
  lemma EmptyBoardHash(z: Table, b: Board)
    requires ValidTable(z, |b|) && forall p :: 0 <= p < |b| ==> b[p] == Empty
    ensures HashOf(z, b, Black) == Hash(0, 0)
  {
    EmptyHash(z, b, |b|);
    XorLaws(ZERO, ZERO, ZERO);
  }

  lemma XorWordInjective(h: bv32, x: bv32, y: bv32)
    requires XorWord(h, x) == XorWord(h, y)
    ensures x == y
  {}

  lemma XorInjective(h: Hash, x: Hash, y: Hash)
    requires Xor(h, x) == Xor(h, y)
    ensures x == y
  {
    XorWordInjective(h.hi, x.hi, y.hi);
    XorWordInjective(h.lo, x.lo, y.lo);
  }

  /** Two colours on one point hash alike exactly when their two weights are the same. */
  lemma ColoursDiffer(z: Table, b: Board, player: Color, p: int)
    requires ValidTable(z, |b|) && 0 <= p < |b|
    ensures HashOf(z, b[p := Black], player) == HashOf(z, b[p := White], player) <==> z.black[p] == z.white[p]
  {
    var e := b[p := Empty];
    StoneHashes(z, e, player, p);
    assert e[p := Black] == b[p := Black] && e[p := White] == b[p := White];
    if HashOf(z, b[p := Black], player) == HashOf(z, b[p := White], player) {
      XorInjective(HashOf(z, e, player), z.black[p], z.white[p]);
    }
  }

  lemma EmptyHash(z: Table, b: Board, k: nat)
    requires ValidTable(z, |b|) && k <= |b| && forall p :: 0 <= p < |b| ==> b[p] == Empty
    ensures StonesHash(z, b, k) == ZERO
  {
    if k > 0 {
      EmptyHash(z, b, k - 1);
      XorLaws(ZERO, ZERO, ZERO);
    }
  }

  /** Taking one more stone off changes the hash by its weight. */
  lemma RemoveStone(z: Table, b: Board, R: set<int>, q: int, c: Color, player: Color)
    requires ValidTable(z, |b|) && 0 <= q < |b| && q !in R && b[q] == c
    ensures HashOf(z, Remove(b, R + {q}), player) == Xor(HashOf(z, Remove(b, R), player), StoneWeight(z, c, q))
  {
    hide Xor;
    var x := Remove(b, R);
    assert Remove(b, R + {q}) == x[q := Empty];
    ChangePoint(z, x, player, q, Empty);
    XorLaws(Xor(HashOf(z, x, player), StoneWeight(z, c, q)), ZERO, ZERO);
  }

  /** The turn and the played stone, as a move hashes them before any capture. */
  lemma PlaceStone(z: Table, b: Board, c: Color, p: int)
    requires ValidTable(z, |b|) && 0 <= p < |b| && b[p] == Empty && IsPlayer(c)
    ensures HashOf(z, b[p := c], Opponent(c)) ==
            Xor(Xor(Xor(HashOf(z, b, c), TurnWeight(z, c)), TurnWeight(z, Opponent(c))), StoneWeight(z, c, p))
  {
    hide Xor;
    ChangeTurn(z, b, c);
    ChangePoint(z, b, Opponent(c), p, c);
    XorLaws(HashOf(z, b, Opponent(c)), ZERO, ZERO);
  }

  lemma RemoveNothing(b: Board)
    ensures Remove(b, {}) == b
  {}
}
