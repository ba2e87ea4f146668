/** The walk over a liberty set, lowest bit first, with the mod 67 table. */
module LibertyWalk {
  import opened Bits

  // ---------- the table ----------

  /** 2^k mod 67, computed by doubling. */
  function Residue(k: nat): (r: nat)
    ensures 0 < r < 67
  {
    if k == 0 then 1 else DoubleNonZero(Residue(k - 1)); 2 * Residue(k - 1) % 67
  }

  lemma DoubleNonZero(r: nat)
    requires 0 < r < 67
    ensures 0 < 2 * r % 67 < 67
  {}

  lemma ModuloAt(q: nat, r: nat)
    requires r < 67
    ensures (67 * q + r) % 67 == r
  {}

  lemma DoubleModulo(a: nat)
    ensures 2 * a % 67 == 2 * (a % 67) % 67
  {
    var q, r := a / 67, a % 67;
    if 2 * r < 67 {
      ModuloAt(2 * q, 2 * r);
    } else {
      ModuloAt(2 * q + 1, 2 * r - 67);
    }
  }

  lemma {:induction false} ResidueOfPow2(k: nat)
    ensures Pow2(k) % 67 == Residue(k)
  {
    if k > 0 {
      ResidueOfPow2(k - 1);
      DoubleModulo(Pow2(k - 1));
    }
  }

  lemma ResidueStep(k: nat)
    ensures var r := Residue(k); Residue(k + 1) == if 2 * r < 67 then 2 * r else 2 * r - 67
  {}

  /** Doubling modulo 67 loses nothing. */
  lemma HalveResidue(j: nat, k: nat)
    requires Residue(j + 1) == Residue(k + 1)
    ensures Residue(j) == Residue(k)
  {
    hide Residue;
    ResidueStep(j); ResidueStep(k);
  }

  lemma ResidueAtZero()
    ensures Residue(0) == 1
  {}

  lemma EightSteps(k: nat)
    requires var r := Residue(k); r == 1 || r == 55 || r == 10 || r == 14 || r == 33 || r == 6 || r == 62 || r == 60
    ensures Residue(k + 8) == 256 * Residue(k) % 67
    ensures forall j :: k < j < k + 8 ==> Residue(j) != 1
  {
    hide Residue;
    ResidueStep(k); ResidueStep(k + 1); ResidueStep(k + 2); ResidueStep(k + 3);
    ResidueStep(k + 4); ResidueStep(k + 5); ResidueStep(k + 6); ResidueStep(k + 7);
  }

  /** The powers do not come back to 1 within 63 doublings. */
  lemma NoEarlyReturn(k: nat)
    requires 0 < k < 64
    ensures Residue(k) != 1
  {
    ResidueAtZero();
    hide Residue;
    EightSteps(0); assert Residue(8) == 55;
    EightSteps(8); assert Residue(16) == 10;
    EightSteps(16); assert Residue(24) == 14;
    EightSteps(24); assert Residue(32) == 33;
    EightSteps(32); assert Residue(40) == 6;
    EightSteps(40); assert Residue(48) == 62;
    EightSteps(48); assert Residue(56) == 60;
    EightSteps(56);
  }

  /** The lowest bits of a 64-bit word have 64 different residues. */
  lemma {:induction false} ResiduesDiffer(j: nat, k: nat)
    requires j < k < 64
    ensures Residue(j) != Residue(k)
  {
    if j == 0 {
      NoEarlyReturn(k);
    } else {
      if Residue(j) == Residue(k) { HalveResidue(j - 1, k - 1); }
      ResiduesDiffer(j - 1, k - 1);
    }
  }

  ghost predicate Log2Table(t: seq<int>) {
    |t| == 67 && forall k :: 0 <= k < 64 ==> t[Pow2(k) % 67] == k
  }

  method CreateQuickLog2Table() returns (table: array<int>)
    ensures fresh(table) && Log2Table(table[..])
  {
    table := new int[67](_ => -1);
    var tmp := 1;
    for i := 0 to 64
      invariant tmp == Residue(i)
      invariant forall k :: 0 <= k < i ==> table[Residue(k)] == k
    {
      forall k | 0 <= k < i ensures Residue(k) != tmp { ResiduesDiffer(k, i); }
      table[tmp] := i;
      tmp := tmp * 2;
      tmp := tmp % 67;
    }
    forall k | 0 <= k < 64 ensures table[..][Pow2(k) % 67] == k { ResidueOfPow2(k); }
  }

  // ---------- the lowest bit ----------

  /** x & -x */
  function Lowbit(x: bv64): bv64 { x & (0 - x) }

  lemma LowbitOdd(x: bv64)
    requires Odd(x)
    ensures Lowbit(x) == 1
  {}

  lemma LowbitEven(x: bv64)
    requires !Odd(x)
    ensures Lowbit(x) == Twice(Lowbit(Half(x)))
  {}

  ghost predicate IsLowest(x: bv64, k: nat) {
    k < 64 && Bit(x, k) && forall j :: 0 <= j < k ==> !Bit(x, j)
  }

  lemma {:induction false} LowbitIsLowest(x: bv64, k: nat)
    requires IsLowest(x, k)
    ensures Lowbit(x) == Mask(k)
    decreases k
  {
    hide Lowbit, Odd, Half, Twice;
    assert k > 0 ==> !Bit(x, 0);
    if k == 0 {
      LowbitOdd(x);
    } else {
      LowbitEven(x);
      forall j | 0 <= j < k - 1 ensures !Bit(Half(x), j) { assert !Bit(x, j + 1); }
      LowbitIsLowest(Half(x), k - 1);
    }
  }

  lemma ZeroFromHalf(x: bv64)
    requires !Odd(x) && Half(x) == 0
    ensures x == 0
  {}

  /** The word whose lowest `m` bits are set. */
  function LowOnes(m: nat): bv64 {
    if m == 0 then 0 else Or(Twice(LowOnes(m - 1)), 1)
  }

  lemma HalfWithin(x: bv64, z: bv64)
    requires And(x, Or(Twice(z), 1)) == x
    ensures And(Half(x), z) == Half(x)
  {}

  lemma NothingWithin(x: bv64)
    requires And(x, 0) == x
    ensures x == 0
  {}

  lemma AllOnes(x: bv64)
    ensures And(x, 0xFFFF_FFFF_FFFF_FFFF) == x
  {}

  lemma Ones64()
    ensures LowOnes(64) == 0xFFFF_FFFF_FFFF_FFFF
  {
    assert LowOnes(8) == 0xFF;
    assert LowOnes(16) == 0xFFFF;
    assert LowOnes(24) == 0xFF_FFFF;
    assert LowOnes(32) == 0xFFFF_FFFF;
    assert LowOnes(40) == 0xFF_FFFF_FFFF;
    assert LowOnes(48) == 0xFFFF_FFFF_FFFF;
    assert LowOnes(56) == 0xFF_FFFF_FFFF_FFFF;
  }

  lemma {:induction false} AllClear(x: bv64, m: nat)
    requires m <= 64 && And(x, LowOnes(m)) == x
    requires forall j :: 0 <= j < m ==> !Bit(x, j)
    ensures x == 0
    decreases m
  {
    hide Odd, Half, And, Or, Twice;
    if m == 0 {
      NothingWithin(x);
    } else {
      assert !Bit(x, 0);
      forall j | 0 <= j < m - 1 ensures !Bit(Half(x), j) { assert !Bit(x, j + 1); }
      HalfWithin(x, LowOnes(m - 1));
      AllClear(Half(x), m - 1);
      ZeroFromHalf(x);
    }
  }

  /** A word is zero exactly when it has no bit; otherwise it has a lowest one. */
  lemma HasLowest(x: bv64) returns (k: nat)
    requires x != 0
    ensures IsLowest(x, k)
  {
    hide Bit, And;
    if forall j :: 0 <= j < 64 ==> !Bit(x, j) {
      Ones64();
      AllOnes(x);
      AllClear(x, 64);
    }
    k := 0;
    while !Bit(x, k)
      invariant k < 64 && forall j :: 0 <= j < k ==> !Bit(x, j)
      decreases 64 - k
    {
      if k == 63 { assert forall j :: 0 <= j < 64 ==> !Bit(x, j); }
      k := k + 1;
    }
  }

  // ---------- the bits above a position ----------

  /** uint64_t(-1) << c */
  function OnesFrom(c: nat): bv64
    requires c < 64
  {
    if c == 0 then 0xFFFF_FFFF_FFFF_FFFF else Twice(OnesFrom(c - 1))
  }

  lemma OddTwice(x: bv64)
    ensures !Odd(Twice(x))
  {}

  lemma HalfTwice(x: bv64)
    ensures Half(Twice(x)) == AndNot(x, 0x8000_0000_0000_0000)
  {}

  lemma TopMask()
    ensures Mask(63) == 0x8000_0000_0000_0000
  {
    assert Mask(8) == 0x100;
    assert Mask(16) == 0x1_0000;
    assert Mask(24) == 0x100_0000;
    assert Mask(32) == 0x1_0000_0000;
    assert Mask(40) == 0x100_0000_0000;
    assert Mask(48) == 0x1_0000_0000_0000;
    assert Mask(56) == 0x100_0000_0000_0000;
  }

  /** Shifting left moves every bit one place up. */
  lemma TwiceBits(x: bv64, j: nat)
    requires j < 64
    ensures Bit(Twice(x), j) == (j > 0 && Bit(x, j - 1))
  {
    hide Odd, Half, Twice, AndNot, Mask;
    if j == 0 {
      OddTwice(x);
    } else {
      HalfTwice(x);
      TopMask();
      MaskBits(x, 63, j - 1);
    }
  }

  lemma {:induction false} AllOnesBits(j: nat)
    requires j < 64
    ensures Bit(0xFFFF_FFFF_FFFF_FFFF, j)
  {
    hide Bit, And;
    TopMask();
    AllOnes(Mask(j));
    OpBits(Mask(j), 0xFFFF_FFFF_FFFF_FFFF, j);
    OrZero(Mask(j));
    MaskBits(0, j, j);
  }

  lemma OrZero(x: bv64)
    ensures Or(0, x) == x
  {}

  lemma {:induction false} OnesFromBits(c: nat, j: nat)
    requires c < 64 && j < 64
    ensures Bit(OnesFrom(c), j) == (j >= c)
    decreases c
  {
    hide Bit, Twice;
    if c == 0 {
      AllOnesBits(j);
    } else {
      TwiceBits(OnesFrom(c - 1), j);
      if j > 0 { OnesFromBits(c - 1, j - 1); }
    }
  }

  // ---------- the walk ----------

  /** `r` is the first member of the set that is at least `from`, or `end` when there is none. */
  ghost predicate FirstFrom(w: seq<bv64>, from: int, end: int, r: int) {
    && (r == end || (r in Members(w) && from <= r))
    && forall q :: q in Members(w) && from <= q ==> r != end && r <= q
  }

  /** g_log2_table[Lowbit(val) % 67] */
  method LowestIndex(table: array<int>, val: bv64) returns (k: nat)
    requires Log2Table(table[..]) && val != 0
    ensures IsLowest(val, k)
  {
    hide IsLowest, Lowbit;
    ghost var low := HasLowest(val);
    LowestBelow(val, low);
    LowbitIsLowest(val, low);
    MaskValue(low);
    k := table[(Lowbit(val) as int) % 67];
    assert k == table[..][Pow2(low) % 67];
  }

  lemma LowestBelow(x: bv64, k: nat)
    requires IsLowest(x, k)
    ensures k < 64
  {}

  /** The bits of `val` are those of word `i` from bit `c` on. */
  ghost predicate Tail(w: seq<bv64>, i: nat, c: nat, val: bv64)
    requires i < |w|
  {
    forall j :: 0 <= j < 64 ==> Bit(val, j) == (j >= c && Bit(w[i], j))
  }

  lemma TailFound(w: seq<bv64>, i: nat, c: nat, val: bv64, k: nat, end: int)
    requires i < |w| && Tail(w, i, c, val) && IsLowest(val, k)
    requires forall p :: p in Members(w) ==> p < end
    ensures FirstFrom(w, 64 * i + c, end, 64 * i + k)
  {
    hide Bit;
    assert Bit(w[i], k) && k >= c;
    assert (64 * i + k) / 64 == i && (64 * i + k) % 64 == k;
    forall q | q in Members(w) && 64 * i + c <= q ensures 64 * i + k <= q {
      if q / 64 == i {
        assert Bit(val, q % 64);
        assert q % 64 >= k;
      }
    }
  }

  lemma TailEmpty(w: seq<bv64>, i: nat, c: nat, q: int)
    requires i < |w| && Tail(w, i, c, 0) && q in Members(w) && 64 * i + c <= q
    ensures 64 * (i + 1) <= q
  {
    hide Bit;
    ZeroBits(q % 64);
  }

  lemma TailAt(w: seq<bv64>, i: nat, c: nat)
    requires i < |w| && c < 64
    ensures Tail(w, i, c, And(w[i], OnesFrom(c)))
    ensures Tail(w, i, 0, w[i]) && Tail(w, i, 64, 0)
  {
    hide Bit, And;
    forall j | 0 <= j < 64
      ensures Bit(And(w[i], OnesFrom(c)), j) == (j >= c && Bit(w[i], j)) && !Bit(0, j)
    {
      OpBits(w[i], OnesFrom(c), j);
      OnesFromBits(c, j);
      ZeroBits(j);
    }
  }

  method LibBegin(table: array<int>, w: array<bv64>, end: int) returns (r: int)
    requires Log2Table(table[..]) && forall p :: p in Members(w[..]) ==> p < end
    ensures FirstFrom(w[..], 0, end, r)
  {
    hide Members, IsLowest, Bit, Tail, Log2Table;
    NoneBeyond(w[..]);
    for i := 0 to w.Length
      invariant forall q :: q in Members(w[..]) ==> 64 * i <= q
    {
      TailAt(w[..], i, 0);
      if 0 == w[i] {
        forall q | q in Members(w[..]) ensures 64 * (i + 1) <= q { TailEmpty(w[..], i, 0, q); }
      } else {
        var k := LowestIndex(table, w[i]);
        TailFound(w[..], i, 0, w[i], k, end);
        return k + 64 * i;
      }
    }
    NoneBeyond(w[..]);
    return end;
  }

  lemma NoneBeyond(w: seq<bv64>)
    ensures forall q :: q in Members(w) ==> 0 <= q < 64 * |w|
  {}

  /** The source also loads the word past the array just before it gives up; the value is not
      used, and the load is guarded here. */
  method LibNext(table: array<int>, w: array<bv64>, end: int, id: nat) returns (r: int)
    requires Log2Table(table[..]) && id < 64 * w.Length && forall p :: p in Members(w[..]) ==> p < end
    ensures FirstFrom(w[..], id + 1, end, r)
  {
    hide Members, IsLowest, Bit, Tail, Log2Table, And, OnesFrom;
    var i, val: bv64 := id / 64, 0;
    ghost var c := id % 64 + 1;
    if id % 64 != 63 {
      val := And(w[i], OnesFrom(id % 64 + 1));
      TailAt(w[..], i, c);
    } else {
      TailAt(w[..], i, 0);
    }
    while i < w.Length
      invariant id / 64 <= i <= w.Length && 0 <= c
      invariant i < w.Length ==> Tail(w[..], i, c, val)
      invariant id + 1 <= 64 * i + c
      invariant forall q :: q in Members(w[..]) && id + 1 <= q ==> 64 * i + c <= q
      invariant i == w.Length ==> c == 0
      decreases w.Length - i
    {
      if 0 == val {
        forall q | q in Members(w[..]) && id + 1 <= q ensures 64 * (i + 1) <= q { TailEmpty(w[..], i, c, q); }
        c := 0;
        i := i + 1;
        if i < w.Length {
          val := w[i];
          TailAt(w[..], i, 0);
        }
      } else {
        var k := LowestIndex(table, val);
        TailFound(w[..], i, c, val, k, end);
        FirstFromTail(w[..], id + 1, 64 * i + c, end, 64 * i + k);
        return k + 64 * i;
      }
    }
    NoneBeyond(w[..]);
    return end;
  }

  lemma FirstFromTail(w: seq<bv64>, from: int, later: int, end: int, r: int)
    requires from <= later && FirstFrom(w, later, end, r)
    requires forall q :: q in Members(w) && from <= q ==> later <= q
    ensures FirstFrom(w, from, end, r)
  {}

  ghost predicate Increasing(s: seq<int>) {
    forall i, j :: 0 <= i < j < |s| ==> s[i] < s[j]
  }

  /** FOR_BLOCKLIB: the walk visits the liberties, each once, from the lowest up. */
  method ForBlockLiberties(table: array<int>, w: array<bv64>, end: int) returns (ids: seq<int>)
    requires Log2Table(table[..]) && forall p :: p in Members(w[..]) ==> p < end
    ensures Increasing(ids) && forall p :: p in ids <==> p in Members(w[..])
  {
    hide Members, Log2Table;
    ids := [];
    NoneBeyond(w[..]);
    var id := LibBegin(table, w, end);
    ghost var from := 0;
    while id != end
      invariant 0 <= from && FirstFrom(w[..], from, end, id)
      invariant Increasing(ids) && (ids != [] ==> ids[|ids| - 1] < from)
      invariant forall p :: p in ids <==> p in Members(w[..]) && p < from
      decreases 64 * w.Length - from
    {
      ids := ids + [id];
      from := id + 1;
      id := LibNext(table, w, end, id);
    }
  }
}
