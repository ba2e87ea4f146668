/** Point sets as arrays of 64-bit words, and the lowest-bit walk over them. */
module Bits {

  // ---------- one word ----------

  predicate Odd(x: bv64) { x & 1 == 1 }

  function Half(x: bv64): bv64 { x >> 1 }

  function Twice(x: bv64): bv64 { x << 1 }

  function Or(x: bv64, y: bv64): bv64 { x | y }

  function And(x: bv64, y: bv64): bv64 { x & y }

  /** x & ~y */
  function AndNot(x: bv64, y: bv64): bv64 { x & !y }

  predicate TopClear(x: bv64) { x & 0x8000_0000_0000_0000 == 0 }

  /** The word with only bit `i` set: 1ULL << i. */
  function Mask(i: nat): bv64
    requires i < 64
  {
    if i == 0 then 1 else Twice(Mask(i - 1))
  }

  predicate Bit(x: bv64, i: nat)
    requires i < 64
  {
    if i == 0 then Odd(x) else Bit(Half(x), i - 1)
  }

  function Pow2(i: nat): nat {
    if i == 0 then 1 else 2 * Pow2(i - 1)
  }

  lemma {:induction false} Pow2Monotone(i: nat, j: nat)
    requires i <= j
    ensures Pow2(i) <= Pow2(j)
  {
    if i < j { Pow2Monotone(i, j - 1); }
  }

  lemma Pow2Of62()
    ensures Pow2(62) == 0x4000_0000_0000_0000
  {
    assert Pow2(8) == 0x100;
    assert Pow2(16) == 0x1_0000;
    assert Pow2(24) == 0x100_0000;
    assert Pow2(32) == 0x1_0000_0000;
    assert Pow2(40) == 0x100_0000_0000;
    assert Pow2(48) == 0x1_0000_0000_0000;
    assert Pow2(56) == 0x100_0000_0000_0000;
  }

  // The facts about whole words, one a lemma: each is a small bit-vector problem.

  lemma ShiftValue(m: bv64)
    requires m & 0x8000_0000_0000_0000 == 0
    ensures (m << 1) as int == 2 * (m as int)
  {}

  lemma TwiceValue(m: bv64)
    requires TopClear(m)
    ensures Twice(m) as int == 2 * (m as int)
  {
    ShiftValue(m);
  }

  lemma SmallTopClear(m: bv64)
    requires m as int < 0x8000_0000_0000_0000
    ensures TopClear(m)
  {}

  lemma HalfOrTwice(x: bv64, m: bv64)
    requires TopClear(m)
    ensures Half(Or(x, Twice(m))) == Or(Half(x), m)
  {}

  lemma HalfAndNotTwice(x: bv64, m: bv64)
    requires TopClear(m)
    ensures Half(AndNot(x, Twice(m))) == AndNot(Half(x), m)
  {}

  lemma OddOrTwice(x: bv64, m: bv64)
    ensures Odd(Or(x, Twice(m))) == Odd(x)
  {}

  lemma OddAndNotTwice(x: bv64, m: bv64)
    ensures Odd(AndNot(x, Twice(m))) == Odd(x)
  {}

  lemma OddOrOne(x: bv64)
    ensures Odd(Or(x, 1))
  {}

  lemma HalfOrOne(x: bv64)
    ensures Half(Or(x, 1)) == Half(x)
  {}

  lemma OddAndNotOne(x: bv64)
    ensures !Odd(AndNot(x, 1))
  {}

  lemma HalfAndNotOne(x: bv64)
    ensures Half(AndNot(x, 1)) == Half(x)
  {}

  lemma HalfOr(x: bv64, y: bv64)
    ensures Half(Or(x, y)) == Or(Half(x), Half(y))
  {}

  lemma HalfAnd(x: bv64, y: bv64)
    ensures Half(And(x, y)) == And(Half(x), Half(y))
  {}

  lemma HalfAndNot(x: bv64, y: bv64)
    ensures Half(AndNot(x, y)) == AndNot(Half(x), Half(y))
  {}

  lemma OddOr(x: bv64, y: bv64)
    ensures Odd(Or(x, y)) == (Odd(x) || Odd(y))
  {}

  lemma OddAnd(x: bv64, y: bv64)
    ensures Odd(And(x, y)) == (Odd(x) && Odd(y))
  {}

  lemma OddAndNot(x: bv64, y: bv64)
    ensures Odd(AndNot(x, y)) == (Odd(x) && !Odd(y))
  {}

  lemma HalfOfZero()
    ensures Half(0) == 0 && !Odd(0)
  {}

  lemma {:induction false} MaskValue(i: nat)
    requires i < 64
    ensures Mask(i) as int == Pow2(i)
    ensures i < 63 ==> TopClear(Mask(i))
  {
    hide Twice, TopClear;
    if i > 0 {
      MaskValue(i - 1);
      Pow2Monotone(i - 1, 62);
      Pow2Of62();
      SmallTopClear(Mask(i - 1));
      TwiceValue(Mask(i - 1));
    }
    if i < 63 {
      Pow2Monotone(i, 62);
      Pow2Of62();
      SmallTopClear(Mask(i));
    }
  }

  /** Or-ing a mask sets that bit, and-ing its complement clears it; the others stay. */
  lemma {:induction false} MaskBits(x: bv64, i: nat, j: nat)
    requires i < 64 && j < 64
    ensures Bit(Or(x, Mask(i)), j) == (i == j || Bit(x, j))
    ensures Bit(AndNot(x, Mask(i)), j) == (i != j && Bit(x, j))
    decreases i
  {
    hide Twice, TopClear, Or, AndNot, Half, Odd;
    if i == 0 {
      OddOrOne(x); HalfOrOne(x);
      OddAndNotOne(x); HalfAndNotOne(x);
    } else {
      var m := Mask(i - 1);
      MaskValue(i - 1);
      HalfOrTwice(x, m); HalfAndNotTwice(x, m);
      OddOrTwice(x, m); OddAndNotTwice(x, m);
      if j > 0 { MaskBits(Half(x), i - 1, j - 1); }
    }
  }

  /** Word operations act bit by bit. */
  lemma {:induction false} OpBits(x: bv64, y: bv64, i: nat)
    requires i < 64
    ensures Bit(Or(x, y), i) == (Bit(x, i) || Bit(y, i))
    ensures Bit(And(x, y), i) == (Bit(x, i) && Bit(y, i))
    ensures Bit(AndNot(x, y), i) == (Bit(x, i) && !Bit(y, i))
    decreases i
  {
    hide Or, And, AndNot, Half, Odd;
    HalfOr(x, y); HalfAnd(x, y); HalfAndNot(x, y);
    OddOr(x, y); OddAnd(x, y); OddAndNot(x, y);
    if i > 0 { OpBits(Half(x), Half(y), i - 1); }
  }

  lemma {:induction false} ZeroBits(i: nat)
    requires i < 64
    ensures !Bit(0, i)
  {
    hide Half, Odd;
    HalfOfZero();
    if i > 0 { ZeroBits(i - 1); }
  }

  // ---------- word arrays ----------

  /** The points whose bit is set: point `p` lives in word p >> 6 at bit p & 63. */
  ghost function Members(w: seq<bv64>): set<int> {
    set p: int | 0 <= p < 64 * |w| && Bit(w[p / 64], p % 64)
  }

  function SetBit(w: seq<bv64>, p: int): (r: seq<bv64>)
    requires 0 <= p < 64 * |w|
    ensures |r| == |w| && Members(r) == Members(w) + {p}
  {
    hide *;
    SetBitMembers(w, p);
    w[p / 64 := Or(w[p / 64], Mask(p % 64))]
  }

  function ClearBit(w: seq<bv64>, p: int): (r: seq<bv64>)
    requires 0 <= p < 64 * |w|
    ensures |r| == |w| && Members(r) == Members(w) - {p}
  {
    hide *;
    SetBitMembers(w, p);
    w[p / 64 := AndNot(w[p / 64], Mask(p % 64))]
  }

  lemma SetBitMembers(w: seq<bv64>, p: int)
    requires 0 <= p < 64 * |w|
    ensures Members(w[p / 64 := Or(w[p / 64], Mask(p % 64))]) == Members(w) + {p}
    ensures Members(w[p / 64 := AndNot(w[p / 64], Mask(p % 64))]) == Members(w) - {p}
  {
    hide Bit, Or, AndNot, Mask;
    var i := p / 64;
    forall q | 0 <= q < 64 * |w|
      ensures Bit(w[i := Or(w[i], Mask(p % 64))][q / 64], q % 64) == (q == p || Bit(w[q / 64], q % 64))
      ensures Bit(w[i := AndNot(w[i], Mask(p % 64))][q / 64], q % 64) == (q != p && Bit(w[q / 64], q % 64))
    {
      MaskBits(w[i], p % 64, q % 64);
    }
  }

  /** memset(.., 0, ..) */
  function Zeros(n: nat): (r: seq<bv64>)
    ensures |r| == n && Members(r) == {}
  {
    var r := seq(n, _ => 0 as bv64);
    assert Members(r) == {} by {
      forall p | 0 <= p < 64 * n ensures !Bit(r[p / 64], p % 64) { ZeroBits(p % 64); }
    }
    r
  }

  /** __builtin_popcountll: the number of set bits among the lowest `k`. */
  function PopCount(x: bv64, k: nat): nat
    requires k <= 64
  {
    if k == 0 then 0 else PopCount(x, k - 1) + if Bit(x, k - 1) then 1 else 0
  }

  /** The sum of the words' bit counts. */
  function CountBits(w: seq<bv64>): (r: nat)
    ensures r == |Members(w)|
  {
    if |w| == 0 then 0
    else
      CountLastWord(w, 64);
      assert w == w[..|w| - 1] + [w[|w| - 1]];
      CountBits(w[..|w| - 1]) + PopCount(w[|w| - 1], 64)
  }

  lemma BelowStep(w: seq<bv64>, i: nat, k: nat)
    requires i < |w| && k < 64
    ensures MembersBelow(w, 64 * i + k + 1) ==
            MembersBelow(w, 64 * i + k) + if Bit(w[i], k) then {64 * i + k} else {}
    ensures 64 * i + k !in MembersBelow(w, 64 * i + k)
  {
    hide Bit;
    var q := 64 * i + k;
    assert q / 64 == i && q % 64 == k;
  }

  lemma BelowWords(w: seq<bv64>)
    requires |w| > 0
    ensures MembersBelow(w, 64 * (|w| - 1)) == Members(w[..|w| - 1])
    ensures MembersBelow(w, 64 * |w|) == Members(w)
  {
    hide Bit;
  }

  lemma {:induction false} CountLastWord(w: seq<bv64>, k: nat)
    requires |w| > 0 && k <= 64
    ensures |MembersBelow(w, 64 * (|w| - 1) + k)| == |Members(w[..|w| - 1])| + PopCount(w[|w| - 1], k)
    ensures MembersBelow(w, 64 * |w|) == Members(w)
  {
    hide Bit, Members, MembersBelow;
    BelowWords(w);
    if k > 0 {
      CountLastWord(w, k - 1);
      BelowStep(w, |w| - 1, k - 1);
    }
  }

  ghost function MembersBelow(w: seq<bv64>, n: int): set<int>
    requires n <= 64 * |w|
  {
    set p: int | 0 <= p < n && Bit(w[p / 64], p % 64)
  }
}
