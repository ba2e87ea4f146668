/** Feature vectors on the wire: eight booleans a byte, lowest bit first. */
module FeatureBits {
  import Grid

  datatype Result<T> = Ok(value: T) | Err

  /** Bit `k` of a byte, by halving. */
  function ByteBit(x: bv8, k: nat): bool {
    if k == 0 then x & 1 == 1 else ByteBit(x >> 1, k - 1)
  }

  function Power(k: nat): nat
    ensures Power(k) > 0
  {
    if k == 0 then 1 else 2 * Power(k - 1)
  }

  lemma HalfByte(x: bv8)
    ensures (x >> 1) as int == x as int / 2
  {}

  lemma OddByte(x: bv8)
    ensures x & 1 == 1 <==> x as int % 2 == 1
  {}

  lemma DivideTwice(n: nat, p: nat)
    requires p > 0
    ensures n / (2 * p) == n / 2 / p
  {
    var q, r := n / 2 / p, n / 2 % p;
    assert n / 2 == q * p + r;
    var e := n % 2;
    assert n == q * (2 * p) + (2 * r + e) && 0 <= 2 * r + e < 2 * p;
    Grid.DivideRow(2 * p, q, 2 * r + e);
  }

  /** The digit of `n` that is worth `d`, in base two. */
  predicate Digit(n: nat, d: nat) { d > 0 && n / d % 2 == 1 }

  lemma HalfDigit(n: nat, p: nat)
    requires p > 0
    ensures Digit(n, 2 * p) <==> Digit(n / 2, p)
  {
    DivideTwice(n, p);
  }

  /** Bit `k` is the digit worth 2^k. */
  lemma {:induction false} ByteBitValue(x: bv8, k: nat)
    ensures ByteBit(x, k) <==> Digit(x as int, Power(k))
  {
    if k == 0 {
      OddByte(x);
    } else {
      hide Digit;
      ByteBitValue(x >> 1, k - 1);
      HalfByte(x);
      HalfDigit(x as int, Power(k - 1));
    }
  }

  /** (unsigned char)b << k */
  function Shifted(b: bool, k: nat): bv8 {
    if !b then 0 else if k == 0 then 1 else Shifted(b, k - 1) << 1
  }

  lemma {:induction false} OrNothing(x: bv8, j: nat)
    ensures ByteBit(x | 0, j) == ByteBit(x, j)
  {
    assert x | 0 == x;
  }

  lemma HalfOrDouble(x: bv8, m: bv8)
    requires m & 0x80 == 0
    ensures (x | (m << 1)) >> 1 == (x >> 1) | m
  {}

  lemma OddOrDouble(x: bv8, m: bv8)
    ensures (x | (m << 1)) & 1 == x & 1
  {}

  lemma OrOne(x: bv8)
    ensures (x | 1) & 1 == 1 && (x | 1) >> 1 == x >> 1
  {}

  lemma ShiftedFits(k: nat)
    requires k < 8
    ensures k < 7 ==> Shifted(true, k) & 0x80 == 0
  {
    assert Shifted(true, 1) == 2;
    assert Shifted(true, 2) == 4;
    assert Shifted(true, 3) == 8;
    assert Shifted(true, 4) == 16;
    assert Shifted(true, 5) == 32;
    assert Shifted(true, 6) == 64;
    assert k in {0, 1, 2, 3, 4, 5, 6, 7};
  }

  /** Or-ing a shifted boolean changes that bit alone. */
  lemma {:induction false} OrBit(x: bv8, b: bool, k: nat, j: nat)
    requires k < 8 && j < 8
    ensures ByteBit(x | Shifted(b, k), j) == if j == k then ByteBit(x, j) || b else ByteBit(x, j)
    decreases k
  {
    if !b {
      OrNothing(x, j);
    } else if k == 0 {
      OrOne(x);
    } else {
      ShiftedFits(k - 1);
      HalfOrDouble(x, Shifted(true, k - 1));
      OddOrDouble(x, Shifted(true, k - 1));
      if j > 0 { OrBit(x >> 1, true, k - 1, j - 1); }
    }
  }

  lemma {:induction false} ZeroByte(j: nat)
    ensures !ByteBit(0, j)
  {
    if j > 0 {
      assert (0 as bv8) >> 1 == 0;
      ZeroByte(j - 1);
    }
  }

  /** The bytes that carry `features`: bit i of the stream is feature i, the rest is zero. */
  ghost predicate Encodes(bytes: seq<bv8>, features: seq<bool>) {
    && |bytes| == (|features| + 7) / 8
    && forall i :: 0 <= i < 8 * |bytes| ==> ByteBit(bytes[i / 8], i % 8) == (i < |features| && features[i])
  }

  /** The client: a vector of the wrong length is refused. */
  method Encode(features: seq<bool>, inputDim: nat) returns (r: Result<seq<bv8>>)
    ensures r.Err? <==> |features| != inputDim
    ensures r.Ok? ==> Encodes(r.value, features)
  {
    if |features| != inputDim { return Err; }
    var bytes: seq<bv8> := seq((inputDim + 7) / 8, _ => 0);
    forall j | 0 <= j < 8 ensures !ByteBit(0, j) { ZeroByte(j); }
    for i := 0 to inputDim
      invariant |bytes| == (inputDim + 7) / 8
      invariant forall p :: 0 <= p < 8 * |bytes| ==> ByteBit(bytes[p / 8], p % 8) == (p < i && features[p])
    {
      forall p | 0 <= p < 8 * |bytes| && p / 8 == i / 8
        ensures ByteBit(bytes[i / 8] | Shifted(features[i], i % 8), p % 8) ==
                if p == i then features[i] else ByteBit(bytes[p / 8], p % 8)
      {
        OrBit(bytes[i / 8], features[i], i % 8, p % 8);
      }
      bytes := bytes[i / 8 := bytes[i / 8] | Shifted(features[i], i % 8)];
    }
    r := Ok(bytes);
  }

  /** The server: too few bytes are refused, extra ones ignored. */
  method Decode(bytes: seq<bv8>, inputDim: nat) returns (r: Result<seq<bool>>)
    ensures r.Err? <==> 8 * |bytes| < inputDim
    ensures r.Ok? ==> |r.value| == inputDim && forall i :: 0 <= i < inputDim ==> r.value[i] == ByteBit(bytes[i / 8], i % 8)
    ensures forall features: seq<bool> :: Encodes(bytes, features) && |features| == inputDim ==> r == Ok(features)
  {
    if 8 * |bytes| < inputDim { return Err; }
    var features: seq<bool> := [];
    for i := 0 to inputDim
      invariant |features| == i && forall p :: 0 <= p < i ==> features[p] == ByteBit(bytes[p / 8], p % 8)
    {
      features := features + [ByteBit(bytes[i / 8], i % 8)];
    }
    r := Ok(features);
    forall f: seq<bool> | Encodes(bytes, f) && |f| == inputDim ensures f == features {
      forall i | 0 <= i < inputDim ensures f[i] == features[i] {
        assert ByteBit(bytes[i / 8], i % 8) == f[i];
      }
    }
  }
}
