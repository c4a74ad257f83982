/** Bitwise arithmetic on unbounded naturals, as Python integers compute it. */
module BitMath {

  function Pow2(n: nat): (p: nat)
    ensures p > 0
  {
    if n == 0 then 1 else 2 * Pow2(n - 1)
  }

  /** Bitwise exclusive or of two unbounded naturals. */
  function Xor(a: nat, b: nat): nat
    decreases a + b
  {
    if a == 0 && b == 0 then 0 else 2 * Xor(a / 2, b / 2) + (a + b) % 2
  }

  function BitCount(x: nat): nat {
    if x == 0 then 0 else x % 2 + BitCount(x / 2)
  }

  function Bit(x: nat, i: nat): bool {
    if i == 0 then x % 2 == 1 else Bit(x / 2, i - 1)
  }

  /** Hamming distance. */
  function Distance(a: nat, b: nat): nat {
    BitCount(Xor(a, b))
  }

  lemma Doubled(y: nat, r: nat)
    requires r < 2
    ensures (2 * y + r) / 2 == y && (2 * y + r) % 2 == r
  {
  }

  lemma {:induction false} BitCountStep(y: nat, r: nat)
    requires r < 2
    ensures BitCount(2 * y + r) == r + BitCount(y)
  {
    Doubled(y, r);
  }

  lemma ParityOfSum(a: nat, b: nat)
    ensures (a + b) % 2 == if a % 2 != b % 2 then 1 else 0
  {
  }

  lemma {:induction false} DistanceStep(a: nat, b: nat)
    ensures Distance(a, b) == (if a % 2 != b % 2 then 1 else 0) + Distance(a / 2, b / 2)
  {
    ParityOfSum(a, b);
    BitCountStep(Xor(a / 2, b / 2), (a + b) % 2);
    assert Xor(a, b) == 2 * Xor(a / 2, b / 2) + (a + b) % 2;
    hide BitCount, Xor;
  }

  lemma {:induction false} DistanceZero(a: nat, b: nat)
    ensures Distance(a, b) == 0 <==> a == b
    decreases a + b
  {
    DistanceStep(a, b);
    if a != 0 || b != 0 {
      DistanceZero(a / 2, b / 2);
    }
  }

  lemma {:induction false} XorBits(a: nat, b: nat, i: nat)
    ensures Bit(Xor(a, b), i) <==> Bit(a, i) != Bit(b, i)
  {
    XorHalves(a, b);
    ParityOfSum(a, b);
    hide Xor;
    if i > 0 {
      XorBits(a / 2, b / 2, i - 1);
    }
  }

  function BitsSet(x: nat, n: nat): set<nat> {
    set i: nat | i < n && Bit(x, i)
  }

  lemma {:induction false} BitCountIs(x: nat, n: nat)
    requires x < Pow2(n)
    ensures BitCount(x) == |BitsSet(x, n)|
  {
    if n == 0 {
      assert BitsSet(x, n) == {};
    } else {
      BitCountIs(x / 2, n - 1);
      BitsSetStep(x, n);
    }
  }

  function Shifted(s: set<nat>): set<nat> {
    set i | i in s :: i + 1
  }

  lemma {:induction false} ShiftedSize(s: set<nat>)
    ensures |Shifted(s)| == |s|
  {
    if s == {} {
      assert Shifted(s) == {};
    } else {
      var x :| x in s;
      var t := s - {x};
      ShiftedSize(t);
      forall j
        ensures j in Shifted(s) <==> j in Shifted(t) || j == x + 1
      {
        assert j in Shifted(s) ==> j - 1 == x || j - 1 in t;
      }
      assert Shifted(s) == Shifted(t) + {x + 1};
    }
  }

  lemma BitsSetStep(x: nat, n: nat)
    requires n > 0
    ensures |BitsSet(x, n)| == x % 2 + |BitsSet(x / 2, n - 1)|
  {
    var rest := BitsSet(x / 2, n - 1);
    var shifted := Shifted(rest);
    ShiftedSize(rest);
    forall i: nat
      ensures i in BitsSet(x, n) <==> i in shifted || (i == 0 && x % 2 == 1)
    {
      assert i > 0 ==> (i in shifted <==> i - 1 in rest);
    }
    assert BitsSet(x, n) == shifted + if x % 2 == 1 then {0} else {};
  }

  function DifferingBits(a: nat, b: nat, n: nat): set<nat> {
    set i: nat | i < n && Bit(a, i) != Bit(b, i)
  }

  /** The distance is the number of places in which the bits differ. */
  lemma DistanceIsDifferingBits(a: nat, b: nat, n: nat)
    requires a < Pow2(n) && b < Pow2(n)
    ensures Distance(a, b) == |DifferingBits(a, b, n)|
  {
    XorBound(a, b, n);
    BitCountIs(Xor(a, b), n);
    forall i: nat
      ensures Bit(Xor(a, b), i) <==> Bit(a, i) != Bit(b, i)
    {
      XorBits(a, b, i);
    }
    hide Xor, Bit, BitCount;
    assert BitsSet(Xor(a, b), n) == DifferingBits(a, b, n);
  }

  /** x >> n. */
  function ShiftRight(x: nat, n: nat): nat {
    if n == 0 then x else ShiftRight(x / 2, n - 1)
  }

  /** The n low bits of x: x & (2^n - 1). */
  function LowBits(x: nat, n: nat): nat {
    if n == 0 then 0 else 2 * LowBits(x / 2, n - 1) + x % 2
  }

  lemma DoubledFactor(a: nat, b: nat)
    ensures a * (2 * b) == 2 * (a * b) == (2 * a) * b
  {
  }

  /** Shift and mask are quotient and remainder by the power of two. */
  lemma {:induction false} ShiftAndMask(x: nat, n: nat)
    ensures x == ShiftRight(x, n) * Pow2(n) + LowBits(x, n)
    ensures LowBits(x, n) < Pow2(n)
  {
    if n > 0 {
      ShiftAndMask(x / 2, n - 1);
      DoubledFactor(ShiftRight(x / 2, n - 1), Pow2(n - 1));
    }
  }

  lemma LowBitsStep(x: nat, n: nat)
    requires n > 0
    ensures LowBits(x, n) / 2 == LowBits(x / 2, n - 1) && LowBits(x, n) % 2 == x % 2
  {
  }

  /** Distance is additive over any split of the bits into a low and a high part. */
  lemma {:induction false} DistanceSplit(a: nat, b: nat, m: nat)
    ensures Distance(a, b)
         == Distance(LowBits(a, m), LowBits(b, m)) + Distance(ShiftRight(a, m), ShiftRight(b, m))
  {
    if m == 0 {
      DistanceZero(0, 0);
    } else {
      DistanceSplit(a / 2, b / 2, m - 1);
      DistanceStep(a, b);
      LowBitsStep(a, m);
      LowBitsStep(b, m);
      DistanceStep(LowBits(a, m), LowBits(b, m));
    }
  }

  /** Exclusive or undoes itself, so two masks that agree on one operand are equal. */
  lemma {:induction false} XorInvolution(a: nat, x: nat)
    ensures Xor(a, Xor(a, x)) == x
    decreases a + x
  {
    if a != 0 || x != 0 {
      XorInvolution(a / 2, x / 2);
      XorHalves(a, x);
      XorHalves(a, Xor(a, x));
      ParityUndone(a, x);
    }
  }

  lemma {:induction false} XorBound(a: nat, b: nat, n: nat)
    requires a < Pow2(n) && b < Pow2(n)
    ensures Xor(a, b) < Pow2(n)
  {
    if n > 0 && (a != 0 || b != 0) {
      XorBound(a / 2, b / 2, n - 1);
    }
  }

  lemma {:induction false} BitCountPow2(k: nat)
    ensures BitCount(Pow2(k)) == 1
  {
    if k > 0 {
      assert Pow2(k) % 2 == 0 && Pow2(k) / 2 == Pow2(k - 1);
      BitCountPow2(k - 1);
    }
  }

  lemma {:induction false} Pow2Strict(i: nat, j: nat)
    requires i < j
    ensures Pow2(i) < Pow2(j)
  {
    if i + 1 < j {
      Pow2Strict(i, j - 1);
    }
  }

  /** Numbers at distance one differ by one flipped bit inside their width. */
  lemma {:induction false} FlippedBit(a: nat, b: nat, n: nat) returns (k: nat)
    requires a < Pow2(n) && b < Pow2(n) && Distance(a, b) == 1
    ensures k < n && b == Xor(a, Pow2(k))
  {
    DistanceStep(a, b);
    hide Distance, Xor;
    if a % 2 != b % 2 {
      DistanceZero(a / 2, b / 2);
      XorOne(a, b);
      k := 0;
    } else {
      if n == 0 {
        DistanceZero(a, b);
        assert false;
      }
      var j := FlippedBit(a / 2, b / 2, n - 1);
      XorDouble(a / 2, Pow2(j), a % 2, 0);
      k := j + 1;
    }
  }

  lemma XorOne(a: nat, b: nat)
    requires a % 2 != b % 2 && a / 2 == b / 2
    ensures b == Xor(a, 1)
  {
    XorZero(a / 2);
    XorDouble(a / 2, 0, a % 2, 1);
  }

  lemma {:induction false} XorZero(a: nat)
    ensures Xor(a, 0) == a
  {
    if a != 0 {
      XorZero(a / 2);
    }
  }

  lemma {:induction false} Pow2Add(m: nat, n: nat)
    ensures Pow2(m + n) == Pow2(m) * Pow2(n)
  {
    if m > 0 {
      Pow2Add(m - 1, n);
      DoubledFactor(Pow2(m - 1), Pow2(n));
    }
  }

  lemma Pow2Of16()
    ensures Pow2(16) == 0x1_0000
  {
    assert Pow2(4) == 16;
    Pow2Add(4, 4);
    Pow2Add(8, 8);
  }

  lemma Pow2Of64()
    ensures Pow2(64) == 0x1_0000_0000_0000_0000
  {
    Pow2Of16();
    Pow2Add(16, 16);
    Pow2Add(32, 32);
  }

  lemma {:induction false} ShiftCompose(x: nat, m: nat, n: nat)
    ensures ShiftRight(ShiftRight(x, m), n) == ShiftRight(x, m + n)
  {
    if m > 0 {
      ShiftCompose(x / 2, m - 1, n);
    }
  }

  lemma {:induction false} ShiftOut(x: nat, n: nat)
    requires x < Pow2(n)
    ensures ShiftRight(x, n) == 0
  {
    if n > 0 {
      ShiftOut(x / 2, n - 1);
    }
  }

  lemma {:induction false} XorShift(a: nat, b: nat, n: nat)
    ensures ShiftRight(Xor(a, b), n) == Xor(ShiftRight(a, n), ShiftRight(b, n))
  {
    if n > 0 {
      XorHalves(a, b);
      XorShift(a / 2, b / 2, n - 1);
    }
  }

  lemma {:induction false} XorLowBits(a: nat, b: nat, n: nat)
    ensures LowBits(Xor(a, b), n) == Xor(LowBits(a, n), LowBits(b, n))
  {
    if n > 0 {
      XorLowBits(a / 2, b / 2, n - 1);
      XorLowBitsStep(a / 2, b / 2, a % 2, b % 2, n);
      assert a == 2 * (a / 2) + a % 2 && b == 2 * (b / 2) + b % 2;
    }
  }

  lemma XorLowBitsStep(ha: nat, hb: nat, ra: nat, rb: nat, n: nat)
    requires n > 0 && ra < 2 && rb < 2
    requires LowBits(Xor(ha, hb), n - 1) == Xor(LowBits(ha, n - 1), LowBits(hb, n - 1))
    ensures LowBits(Xor(2 * ha + ra, 2 * hb + rb), n) == Xor(LowBits(2 * ha + ra, n), LowBits(2 * hb + rb, n))
  {
    MaskedXor(ha, hb, ra, rb, n);
    XorOfMasked(ha, hb, ra, rb, n);
  }

  lemma MaskedXor(ha: nat, hb: nat, ra: nat, rb: nat, n: nat)
    requires n > 0 && ra < 2 && rb < 2
    ensures LowBits(Xor(2 * ha + ra, 2 * hb + rb), n) == 2 * LowBits(Xor(ha, hb), n - 1) + (ra + rb) % 2
  {
    XorDouble(ha, hb, ra, rb);
    LowBitsDouble(Xor(ha, hb), (ra + rb) % 2, n);
  }

  lemma XorOfMasked(ha: nat, hb: nat, ra: nat, rb: nat, n: nat)
    requires n > 0 && ra < 2 && rb < 2
    ensures Xor(LowBits(2 * ha + ra, n), LowBits(2 * hb + rb, n))
         == 2 * Xor(LowBits(ha, n - 1), LowBits(hb, n - 1)) + (ra + rb) % 2
  {
    LowBitsDouble(ha, ra, n);
    LowBitsDouble(hb, rb, n);
    XorDouble(LowBits(ha, n - 1), LowBits(hb, n - 1), ra, rb);
  }

  lemma LowBitsDouble(half: nat, low: nat, n: nat)
    requires n > 0 && low < 2
    ensures LowBits(2 * half + low, n) == 2 * LowBits(half, n - 1) + low
  {
    assert (2 * half + low) / 2 == half && (2 * half + low) % 2 == low;
  }

  lemma XorDouble(x: nat, y: nat, r: nat, s: nat)
    requires r < 2 && s < 2
    ensures Xor(2 * x + r, 2 * y + s) == 2 * Xor(x, y) + (r + s) % 2
  {
    assert (2 * x + r) / 2 == x && (2 * y + s) / 2 == y;
    assert (2 * x + r + 2 * y + s) % 2 == (r + s) % 2;
  }

  lemma ParityUndone(a: nat, x: nat)
    ensures forall y: nat :: y % 2 == (a + x) % 2 ==> (a + y) % 2 == x % 2
  {
  }

  lemma XorHalves(a: nat, b: nat)
    ensures Xor(a, b) / 2 == Xor(a / 2, b / 2) && Xor(a, b) % 2 == (a + b) % 2
  {
    var y, r := Xor(a / 2, b / 2), (a + b) % 2;
    assert (2 * y + r) / 2 == y && (2 * y + r) % 2 == r;
  }

  /** The value accumulated by value := (value << 1) | bit over a row of bits, first bit highest. */
  function FromBits(bits: seq<bool>): nat {
    if bits == [] then 0
    else 2 * FromBits(bits[..|bits| - 1]) + if bits[|bits| - 1] then 1 else 0
  }

  lemma {:induction false} FromBitsMeaning(bits: seq<bool>, i: nat)
    requires i < |bits|
    ensures FromBits(bits) < Pow2(|bits|)
    ensures Bit(FromBits(bits), |bits| - 1 - i) == bits[i]
  {
    var rest := bits[..|bits| - 1];
    var y, r := FromBits(rest), if bits[|bits| - 1] then 1 else 0;
    assert (2 * y + r) / 2 == y && (2 * y + r) % 2 == r;
    if rest != [] {
      FromBitsMeaning(rest, if i < |rest| then i else 0);
    }
  }
}
