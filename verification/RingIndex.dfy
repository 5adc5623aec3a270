/** Free-running unsigned indices of fixed width and the slots they address
    (src/core/SpscQueue.h:42-43, 118). */
module RingIndex {

  /** std::size_t on the 64-bit targets. */
  const MODULUS: nat := 0x1_0000_0000_0000_0000
  const WIDTH: nat := 64

  type Index = n: nat | n < MODULUS

  function Pow2(k: nat): (p: nat)
    ensures p >= 1
  {
    if k == 0 then 1 else 2 * Pow2(k - 1)
  }

  /** The index an unbounded count is stored as. */
  function Wrap(n: nat): Index { n % MODULUS }

  /** Unsigned subtraction. */
  function Minus(a: Index, b: Index): Index {
    if a >= b then a - b else a - b + MODULUS
  }

  function Next(a: Index): Index {
    if a + 1 == MODULUS then 0 else a + 1
  }

  /** Masking with 2^k - 1: the k low bits. */
  function LowBits(n: nat, k: nat): (bits: nat)
    ensures bits < Pow2(k)
  {
    if k == 0 then 0 else n % 2 + 2 * LowBits(n / 2, k - 1)
  }

  function HighBits(n: nat, k: nat): nat {
    if k == 0 then n else HighBits(n / 2, k - 1)
  }

  /** The index after the largest 64-bit number is 0. */
  lemma LastIndex()
    ensures Next(18_446_744_073_709_551_615) == 0
  {}

  lemma WrapNext(n: nat)
    ensures Next(Wrap(n)) == Wrap(n + 1)
  {}

  lemma WrapMinus(a: nat, b: nat)
    requires b <= a < b + MODULUS
    ensures Minus(Wrap(a), Wrap(b)) == a - b
  {}

  lemma WrapSame(a: nat, b: nat)
    requires b <= a < b + MODULUS
    ensures Wrap(a) == Wrap(b) <==> a == b
  {}

  lemma TwiceProduct(p: int, h: int)
    ensures (2 * p) * h == 2 * (p * h)
  {}

  lemma {:induction false} BitsSplit(n: nat, k: nat)
    ensures n == Pow2(k) * HighBits(n, k) + LowBits(n, k)
  {
    if k == 0 {
      assert Pow2(0) * HighBits(n, 0) == HighBits(n, 0);
    } else {
      BitsSplit(n / 2, k - 1);
      TwiceProduct(Pow2(k - 1), HighBits(n, k));
      BitsUnfold(n, k);
      hide *;
      assert Pow2(k) * HighBits(n, k) == 2 * (Pow2(k - 1) * HighBits(n, k));
    }
  }

  lemma BitsUnfold(n: nat, k: nat)
    requires k > 0
    ensures Pow2(k) == 2 * Pow2(k - 1)
    ensures HighBits(n, k) == HighBits(n / 2, k - 1)
    ensures LowBits(n, k) == n % 2 + 2 * LowBits(n / 2, k - 1)
  {}

  lemma {:induction false} LowBitsOfLowBits(n: nat, j: nat, k: nat)
    requires k <= j
    ensures LowBits(LowBits(n, j), k) == LowBits(n, k)
  {
    if k > 0 {
      assert LowBits(n, j) / 2 == LowBits(n / 2, j - 1);
      LowBitsOfLowBits(n / 2, j - 1, k - 1);
    }
  }

  lemma ModulusIsPow2()
    ensures Pow2(WIDTH) == MODULUS
  {
    assert Pow2(8) == 0x100;
    assert Pow2(16) == 0x1_0000;
    assert Pow2(24) == 0x100_0000;
    assert Pow2(32) == 0x1_0000_0000;
    assert Pow2(40) == 0x100_0000_0000;
    assert Pow2(48) == 0x1_0000_0000_0000;
    assert Pow2(56) == 0x100_0000_0000_0000;
  }

  lemma WrapIsLowBits(n: nat)
    ensures Wrap(n) == LowBits(n, WIDTH)
  {
    hide Pow2, LowBits, HighBits;
    ModulusIsPow2();
    BitsSplit(n, WIDTH);
    assert n == MODULUS * HighBits(n, WIDTH) + LowBits(n, WIDTH);
  }

  /** Wrapping an index does not move its slot, because a power-of-two capacity divides the
      modulus. */
  lemma SlotSurvivesWrap(n: nat, k: nat)
    requires k <= WIDTH
    ensures LowBits(Wrap(n), k) == LowBits(n, k)
  {
    WrapIsLowBits(n);
    LowBitsOfLowBits(n, WIDTH, k);
  }

  /** Fewer than 2^k consecutive counts address different slots. */
  lemma {:induction false} SlotsDistinct(a: nat, b: nat, k: nat)
    requires a < b && LowBits(a, k) == LowBits(b, k)
    ensures b >= a + Pow2(k)
  {
    if k > 0 {
      assert a / 2 < b / 2;
      SlotsDistinct(a / 2, b / 2, k - 1);
    }
  }

  lemma Pow2Bound(k: nat)
    requires k < WIDTH
    ensures Pow2(k) < MODULUS
  {
    ModulusIsPow2();
    Pow2Grows(k, WIDTH);
  }

  lemma Pow2Grows(j: nat, k: nat)
    requires j < k
    ensures Pow2(j) < Pow2(k)
  {}
}
