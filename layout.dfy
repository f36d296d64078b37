/**
 * Buffer layout arithmetic of the benchmark: how a raw block of
 * `N * 4 + 64` bytes is rounded up to a 32-byte boundary with
 * `(raw + 31) & ~31`, and how the three views (offset 0, 16 and 11 bytes
 * from that base) are derived from it. Addresses are natural numbers below
 * 2^64, the range of `uintptr_t`.
 */
module Layout {

  /** sizeof(float) */
  const FloatSize: nat := 4
  /** Bytes of slack added to every raw block. */
  const SlackBytes: nat := 64
  /** The 32-byte boundary an AVX aligned load or store needs. */
  const VectorBytes: nat := 32
  /** Floats per 256-bit AVX register: one block of the vector loops. */
  const Lanes: nat := 8
  /** `misalign_bytes` */
  const MisalignBytes: nat := 16
  /** `very_misalign_bytes` */
  const VeryMisalignBytes: nat := 11
  /** Width of `uintptr_t` in bits. */
  const WordBits: nat := 64

  function Pow2(k: nat): (p: nat)
    ensures p >= 1
  {
    if k == 0 then 1 else 2 * Pow2(k - 1)
  }

  /** One more than the largest `uintptr_t`. */
  function WordLimit(): nat
  {
    Pow2(WordBits)
  }

  /** Bitwise AND of two naturals, bit by bit from the least significant one. */
  function BitAnd(x: nat, y: nat): (r: nat)
    ensures r <= x && r <= y
  {
    if x == 0 || y == 0 then 0
    else 2 * BitAnd(x / 2, y / 2) + (if x % 2 == 1 && y % 2 == 1 then 1 else 0)
  }

  /** `~x` on a 64-bit unsigned word. */
  function Complement(x: nat): (r: nat)
    requires x < WordLimit()
    ensures r < WordLimit() && x + r == WordLimit() - 1
  {
    WordLimit() - 1 - x
  }

  lemma MulGrows(d: nat, k: nat)
    requires k >= 1
    ensures d * k >= d
  {
    if k > 1 {
      MulGrows(d, k - 1);
      assert d * k == d * (k - 1) + d;
    }
  }

  /** Euclidean remainder is unique: any decomposition x == d * t + r with 0 <= r < d gives r. */
  lemma ModUnique(x: nat, d: nat, t: nat, r: nat)
    requires 0 <= r < d
    requires x == d * t + r
    ensures x % d == r && x / d == t
  {
    var q, m := x / d, x % d;
    assert x == d * q + m;
    if t > q {
      var e := t - q;
      assert d * t == d * q + d * e;
      MulGrows(d, e);
    } else if t < q {
      var e := q - t;
      assert d * q == d * t + d * e;
      MulGrows(d, e);
    }
  }

  /** Splitting off the lowest bit: x % 2p is twice (x / 2) % p, plus the lowest bit. */
  lemma ModHalving(x: nat, p: nat)
    requires p >= 1
    ensures x % (2 * p) == 2 * ((x / 2) % p) + x % 2
    ensures x - x % (2 * p) == 2 * (x / 2 - (x / 2) % p)
  {
    var q := x / 2;
    var t, s := q / p, q % p;
    assert q == p * t + s;
    assert x == (2 * p) * t + (2 * s + x % 2);
    ModUnique(x, 2 * p, t, 2 * s + x % 2);
  }

  /** AND with the mask of the w lowest bits keeps a w-bit number unchanged. */
  lemma {:induction false} AndLowOnes(x: nat, w: nat)
    requires x < Pow2(w)
    ensures BitAnd(x, Pow2(w) - 1) == x
  {
    if w > 0 && x > 0 {
      var y := Pow2(w) - 1;
      assert y / 2 == Pow2(w - 1) - 1 && y % 2 == 1;
      AndLowOnes(x / 2, w - 1);
    }
  }

  /**
   * AND with the mask that has bits k..w-1 set and bits 0..k-1 clear
   * rounds a w-bit number down to a multiple of 2^k.
   */
  lemma {:induction false} AndHighMask(x: nat, w: nat, k: nat)
    requires k <= w && x < Pow2(w)
    ensures BitAnd(x, (Pow2(w - k) - 1) * Pow2(k)) == x - x % Pow2(k)
  {
    if k == 0 {
      assert (Pow2(w - k) - 1) * Pow2(k) == Pow2(w) - 1;
      AndLowOnes(x, w);
      ModUnique(x, 1, x, 0);
    } else if w == k {
      assert (Pow2(w - k) - 1) * Pow2(k) == 0;
      ModUnique(x, Pow2(k), 0, x);
    } else if x == 0 {
      ModUnique(0, Pow2(k), 0, 0);
    } else {
      var half := (Pow2(w - k) - 1) * Pow2(k - 1);
      HighMaskHalves(w, k);
      BitAndEvenMask(x, half);
      AndHighMask(x / 2, w - 1, k - 1);
      ModHalving(x, Pow2(k - 1));
    }
  }

  /** The high mask of width w above bit k is twice the one of width w - 1 above bit k - 1. */
  lemma HighMaskHalves(w: nat, k: nat)
    requires 0 < k < w
    ensures (Pow2(w - k) - 1) * Pow2(k) == 2 * ((Pow2(w - k) - 1) * Pow2(k - 1))
    ensures (Pow2(w - k) - 1) * Pow2(k - 1) > 0
  {
    var ones, p := Pow2(w - k) - 1, Pow2(k - 1);
    assert Pow2(k) == 2 * p;
    assert ones * (2 * p) == 2 * (ones * p);
    MulGrows(ones, p);
  }

  /** ANDing with an even mask drops the lowest bit and ANDs the rest with half the mask. */
  lemma BitAndEvenMask(x: nat, half: nat)
    requires x > 0 && half > 0
    ensures BitAnd(x, 2 * half) == 2 * BitAnd(x / 2, half)
  {
    assert (2 * half) / 2 == half && (2 * half) % 2 == 0;
  }

  /** `~uintptr_t(31)` clears exactly the five low bits. */
  lemma AlignMaskClearsLowBits(x: nat)
    requires x < WordLimit()
    ensures BitAnd(x, Complement(VectorBytes - 1)) == x - x % VectorBytes
  {
    assert Pow2(5) == VectorBytes;
    assert Complement(VectorBytes - 1) == (Pow2(WordBits - 5) - 1) * Pow2(5);
    AndHighMask(x, WordBits, 5);
  }

  /**
   * `(raw + 31) & ~uintptr_t(31)`: the first 32-byte boundary at or after
   * `raw`. The source does not guard the addition; an allocated block never
   * reaches the top of the address space, which the precondition states.
   */
  function AlignUp(raw: nat): (base: nat)
    requires raw + (VectorBytes - 1) < WordLimit()
    ensures base % VectorBytes == 0
    ensures raw <= base <= raw + (VectorBytes - 1)
  {
    AlignMaskClearsLowBits(raw + (VectorBytes - 1));
    BitAnd(raw + (VectorBytes - 1), Complement(VectorBytes - 1))
  }

  /**
   * `total_bytes = N * sizeof(float) + 64`: room for n floats plus the
   * slack, a whole number of floats.
   */
  function TotalBytes(n: nat): (total: nat)
    ensures total >= n * FloatSize + VectorBytes + MisalignBytes
    ensures total % FloatSize == 0
  {
    n * FloatSize + SlackBytes
  }

  /** `total_bytes / sizeof(float)`: the float count of each raw block, which loses no byte. */
  function RawFloatCount(n: nat): (count: nat)
    ensures count * FloatSize == TotalBytes(n)
    ensures count == n + SlackBytes / FloatSize
  {
    TotalBytes(n) / FloatSize
  }

  /** A raw block of `RawFloatCount(n)` floats starting at `raw` lies inside the address space. */
  predicate BlockFits(raw: nat, n: nat)
  {
    raw + RawFloatCount(n) * FloatSize <= WordLimit()
  }

  /** The three alignment conditions the benchmark runs. */
  datatype Condition = Aligned | Misaligned | VeryMisaligned

  /** Byte offset of a condition's view from the aligned base. */
  function Offset(c: Condition): (off: nat)
    ensures off < VectorBytes
    ensures off % VectorBytes == 0 <==> c == Aligned
  {
    match c
    case Aligned => 0
    case Misaligned => MisalignBytes
    case VeryMisaligned => VeryMisalignBytes
  }

  /** The `alignment` value `main` passes to `test` for a condition. */
  function Label(c: Condition): (l: nat)
    ensures l == VectorBytes <==> c == Aligned
  {
    match c
    case Aligned => VectorBytes
    case Misaligned => MisalignBytes
    case VeryMisaligned => VeryMisalignBytes
  }

  /**
   * Byte address of a condition's view inside the raw block at `raw`: the
   * view and the `n` floats after it stay inside the block, and the view is
   * a 32-byte boundary exactly for the aligned condition.
   */
  function ViewAddress(raw: nat, n: nat, c: Condition): (v: nat)
    requires BlockFits(raw, n)
    ensures raw <= v
    ensures v + n * FloatSize <= raw + RawFloatCount(n) * FloatSize
    ensures v % VectorBytes == 0 <==> c == Aligned
  {
    var base := AlignUp(raw);
    ModUnique(base + Offset(c), VectorBytes, base / VectorBytes, Offset(c));
    base + Offset(c)
  }

  /** Advancing an address by a whole number of 8-float blocks keeps its residue modulo 32. */
  lemma BlockAddressResidue(addr: nat, i: nat)
    requires i % Lanes == 0
    ensures (addr + i * FloatSize) % VectorBytes == addr % VectorBytes
  {
    var j := i / Lanes;
    assert i * FloatSize == VectorBytes * j;
    ModUnique(addr + i * FloatSize, VectorBytes, addr / VectorBytes + j, addr % VectorBytes);
  }

  /**
   * Every 8-float block a view's loop touches starts on a 32-byte boundary
   * exactly when the view is the aligned one: the aligned loads and stores
   * are legal there and nowhere else.
   */
  lemma BlockAlignedOnlyWhenAligned(raw: nat, n: nat, c: Condition, i: nat)
    requires BlockFits(raw, n)
    requires i % Lanes == 0
    ensures (ViewAddress(raw, n, c) + i * FloatSize) % VectorBytes == 0 <==> c == Aligned
  {
    BlockAddressResidue(ViewAddress(raw, n, c), i);
  }
}
