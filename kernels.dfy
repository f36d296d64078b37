/**
 * The three element-wise add strategies: `scalar_add`, which writes one
 * index per step, and `SIMD_add_aligned` / `SIMD_add_unaligned`, which load,
 * add and store one 8-lane block per step. The float `+` is the abstract
 * operation `add`; the AVX intrinsics are modelled as reads and writes of 8
 * consecutive elements, the aligned ones with a 32-byte alignment
 * precondition on the byte address of the block.
 */
module Kernels {
  import opened Layout

  /** What every strategy computes: the element-wise sum of two equal-length sequences. */
  function ElementwiseSum<T>(add: (T, T) -> T, a: seq<T>, b: seq<T>): (r: seq<T>)
    requires |a| == |b|
    ensures |r| == |a|
    ensures forall k :: 0 <= k < |r| ==> r[k] == add(a[k], b[k])
  {
    if a == [] then [] else [add(a[0], b[0])] + ElementwiseSum(add, a[1..], b[1..])
  }

  /**
   * Start indices of the blocks the stride-8 loop visits for a vector of
   * length n: 0, 8, ..., n - 8, in that order.
   */
  function BlockStarts(n: nat): (s: seq<nat>)
    requires n % Lanes == 0
    ensures |s| == n / Lanes
    ensures forall j :: 0 <= j < |s| ==> s[j] == j * Lanes
  {
    if n == 0 then [] else BlockStarts(n - Lanes) + [n - Lanes]
  }

  /** How many of the 8-lane stores starting at `stores` write index k. */
  function WriteCount(stores: seq<nat>, k: nat): nat
  {
    if stores == [] then 0
    else
      var last := stores[|stores| - 1];
      WriteCount(stores[..|stores| - 1], k) + (if last <= k < last + Lanes then 1 else 0)
  }

  /**
   * The stride-8 loop over a length that is a multiple of 8 writes every
   * index below n exactly once and no index at or above n.
   */
  lemma {:induction false} EachIndexWrittenOnce(n: nat, k: nat)
    requires n % Lanes == 0
    ensures WriteCount(BlockStarts(n), k) == if k < n then 1 else 0
  {
    if n > 0 {
      var s := BlockStarts(n);
      assert s[..|s| - 1] == BlockStarts(n - Lanes);
      EachIndexWrittenOnce(n - Lanes, k);
    }
  }

  /** Every block the stride-8 loop visits lies inside [0, n). */
  lemma BlocksInBounds(n: nat, j: nat)
    requires n % Lanes == 0
    requires j < |BlockStarts(n)|
    ensures BlockStarts(n)[j] + Lanes <= n
  {
    var s := BlockStarts(n);
    assert s[j] == j * Lanes;
    assert (j + 1) * Lanes <= (n / Lanes) * Lanes;
  }

  /**
   * `_mm256_load_ps` (aligned) / `_mm256_loadu_ps` (unaligned): the 8
   * elements of `p` from index i, where `addr` is the byte address of `p[0]`.
   */
  method Load<T>(p: array<T>, addr: nat, i: nat, aligned: bool) returns (v: seq<T>)
    requires i + Lanes <= p.Length
    requires aligned ==> (addr + i * FloatSize) % VectorBytes == 0
    ensures v == p[i..i + Lanes]
  {
    v := p[i..i + Lanes];
  }

  /**
   * `_mm256_store_ps` (aligned) / `_mm256_storeu_ps` (unaligned): overwrite
   * the 8 elements of `p` from index i with `v` and nothing else.
   */
  method Store<T>(p: array<T>, addr: nat, i: nat, v: seq<T>, aligned: bool)
    requires i + Lanes <= p.Length && |v| == Lanes
    requires aligned ==> (addr + i * FloatSize) % VectorBytes == 0
    modifies p
    ensures forall k :: 0 <= k < p.Length ==> p[k] == if i <= k < i + Lanes then v[k - i] else old(p[k])
  {
    forall k | i <= k < i + Lanes {
      p[k] := v[k - i];
    }
  }

  /** `scalar_add`: result[i] := a[i] + b[i] for i = 0, 1, ..., n - 1. */
  method ScalarAdd<T>(add: (T, T) -> T, a: array<T>, b: array<T>, result: array<T>, n: nat)
    requires n <= a.Length && n <= b.Length && n <= result.Length
    requires result != a && result != b
    modifies result
    ensures result[..n] == ElementwiseSum(add, a[..n], b[..n])
    ensures forall k :: n <= k < result.Length ==> result[k] == old(result[k])
  {
    for i := 0 to n
      invariant forall k :: 0 <= k < i ==> result[k] == add(a[k], b[k])
      invariant forall k :: n <= k < result.Length ==> result[k] == old(result[k])
    {
      result[i] := add(a[i], b[i]);
    }
  }

  /**
   * `SIMD_add_aligned` (aligned == true) and `SIMD_add_unaligned`
   * (aligned == false): for i = 0, 8, ..., load a block of a and of b, add
   * them lane by lane and store the block into result. `aAddr`, `bAddr` and
   * `rAddr` are the byte addresses of the three views; the aligned variant
   * is only callable when all three are 32-byte boundaries. The ghost
   * `stores` records the start index of every block store, in order.
   */
  method SimdAdd<T>(add: (T, T) -> T, a: array<T>, b: array<T>, result: array<T>, n: nat,
                    aAddr: nat, bAddr: nat, rAddr: nat, aligned: bool)
    returns (ghost stores: seq<nat>)
    requires n % Lanes == 0
    requires n <= a.Length && n <= b.Length && n <= result.Length
    requires result != a && result != b
    requires aligned ==> aAddr % VectorBytes == 0 && bAddr % VectorBytes == 0 && rAddr % VectorBytes == 0
    modifies result
    ensures stores == BlockStarts(n)
    ensures forall k: nat :: WriteCount(stores, k) == if k < n then 1 else 0
    ensures result[..n] == ElementwiseSum(add, a[..n], b[..n])
    ensures forall k :: n <= k < result.Length ==> result[k] == old(result[k])
  {
    var i := 0;
    stores := [];
    while i < n
      invariant i <= n && i % Lanes == 0
      invariant stores == BlockStarts(i)
      invariant forall k :: 0 <= k < i ==> result[k] == add(a[k], b[k])
      invariant forall k :: n <= k < result.Length ==> result[k] == old(result[k])
    {
      if aligned {
        BlockAddressResidue(aAddr, i);
        BlockAddressResidue(bAddr, i);
        BlockAddressResidue(rAddr, i);
      }
      var va := Load(a, aAddr, i, aligned);
      var vb := Load(b, bAddr, i, aligned);
      var vc := ElementwiseSum(add, va, vb);
      Store(result, rAddr, i, vc, aligned);
      stores := stores + [i];
      i := i + Lanes;
    }
    forall k: nat
      ensures WriteCount(stores, k) == if k < n then 1 else 0
    {
      EachIndexWrittenOnce(n, k);
    }
  }
}
