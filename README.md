# AlignedVSMisaligned in Dafny

A model of the benchmark in `main.cpp`, which adds two float vectors element
by element under three memory-alignment conditions. Each vector view sits in
a raw block of `N * 4 + 64` bytes. The block's start address is rounded up to
a 32-byte boundary. The benchmark then uses views at byte offsets 0, 16 and 11
from that boundary, and compares a scalar loop against an 8-lane AVX loop.

The project has three modules:

- `Layout` (`layout.dfy`) holds the address arithmetic. Addresses are naturals
  below 2^64, the range of `uintptr_t`. `(raw + 31) & ~uintptr_t(31)` is written
  out with a bitwise AND on naturals (`BitAnd`) and a 64-bit complement
  (`Complement`). The proofs show that this rounds up to the next multiple of
  32. They also show that each of the three views, plus `N` floats, stays
  inside its raw block, and that a view is 32-byte aligned exactly for the
  offset-0 condition.
- `Kernels` (`kernels.dfy`) holds `scalar_add` and the two SIMD functions.
  They are methods over arrays, and the float `+` is an abstract parameter
  `add`. The SIMD variants are one method with an `aligned` flag, because they
  differ only in which intrinsic they call. Loads and stores read or write 8
  consecutive elements. In the aligned variant they also require the block's
  byte address to be a multiple of 32, and the loop proves this at every step.
  A ghost trace of block starts shows that the stride-8 loop writes every index
  below `N` exactly once and none at or above `N`.
- `Harness` (`harness.dfy`) holds `test` and `main`. `test` copies fresh input.
  It runs each strategy twice, warm-up and measured, and reports the checksum as
  a left fold. On an AVX build it picks the aligned SIMD variant exactly when
  the label is 32. `main` is `Benchmark`: it validates the arguments, then runs
  `test` on the three conditions in source order.

`main` rejects only `N % 8 != 0` (main.cpp:80), so it accepts `N = 0`, and
`Validate` does too.

Things the model takes as parameters:

- the random generator is a function `gen` from position to value;
- the raw block addresses are what the allocator returned;
- the `__AVX__` build setting is a boolean `hasAvx`;
- `std::stoi(argv[1])` is the natural `arg`.

## Model

| member | source | states |
|---|---|---|
| `Layout.BitAnd` | main.cpp:97-99 | bitwise AND of two naturals is at most either operand |
| `Layout.Complement` | main.cpp:97-99 | definition of `~` on a 64-bit word (no proof): the 64-bit value with `x + ~x == 2^64 - 1` |
| `Layout.AndHighMask` | main.cpp:97-99 | ANDing a w-bit number with a mask that has the low k bits clear and the rest set rounds it down to a multiple of 2^k |
| `Layout.AlignMaskClearsLowBits` | main.cpp:97-99 | `x & ~uintptr_t(31)` equals `x - x % 32` |
| `Layout.AlignUp` | main.cpp:97-99 | `(raw + 31) & ~31` is a multiple of 32, at least `raw` and at most `raw + 31` |
| `Layout.TotalBytes` | main.cpp:88 | `total_bytes` has room for `N` floats plus 32 bytes of round-up and 16 of offset, and is a whole number of floats |
| `Layout.RawFloatCount` | main.cpp:88-95 | `total_bytes / sizeof(float)` floats are exactly `total_bytes` bytes, which is `N + 16` floats |
| `Layout.Offset` | main.cpp:101-107 | the three view offsets are below 32, and only the aligned one is a multiple of 32 |
| `Layout.Label` | main.cpp:109-111 | the label passed to `test` is 32 exactly for the aligned condition |
| `Layout.ViewAddress` | main.cpp:97-107 | every view starts at or after its raw block, the view plus `N` floats ends inside the block, and the view is 32-byte aligned iff it is the offset-0 view |
| `Layout.BlockAddressResidue` | main.cpp:26-30 | moving forward by a multiple of 8 floats keeps an address's remainder modulo 32 |
| `Layout.BlockAlignedOnlyWhenAligned` | main.cpp:109-111 | every 8-float block address of a view is a multiple of 32 iff the view is the aligned one, so the aligned intrinsics fit there and only there |
| `Kernels.ElementwiseSum` | main.cpp:18-22 | the reference result has the inputs' length and holds `add(a[k], b[k])` at each index |
| `Kernels.BlockStarts` | main.cpp:26 | the stride-8 loop visits block starts `0, 8, ..., N - 8`, which is `N / 8` blocks with block j at `8 * j` |
| `Kernels.EachIndexWrittenOnce` | main.cpp:25-41 | with `N % 8 == 0`, the 8-lane stores at those block starts write each index below `N` exactly once and no index at or above `N` |
| `Kernels.BlocksInBounds` | main.cpp:26-30 | every visited block ends at or before `N` |
| `Kernels.Load` | main.cpp:27-28 | definition of the load intrinsics (no proof): an 8-lane load returns the 8 elements from index i and, for the aligned intrinsic, requires a 32-byte-aligned byte address |
| `Kernels.Store` | main.cpp:30 | an 8-lane store overwrites the 8 elements from index i and nothing else, with the same alignment requirement |
| `Kernels.ScalarAdd` | main.cpp:18-22 | after `scalar_add`, `result[..N]` is the element-wise sum and every `result[k]` with `k >= N` is unchanged |
| `Kernels.SimdAdd` | main.cpp:25-41 | the SIMD loop stores blocks at exactly `BlockStarts(N)`, so it writes each index below `N` exactly once and none at or above `N`, leaves the same `result[..N]` as `scalar_add`, keeps `result[k]` for `k >= N`, and in the aligned variant meets the alignment precondition at every load and store |
| `Harness.TestReports` | main.cpp:65-69 | definition of the printed lines (no proof): one `test` call prints a scalar line and, on an AVX build, a SIMD line, both with its label and checksum |
| `Harness.Accumulate` | main.cpp:65 | definition of `std::accumulate(result, result + N, 0.0f)` as a fold of `add` from the first element; an empty range gives `init` |
| `Harness.AccumulateAppend` | main.cpp:65 | the checksum fold runs left to right: appending an element adds it last |
| `Harness.Samples` | main.cpp:89-91 | definition of what `std::generate` fills (no proof): the sample vector holds the generator's values in order |
| `Harness.Validate` | main.cpp:74-83 | validation passes iff there is an argument and it is a multiple of 8; a missing argument is reported first |
| `Harness.Copy` | main.cpp:60-61 | `std::copy` puts `src[lo..hi)` at the front of `dst` and leaves the rest of `dst` alone |
| `Harness.Test` | main.cpp:58-71 | after `test`, `a[..N] == data[..N]` and `b[..N] == data[N..2N]`; every run, warm-up or measured and scalar or SIMD, leaves the same element-wise sum; `a`, `b` and `result` are unchanged at every index at or above `N`; the aligned SIMD variant is used iff AVX is built and the label is 32; the reports carry that sum's checksum |
| `Harness.Benchmark` | main.cpp:73-118 | `main` returns 1 with no report when validation fails; otherwise it returns 0 and the reports are the three conditions' lines in order (labels 32, 16, 11), all with the checksum of the generated samples' element-wise sum |

## Left out

- Floating-point semantics: `+` is an abstract operation, and the checksum is a fold of that operation starting from a given `zero`. Equal checksums follow from equal result arrays.
- Timing with `std::chrono` and all console output, because they are I/O. `Report` holds the values a line prints, not its formatting.
- The random generator's distribution and its global state. The samples come from `gen`, and the range [-49, 50] is not stated.
- `std::stoi` parse failures and the conversion of a negative value to `size_t`. The argument is a natural number.
- `Test`: `test` takes its length as `const int N` (main.cpp:58), and `data + 2 * N` (main.cpp:61) overflows `int` for every multiple of 8 in [2^30, 2^31), which `std::stoi` and the check at main.cpp:80 both let through. That is undefined behaviour in the source. The model computes `2 * n` on unbounded naturals and copies `data[n..2n)` for every `n`.
- Allocation, deallocation and pointer reinterpretation. A raw block is only its start address, and each role (A, B, result) is one Dafny array of `N` elements, reused for all three conditions, with each view's byte address passed alongside. The model therefore does not capture that the three views of one role overlap inside one raw block. Nothing the benchmark reports depends on this overlap, because each `test` call copies fresh input and overwrites `result[0..N)`.
- Aliasing between `a`, `b` and `result`. The methods require distinct arrays, which is what `main` passes.
- An 11-byte view is not a multiple of 4 bytes, so ordinary float access through it is misaligned. This is platform behaviour; the model tracks only 32-byte alignment.
- `AlignUp`: the addition `raw + 31` is not modelled wrapping around 2^64. The precondition asks that the raw block lie inside the address space, which every real allocation does.
