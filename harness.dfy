/**
 * The benchmark driver: `test`, which copies fresh input into the A and B
 * views, runs the scalar strategy and then (on an AVX build) the SIMD
 * strategy twice each and reports a checksum, and `main`, which validates
 * the vector length and runs `test` on the aligned, 16-byte and 11-byte
 * views of three raw blocks. Timing and console output are not modelled;
 * a report carries the values `test` prints.
 */
module Harness {
  import opened Layout
  import opened Kernels

  datatype Result<+R, +E> = Ok(value: R) | Err(error: E)

  /** Why `main` stops early; both make it return 1. */
  datatype Failure = MissingArgument | NotMultipleOfLanes

  /** The two strategy labels `test` prints ("Scalar addition", "SIMD addition"). */
  datatype Strategy = ScalarAddition | SimdAddition

  /** One report line: strategy, the `alignment` label, and the checksum. */
  datatype Report<T> = Report(strategy: Strategy, alignment: nat, checksum: T)

  /**
   * The lines one call of `test` prints for one alignment label: the scalar
   * report, then on an AVX build the SIMD report, both with the same checksum.
   */
  function TestReports<T>(alignment: nat, checksum: T, hasAvx: bool): (rs: seq<Report<T>>)
    ensures |rs| == if hasAvx then 2 else 1
    ensures forall j :: 0 <= j < |rs| ==> rs[j].alignment == alignment && rs[j].checksum == checksum
    ensures rs[0].strategy == ScalarAddition && (hasAvx ==> rs[1].strategy == SimdAddition)
  {
    [Report(ScalarAddition, alignment, checksum)]
    + if hasAvx then [Report(SimdAddition, alignment, checksum)] else []
  }

  /**
   * `std::accumulate(first, last, init)`: a left-to-right fold of `add` from
   * `init`; AccumulateAppend states the order.
   */
  function Accumulate<T>(add: (T, T) -> T, init: T, s: seq<T>): (r: T)
    ensures s == [] ==> r == init
  {
    if s == [] then init else Accumulate(add, add(init, s[0]), s[1..])
  }

  /** Appending an element adds it last: the fold runs strictly left to right. */
  lemma {:induction false} AccumulateAppend<T>(add: (T, T) -> T, init: T, s: seq<T>, x: T)
    ensures Accumulate(add, init, s + [x]) == add(Accumulate(add, init, s), x)
  {
    if s == [] {
      assert [x][1..] == [];
    } else {
      assert (s + [x])[1..] == s[1..] + [x];
      AccumulateAppend(add, add(init, s[0]), s[1..], x);
    }
  }

  /** The first n generated samples after the first `from`. */
  function Samples<T>(gen: nat -> T, from: nat, n: nat): (s: seq<T>)
    ensures |s| == n && forall k :: 0 <= k < n ==> s[k] == gen(from + k)
  {
    seq(n, k requires 0 <= k < n => gen(from + k))
  }

  /**
   * `main`'s argument checks: a missing `<vector_size>` (argc < 2) and a
   * size that is not a multiple of 8 are rejected, in that order; `arg` is
   * the value `std::stoi(argv[1])` gives and is looked at only when argc >= 2.
   */
  function Validate(argc: nat, arg: nat): (r: Result<nat, Failure>)
    ensures r.Ok? <==> argc >= 2 && arg % Lanes == 0
    ensures r.Ok? ==> r.value == arg
    ensures r == Err(MissingArgument) <==> argc < 2
  {
    if argc < 2 then Err(MissingArgument)
    else if arg % Lanes != 0 then Err(NotMultipleOfLanes)
    else Ok(arg)
  }

  /** `std::copy(src + lo, src + hi, dst)`. */
  method Copy<T>(src: array<T>, lo: nat, hi: nat, dst: array<T>)
    requires lo <= hi <= src.Length && hi - lo <= dst.Length
    requires src != dst
    modifies dst
    ensures dst[..hi - lo] == src[lo..hi]
    ensures forall k :: hi - lo <= k < dst.Length ==> dst[k] == old(dst[k])
  {
    for k := 0 to hi - lo
      invariant forall j :: 0 <= j < k ==> dst[j] == src[lo + j]
      invariant forall j :: hi - lo <= j < dst.Length ==> dst[j] == old(dst[j])
    {
      dst[k] := src[lo + k];
    }
  }

  /**
   * `test`: copy data[0..n) into a and data[n..2n) into b, run `scalar_add`
   * twice (warm-up, then measured) and report; on an AVX build run the SIMD
   * variant twice and report, choosing the aligned variant exactly when
   * `alignment` is 32. The ghost `runs` holds result[..n] after every run
   * and `usedAligned` says whether the aligned SIMD variant ran.
   */
  method Test<T>(add: (T, T) -> T, zero: T, data: array<T>, n: nat,
                 a: array<T>, b: array<T>, result: array<T>,
                 aAddr: nat, bAddr: nat, rAddr: nat, alignment: nat, hasAvx: bool)
    returns (reports: seq<Report<T>>, ghost runs: seq<seq<T>>, ghost usedAligned: bool)
    requires n % Lanes == 0 && 2 * n <= data.Length
    requires n <= a.Length && n <= b.Length && n <= result.Length
    requires data != a && data != b && data != result && a != b && a != result && b != result
    requires alignment == VectorBytes ==>
               aAddr % VectorBytes == 0 && bAddr % VectorBytes == 0 && rAddr % VectorBytes == 0
    modifies a, b, result
    ensures a[..n] == data[..n] && b[..n] == data[n..2 * n]
    ensures result[..n] == ElementwiseSum(add, data[..n], data[n..2 * n])
    ensures |runs| == if hasAvx then 4 else 2
    ensures forall j :: 0 <= j < |runs| ==> runs[j] == ElementwiseSum(add, data[..n], data[n..2 * n])
    ensures usedAligned <==> hasAvx && alignment == VectorBytes
    ensures reports == TestReports(alignment, Accumulate(add, zero, ElementwiseSum(add, data[..n], data[n..2 * n])), hasAvx)
    ensures forall k :: n <= k < a.Length ==> a[k] == old(a[k])
    ensures forall k :: n <= k < b.Length ==> b[k] == old(b[k])
    ensures forall k :: n <= k < result.Length ==> result[k] == old(result[k])
  {
    Copy(data, 0, n, a);
    Copy(data, n, 2 * n, b);
    ghost var expected := ElementwiseSum(add, data[..n], data[n..2 * n]);
    assert a[..n] == data[..n] && b[..n] == data[n..2 * n];

    ScalarAdd(add, a, b, result, n);
    runs := [result[..n]];
    ScalarAdd(add, a, b, result, n);
    runs := runs + [result[..n]];
    reports := [Report(ScalarAddition, alignment, Accumulate(add, zero, result[..n]))];

    usedAligned := false;
    if hasAvx {
      var aligned := alignment == VectorBytes;
      usedAligned := aligned;
      ghost var _ := SimdAdd(add, a, b, result, n, aAddr, bAddr, rAddr, aligned);
      runs := runs + [result[..n]];
      ghost var _ := SimdAdd(add, a, b, result, n, aAddr, bAddr, rAddr, aligned);
      runs := runs + [result[..n]];
      reports := reports + [Report(SimdAddition, alignment, Accumulate(add, zero, result[..n]))];
    }
  }

  /**
   * `main`: validate the arguments (returning 1 before anything is
   * allocated), generate 2n samples, and run `test` on the aligned view
   * (label 32), the 16-byte view and the 11-byte view of the raw blocks at
   * `rawA`, `rawB` and `rawR`. `gen` stands for the random generator and the
   * raw addresses for what the allocator returns; `hasAvx` for the build's
   * `__AVX__` setting. The result is the exit code and the reports in the
   * order they are printed.
   */
  method Benchmark<T>(add: (T, T) -> T, zero: T, gen: nat -> T, argc: nat, arg: nat,
                      rawA: nat, rawB: nat, rawR: nat, hasAvx: bool)
    returns (exitCode: nat, reports: seq<Report<T>>)
    requires Validate(argc, arg).Ok? ==> BlockFits(rawA, arg) && BlockFits(rawB, arg) && BlockFits(rawR, arg)
    ensures exitCode == (if Validate(argc, arg).Ok? then 0 else 1)
    ensures exitCode == 1 ==> reports == []
    ensures exitCode == 0 ==>
              var checksum := Accumulate(add, zero, ElementwiseSum(add, Samples(gen, 0, arg), Samples(gen, arg, arg)));
              reports == TestReports(Label(Aligned), checksum, hasAvx)
                         + TestReports(Label(Misaligned), checksum, hasAvx)
                         + TestReports(Label(VeryMisaligned), checksum, hasAvx)
  {
    var v := Validate(argc, arg);
    if v.Err? {
      return 1, [];
    }
    var n := v.value;
    var data := new T[2 * n](k => gen(k));
    ghost var checksum := Accumulate(add, zero, ElementwiseSum(add, Samples(gen, 0, n), Samples(gen, n, n)));
    assert data[..n] == Samples(gen, 0, n);
    assert data[n..2 * n] == Samples(gen, n, n);

    var a := new T[n](_ => zero);
    var b := new T[n](_ => zero);
    var result := new T[n](_ => zero);

    var baseA, baseB, baseR := ViewAddress(rawA, n, Aligned), ViewAddress(rawB, n, Aligned), ViewAddress(rawR, n, Aligned);
    var r1, _, _ := Test(add, zero, data, n, a, b, result, baseA, baseB, baseR, Label(Aligned), hasAvx);
    assert r1 == TestReports(Label(Aligned), checksum, hasAvx);

    var misA, misB, misR := ViewAddress(rawA, n, Misaligned), ViewAddress(rawB, n, Misaligned), ViewAddress(rawR, n, Misaligned);
    var r2, _, _ := Test(add, zero, data, n, a, b, result, misA, misB, misR, Label(Misaligned), hasAvx);
    assert r2 == TestReports(Label(Misaligned), checksum, hasAvx);

    var veryA, veryB, veryR := ViewAddress(rawA, n, VeryMisaligned), ViewAddress(rawB, n, VeryMisaligned), ViewAddress(rawR, n, VeryMisaligned);
    var r3, _, _ := Test(add, zero, data, n, a, b, result, veryA, veryB, veryR, Label(VeryMisaligned), hasAvx);
    assert r3 == TestReports(Label(VeryMisaligned), checksum, hasAvx);

    exitCode, reports := 0, r1 + r2 + r3;
  }
}
