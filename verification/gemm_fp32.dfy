/** The fp32 GEMM registry, `gemm_fp32_methods`: the ordered records the
    engine walks for float inputs and float outputs, as the build flags
    `__aarch64__`, `__ARM_FEATURE_SVE`, `MMLA_FP32` and `__arm__` leave it. */
module GemmFp32 {
  import opened Outcomes
  import opened Implementation

  /** The build flags that decide which records are compiled in. */
  datatype BuildConfig = BuildConfig(aarch64: bool, sve: bool, mmlaFp32: bool, arm: bool)

  const GemvBatchedImpl :=
    Record(GemvBatched, "gemv_batched", Some(SingleRowBatched), Unscored, true)
  const SgemvPretransposedImpl :=
    Record(GemvPretransposed, "sgemv_pretransposed", Some(SingleRowSingleBatch), Unscored, true)
  const HybridMmla4VLx4Impl :=
    Record(GemmHybrid, "hybrid_fp32_mmla_4VLx4", Some(KAtLeast4), Preferred(SmallOrMultiSplit), true)
  const InterleavedMmla3VLx8Impl :=
    Record(GemmInterleaved, "interleaved_fp32_mmla_3VLx8", Some(KAbove4), Unscored, true)
  const SmallKHybrid1VLx8Impl :=
    Record(GemmHybrid, "smallK_hybrid_fp32_mla_1VLx8", Some(KAtMost24), Unscored, true)
  const HybridMla4VLx4Impl :=
    Record(GemmHybrid, "hybrid_fp32_mla_4VLx4", Some(KAtLeast4), Preferred(SmallOrMultiSplit), true)
  const SmallKHybrid4x8Impl :=
    Record(GemmHybrid, "smallK_hybrid_fp32_mla_4x8", Some(SmallKUpTo8), Unscored, true)
  const SmallKHybrid4x6Impl :=
    Record(GemmHybrid, "smallK_hybrid_fp32_mla_4x6", Some(SmallKUpTo16), Unscored, true)
  const Hybrid4x8NormalImpl :=
    Record(GemmHybrid, "hybrid_fp32_mla_4x8_normal", Some(KAtLeast4), Preferred(NarrowN), true)
  const Hybrid16x4Impl :=
    Record(GemmHybrid, "hybrid_fp32_mla_16x4", Some(KAtLeast4), Estimated(Hybrid16x4Cycles), true)
  const InterleavedMla3VLx8Impl :=
    Record(GemmInterleaved, "interleaved_fp32_mla_3VLx8", Some(KAbove4), Unscored, true)
  const Sgemm12x8TwoDImpl :=
    Record(GemmInterleaved2d, "sgemm_12x8_2d", None, Estimated(Interleaved2dCycles), true)
  const Sgemm12x8OneDImpl :=
    Record(GemmInterleaved, "sgemm_12x8_1d", None, Estimated(InterleavedCycles), true)
  const Sgemm8x6Impl :=
    Record(GemmInterleaved, "sgemm_8x6", None, Unscored, true)
  /** The terminating record: no name, no tests, no factory. */
  const DefaultImpl :=
    Record(Default, "", None, Unscored, false)

  /** Every record of `s` is a real candidate: not the sentinel, named,
      and with a factory. */
  predicate AllCandidates(s: seq<Record>)
  {
    forall i :: 0 <= i < |s| ==> !IsSentinel(s[i]) && s[i].hasFactory && s[i].name != ""
  }

  /** The records inside `#ifdef __aarch64__`, with its nested SVE and
      MMLA blocks. */
  function Aarch64Block(cfg: BuildConfig): (r: seq<Record>)
    ensures AllCandidates(r)
    ensures |r| == if cfg.aarch64 then
                     7 + (if cfg.sve then 3 else 0) + (if cfg.sve && cfg.mmlaFp32 then 2 else 0)
                   else 0
    ensures cfg.aarch64 ==> r[0] == SgemvPretransposedImpl
  {
    if cfg.aarch64 then
      var mmla := if cfg.sve && cfg.mmlaFp32 then [HybridMmla4VLx4Impl, InterleavedMmla3VLx8Impl] else [];
      var sveHybrid := if cfg.sve then [SmallKHybrid1VLx8Impl, HybridMla4VLx4Impl] else [];
      var neonHybrid := [SmallKHybrid4x8Impl, SmallKHybrid4x6Impl, Hybrid4x8NormalImpl, Hybrid16x4Impl];
      var sveInterleaved := if cfg.sve then [InterleavedMla3VLx8Impl] else [];
      var interleaved := [Sgemm12x8TwoDImpl, Sgemm12x8OneDImpl];
      assert AllCandidates(mmla) && AllCandidates(sveHybrid) && AllCandidates(neonHybrid);
      assert AllCandidates(sveInterleaved) && AllCandidates(interleaved);
      [SgemvPretransposedImpl] + mmla + sveHybrid + neonHybrid + sveInterleaved + interleaved
    else
      []
  }

  /** The record inside `#ifdef __arm__`. */
  function Arm32Block(cfg: BuildConfig): (r: seq<Record>)
    ensures AllCandidates(r)
    ensures |r| <= 1
    ensures Sgemm8x6Impl in r <==> cfg.arm
  {
    if cfg.arm then [Sgemm8x6Impl] else []
  }

  /** `gemm_fp32_methods` as compiled under `cfg`, group by group in the
      order and nesting of the preprocessor blocks (the SVE blocks sit
      inside the `__aarch64__` block). */
  function Registry(cfg: BuildConfig): (r: seq<Record>)
    ensures |r| == 2 + |Aarch64Block(cfg)| + (if cfg.arm then 1 else 0)
    ensures WellTerminated(r) && r[|r| - 1] == DefaultImpl
    ensures r[0] == GemvBatchedImpl
    ensures cfg.aarch64 ==> r[1] == SgemvPretransposedImpl
    ensures AllCandidates(r[..|r| - 1])
  {
    var body := [GemvBatchedImpl] + Aarch64Block(cfg) + Arm32Block(cfg);
    assert AllCandidates(body);
    assert (body + [DefaultImpl])[..|body|] == body;
    body + [DefaultImpl]
  }

  /** `gemm_implementation_list<float, float>()`: the registry the engine
      walks for fp32. */
  function ImplementationList(cfg: BuildConfig): (r: seq<Record>)
    ensures WellTerminated(r)
  {
    Registry(cfg)
  }
}
