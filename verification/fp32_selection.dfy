/** The engine run over the fp32 registry: the instantiations
    `gemm<float, float>` and `get_gemm_method<float, float>`, and which
    record wins for the single-row and narrow problems. */
module Fp32Selection {
  import opened Outcomes
  import opened GemmArguments
  import opened Implementation
  import opened GemmFp32
  import opened Selection
  import opened Fp32Properties

  /** `gemm<float, float>`: an executor for every problem of an
      `__aarch64__` or `__arm__` build, built by the chosen record. */
  method GemmFloat(cfg: BuildConfig, args: GemmArgs, cost: CostModel) returns (r: Result<Executor, GemmError>)
    ensures r.Err? <==> !HasUsableCandidate(Registry(cfg), args)
    ensures cfg.aarch64 || cfg.arm ==> r.Ok?
    ensures r.Ok? ==> exists i :: IsSelection(Registry(cfg), args, cost, i)
                        && r.value == Executor(Registry(cfg)[i].tag, Registry(cfg)[i].name)
  {
    CoverageByBuild(cfg);
    r := Gemm(ImplementationList(cfg), args, cost);
  }

  /** `get_gemm_method<float, float>`: the tag and name of the record
      `gemm<float, float>` would run. */
  method GetGemmMethodFloat(cfg: BuildConfig, args: GemmArgs, cost: CostModel) returns (d: KernelDescription)
    ensures d.tag == Default <==> !HasUsableCandidate(Registry(cfg), args)
    ensures cfg.aarch64 || cfg.arm ==> d.tag != Default
    ensures d.tag != Default ==> exists i :: IsSelection(Registry(cfg), args, cost, i)
                                  && d == KernelDescription(Registry(cfg)[i].tag, Registry(cfg)[i].name)
  {
    CoverageByBuild(cfg);
    d := GetGemmMethod(ImplementationList(cfg), args, cost);
  }

  /** One row over several batches: `gemv_batched` wins in every build,
      whatever K, N and the estimates. */
  lemma SingleRowBatchedPicksGemvBatched(cfg: BuildConfig, args: GemmArgs, cost: CostModel)
    requires args.M == 1 && args.nbatches > 1
    ensures IsSelection(Registry(cfg), args, cost, 0)
    ensures Registry(cfg)[0].name == "gemv_batched"
  {
    FirstOutrightMatchWins(Registry(cfg), args, cost, 0);
  }

  /** One row in one batch: on `__aarch64__` `sgemv_pretransposed` wins
      ahead of the interleaved records. */
  lemma SingleRowPicksSgemvPretransposed(cfg: BuildConfig, args: GemmArgs, cost: CostModel)
    requires cfg.aarch64
    requires args.M == 1 && args.nbatches == 1
    ensures IsSelection(Registry(cfg), args, cost, 1)
    ensures Registry(cfg)[1].name == "sgemv_pretransposed"
  {
    GemvBatchedInEveryBuild(cfg, args);
    FirstOutrightMatchWins(Registry(cfg), args, cost, 1);
  }

  /** A NEON-only `__aarch64__` build with several rows and K of at most 8
      (N a multiple of 4) runs `smallK_hybrid_fp32_mla_4x8`. */
  lemma SmallKPicksSmallKHybrid(cfg: BuildConfig, args: GemmArgs, cost: CostModel)
    requires cfg.aarch64 && !cfg.sve
    requires args.M != 1 && args.K <= 8 && args.N % 4 == 0
    ensures IsSelection(Registry(cfg), args, cost, 2)
    ensures Registry(cfg)[2] == SmallKHybrid4x8Impl
  {
    var r := Registry(cfg);
    assert r[..3] == [GemvBatchedImpl, SgemvPretransposedImpl, SmallKHybrid4x8Impl];
    FirstOutrightMatchWins(r, args, cost, 2);
  }

  /** A NEON-only `__aarch64__` build with several rows, K of at least 4
      that neither small-K record takes, and N below 12 runs
      `hybrid_fp32_mla_4x8_normal`, its preference beating every estimate. */
  lemma NarrowNPicksHybrid4x8(cfg: BuildConfig, args: GemmArgs, cost: CostModel)
    requires cfg.aarch64 && !cfg.sve
    requires args.M != 1 && args.K >= 4 && (args.K > 16 || args.N % 4 != 0) && args.N < 12
    ensures IsSelection(Registry(cfg), args, cost, 4)
    ensures Registry(cfg)[4] == Hybrid4x8NormalImpl
  {
    var r := Registry(cfg);
    assert r[..5] == [GemvBatchedImpl, SgemvPretransposedImpl, SmallKHybrid4x8Impl, SmallKHybrid4x6Impl, Hybrid4x8NormalImpl];
    FirstOutrightMatchWins(r, args, cost, 4);
  }
}
