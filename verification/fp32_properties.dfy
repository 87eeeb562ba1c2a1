/** What the fp32 records' tests promise: which problems each record
    admits, where two records' tests cannot both hold, and which builds
    admit every problem. */
module Fp32Properties {
  import opened GemmArguments
  import opened Implementation
  import opened GemmFp32
  import opened BuildGating

  /** Every build starts with `gemv_batched`, which takes one row over
      several batches and has no preference or estimate. */
  lemma GemvBatchedInEveryBuild(cfg: BuildConfig, args: GemmArgs)
    ensures Registry(cfg)[0].name == "gemv_batched"
    ensures IsUsable(Registry(cfg)[0], args) <==> args.M == 1 && args.nbatches > 1
    ensures Registry(cfg)[0].scoring == Unscored
  {
  }

  /** `sgemv_pretransposed` takes one row in a single batch, so it never
      admits a problem `gemv_batched` admits. */
  lemma SingleRowRecordsDisjoint(args: GemmArgs)
    ensures IsUsable(SgemvPretransposedImpl, args) <==> args.M == 1 && args.nbatches == 1
    ensures !(IsUsable(GemvBatchedImpl, args) && IsUsable(SgemvPretransposedImpl, args))
    ensures SgemvPretransposedImpl.scoring == Unscored
  {
  }

  /** The NEON small-K records split K at 8 and both need N a multiple
      of 4; no problem suits both. */
  lemma SmallKRecordsDisjoint(args: GemmArgs)
    ensures IsUsable(SmallKHybrid4x8Impl, args) <==> args.K <= 8 && args.N % 4 == 0
    ensures IsUsable(SmallKHybrid4x6Impl, args) <==> 8 < args.K <= 16 && args.N % 4 == 0
    ensures !(IsUsable(SmallKHybrid4x8Impl, args) && IsUsable(SmallKHybrid4x6Impl, args))
  {
  }

  /** `hybrid_fp32_mla_4x8_normal` needs K of at least 4 and is preferred
      for N below 12; `hybrid_fp32_mla_16x4` admits the same problems but
      is costed instead. */
  lemma NeonHybridScoring(args: GemmArgs)
    ensures IsUsable(Hybrid4x8NormalImpl, args) <==> args.K >= 4
    ensures Hybrid4x8NormalImpl.scoring.Preferred?
    ensures IsPreferred(Hybrid4x8NormalImpl.scoring.preference, args) <==> args.N < 12
    ensures IsUsable(Hybrid16x4Impl, args) <==> IsUsable(Hybrid4x8NormalImpl, args)
    ensures Hybrid16x4Impl.scoring == Estimated(Hybrid16x4Cycles)
  {
  }

  /** Both SVE hybrid records need K of at least 4 and are preferred for
      small K and N, or for several multis with fewer than eight rows per
      thread. */
  lemma SveHybridPreference(args: GemmArgs)
    ensures HybridMla4VLx4Impl.scoring.Preferred? && HybridMmla4VLx4Impl.scoring.Preferred?
    ensures HybridMla4VLx4Impl.scoring.preference == HybridMmla4VLx4Impl.scoring.preference
    ensures IsPreferred(HybridMla4VLx4Impl.scoring.preference, args) <==>
      (args.K <= 256 && args.N <= 256) || (args.nmulti > 1 && args.M / args.maxthreads < 8)
    ensures IsUsable(HybridMla4VLx4Impl, args) <==> args.K >= 4
    ensures IsUsable(HybridMmla4VLx4Impl, args) <==> args.K >= 4
  {
  }

  /** The SVE interleaved records admit exactly the problems their hybrid
      counterparts admit, except K equal to 4. */
  lemma SveInterleavedStricter(args: GemmArgs)
    ensures IsUsable(InterleavedMla3VLx8Impl, args) <==> IsUsable(HybridMla4VLx4Impl, args) && args.K != 4
    ensures IsUsable(InterleavedMmla3VLx8Impl, args) <==> IsUsable(HybridMmla4VLx4Impl, args) && args.K != 4
  {
  }

  /** Every `__aarch64__` build holds `sgemm_12x8_2d` and `sgemm_12x8_1d`,
      which have no applicability test, ahead of the sentinel. */
  lemma Aarch64Fallbacks(cfg: BuildConfig, args: GemmArgs)
    requires cfg.aarch64
    ensures exists i :: 0 <= i < |Registry(cfg)| - 1 && Registry(cfg)[i] == Sgemm12x8TwoDImpl
    ensures exists i :: 0 <= i < |Registry(cfg)| - 1 && Registry(cfg)[i] == Sgemm12x8OneDImpl
    ensures Sgemm12x8TwoDImpl.usable.None? && Sgemm12x8OneDImpl.usable.None?
    ensures HasUsableCandidate(Registry(cfg), args)
  {
    var r := Registry(cfg);
    assert Table[11] == Entry(Aarch64, Sgemm12x8TwoDImpl);
    assert Table[12] == Entry(Aarch64, Sgemm12x8OneDImpl);
    RegistryMembership(cfg, 11);
    RegistryMembership(cfg, 12);
    var i :| 0 <= i < |r| && r[i] == Sgemm12x8TwoDImpl;
    var j :| 0 <= j < |r| && r[j] == Sgemm12x8OneDImpl;
    assert i != |r| - 1 && j != |r| - 1;
    assert IsUsable(r[i], args);
  }

  /** A build admits every problem exactly when it is an `__aarch64__` or
      an `__arm__` build; otherwise a problem with more than one row finds
      no record. */
  lemma CoverageByBuild(cfg: BuildConfig)
    ensures (forall args :: HasUsableCandidate(Registry(cfg), args)) <==> cfg.aarch64 || cfg.arm
  {
    if cfg.aarch64 {
      forall args | true
        ensures HasUsableCandidate(Registry(cfg), args)
      {
        Aarch64Fallbacks(cfg, args);
      }
    } else if cfg.arm {
      var r := Registry(cfg);
      assert r == [GemvBatchedImpl, Sgemm8x6Impl, DefaultImpl];
      forall args | true
        ensures HasUsableCandidate(r, args)
      {
        assert IsUsable(r[1], args);
      }
    } else {
      var r := Registry(cfg);
      var wide := GemmArgs(2, 1, 1, 1, 1, 1);
      assert r == [GemvBatchedImpl, DefaultImpl];
      assert !HasUsableCandidate(r, wide);
    }
  }
}
