# fp32 GEMM kernel registry of arm_gemm

This project models `gemm_fp32_methods`, the table of fp32 GEMM kernels of
Arm's `arm_gemm` library. It is an ordered list of `GemmImplementation<float, float>`
records. Each record has a method tag, a name, an optional applicability
test, an optional preference test or cost estimator, and a factory. The
table always ends with a `DEFAULT` sentinel. Which records are compiled in
depends on the build flags `__aarch64__`, `__ARM_FEATURE_SVE`, `MMLA_FP32` and
`__arm__`.

The model is functional:

- `GemmArguments` holds the problem descriptor `GemmArgs`. It has the sizes
  `M`, `N`, `K`, the batch and multi counts, and a thread count of at least one.
- `Implementation` defines the record shape. The lambdas of the table are
  closed datatypes (`Condition`, `Preference`, `Estimator`), and `Holds`,
  `IsPreferred` and `IsUsable` evaluate them. Records are values, so lemmas
  can name them and compare them.
- `GemmFp32.Registry(cfg)` is the table as compiled under a `BuildConfig`.
  It follows the preprocessor nesting: the SVE and MMLA blocks sit inside the
  `__aarch64__` block.
- `BuildGating` gives an independent description of the same table: one flat
  list of every record in source order, each tagged with the flags it needs.
  A lemma proves that filtering this list gives `Registry(cfg)` for every build.
- `Fp32Properties` states what the records' tests promise.
- `Selection` and `Fp32Selection` model the engine that walks a registry
  (`find_implementation`, `gemm<>`, `get_gemm_method<>`). The engine lives in
  `gemm_implementation.hpp`, which is not part of this model. It is an
  abstract helper that follows the library's selection rule:
  - records whose applicability test fails are skipped;
  - a record with neither a preference nor an estimate scores 0;
  - a preference test scores 0 when it holds and the 64-bit maximum when it
    does not;
  - an estimator asks the cost model;
  - a score of 0 is taken at once; otherwise the strictly least score wins,
    and the earliest record wins a tie.

  In `find_implementation`, a record with neither a preference nor an
  estimate gets an estimate of 0, so it is taken at once when usable. This
  is why `gemv_batched` and `sgemv_pretransposed` win their single-row
  problems ahead of the costed `sgemm_12x8_*` records.

## Model

| member | source | states |
|---|---|---|
| `GemmFp32.Registry` | src/core/NEON/kernels/arm_gemm/gemm_fp32.cpp:49-174 | For every build, the table holds the two fixed records plus the `__aarch64__` block and `sgemm_8x6` under `__arm__`; it starts with `gemv_batched` and ends with the `DEFAULT` sentinel. No other record is a sentinel, every other record is named and has a factory, and on `__aarch64__` the second record is `sgemv_pretransposed`. |
| `GemmFp32.Aarch64Block` | src/core/NEON/kernels/arm_gemm/gemm_fp32.cpp:58-156 | The `__aarch64__` block has 7 records, plus 3 with SVE and 2 more when SVE and `MMLA_FP32` are both set, on `__aarch64__` builds and none otherwise; it starts with `sgemv_pretransposed` there, and holds only real candidates. |
| `GemmFp32.Arm32Block` | src/core/NEON/kernels/arm_gemm/gemm_fp32.cpp:158-166 | The `__arm__` block holds at most one record, a real candidate, and holds `sgemm_8x6` exactly on `__arm__` builds. |
| `GemmFp32.ImplementationList` | src/core/NEON/kernels/arm_gemm/gemm_fp32.cpp:176-180 | The list handed to the engine ends with the sentinel and has no earlier sentinel, so a walk up to `DEFAULT` stays inside it. |
| `BuildGating.RegistryIsCompiled` | src/core/NEON/kernels/arm_gemm/gemm_fp32.cpp:58-166 | For every combination of build flags, the preprocessor-shaped registry equals the source-order table filtered by each record's required flags. |
| `BuildGating.RegistryKeepsSourceOrder` | src/core/NEON/kernels/arm_gemm/gemm_fp32.cpp:49-174 | In every build, the surviving records are a subsequence of the full source table, so their relative order is the source order. |
| `BuildGating.RegistryMembership` | src/core/NEON/kernels/arm_gemm/gemm_fp32.cpp:58-166 | A record of the table is in a build's registry if and only if the build enables the flags of the preprocessor blocks around it. |
| `BuildGating.MmlaGating` | src/core/NEON/kernels/arm_gemm/gemm_fp32.cpp:66-81 | `hybrid_fp32_mmla_4VLx4` and `interleaved_fp32_mmla_3VLx8` are present if and only if the build has `__aarch64__`, SVE and `MMLA_FP32`. |
| `BuildGating.SveGating` | src/core/NEON/kernels/arm_gemm/gemm_fp32.cpp:83-139 | `smallK_hybrid_fp32_mla_1VLx8`, `hybrid_fp32_mla_4VLx4` and `interleaved_fp32_mla_3VLx8` are present if and only if the build has `__aarch64__` and SVE. |
| `BuildGating.Arm32Gating` | src/core/NEON/kernels/arm_gemm/gemm_fp32.cpp:158-166 | `sgemm_8x6` is present if and only if the build has `__arm__`, and it has no applicability test and no score. |
| `Fp32Properties.GemvBatchedInEveryBuild` | src/core/NEON/kernels/arm_gemm/gemm_fp32.cpp:51-57 | Every build's first record is `gemv_batched`. It admits a problem if and only if `M == 1` and `nbatches > 1`, and it has no preference or estimate. |
| `Fp32Properties.SingleRowRecordsDisjoint` | src/core/NEON/kernels/arm_gemm/gemm_fp32.cpp:51-65 | `sgemv_pretransposed` admits a problem if and only if `M == 1` and `nbatches == 1`. No problem is admitted by both it and `gemv_batched`. |
| `Fp32Properties.SmallKRecordsDisjoint` | src/core/NEON/kernels/arm_gemm/gemm_fp32.cpp:102-115 | `smallK_hybrid_fp32_mla_4x8` admits `K <= 8` with N a multiple of 4, and `smallK_hybrid_fp32_mla_4x6` admits `8 < K <= 16` with N a multiple of 4. Each holds in both directions, and no problem suits both. |
| `Fp32Properties.NeonHybridScoring` | src/core/NEON/kernels/arm_gemm/gemm_fp32.cpp:116-129 | `hybrid_fp32_mla_4x8_normal` admits a problem if and only if `K >= 4`, and it is preferred if and only if `N < 12`. `hybrid_fp32_mla_16x4` admits the same problems and uses its cycle estimator instead of a preference. |
| `Fp32Properties.SveHybridPreference` | src/core/NEON/kernels/arm_gemm/gemm_fp32.cpp:67-97 | Both SVE hybrid records admit a problem if and only if `K >= 4`. They share one preference, which holds if and only if `(K <= 256 && N <= 256) \|\| (nmulti > 1 && M / maxthreads < 8)`. |
| `Fp32Properties.SveInterleavedStricter` | src/core/NEON/kernels/arm_gemm/gemm_fp32.cpp:67-138 | Each SVE interleaved record admits exactly the problems its hybrid counterpart admits, except those with `K == 4`. |
| `Fp32Properties.Aarch64Fallbacks` | src/core/NEON/kernels/arm_gemm/gemm_fp32.cpp:140-155 | Every `__aarch64__` build holds `sgemm_12x8_2d` and `sgemm_12x8_1d` before the sentinel. Neither has an applicability test, so every problem has a usable record. |
| `Fp32Properties.CoverageByBuild` | src/core/NEON/kernels/arm_gemm/gemm_fp32.cpp:49-174 | A build has a usable non-sentinel record for every problem if and only if it is an `__aarch64__` or an `__arm__` build. Any other build has only `gemv_batched`, which leaves multi-row problems without a record. |
| `Selection.FindImplementation` | src/core/NEON/kernels/arm_gemm/gemm_fp32.cpp:183-185 | This is the abstract engine those instantiations run. It returns the earliest usable non-sentinel record of least score, or nothing if and only if no such record is usable. |
| `Selection.SelectionIsUnique` | src/core/NEON/kernels/arm_gemm/gemm_fp32.cpp:183-185 | At most one record satisfies the selection condition, so the choice is a function of the registry, the problem and the cost model. |
| `Selection.DeclinedPreferenceLoses` | src/core/NEON/kernels/arm_gemm/gemm_fp32.cpp:183-185 | A usable record whose preference test declines is never chosen while some usable record scores below the 64-bit maximum, whatever its place in the list. |
| `Selection.FirstOutrightMatchWins` | src/core/NEON/kernels/arm_gemm/gemm_fp32.cpp:183-185 | The first usable record that scores 0 is chosen, whatever the estimates of the records after it. |
| `Selection.Gemm` | src/core/NEON/kernels/arm_gemm/gemm_fp32.cpp:183 | The call fails with `NoViableStrategy` if and only if no non-sentinel record is usable. Otherwise it returns the chosen record's executor. |
| `Selection.GetGemmMethod` | src/core/NEON/kernels/arm_gemm/gemm_fp32.cpp:184 | It reports the chosen record's tag and name. It reports the empty `DEFAULT` description if and only if no record is usable. |
| `Fp32Selection.GemmFloat` | src/core/NEON/kernels/arm_gemm/gemm_fp32.cpp:183 | On the fp32 registry, every problem of an `__aarch64__` or `__arm__` build gets an executor, and it is built by the chosen record. |
| `Fp32Selection.GetGemmMethodFloat` | src/core/NEON/kernels/arm_gemm/gemm_fp32.cpp:184 | On the fp32 registry, an `__aarch64__` or `__arm__` build never reports `DEFAULT`, and the description is that of the chosen record. |
| `Fp32Selection.SingleRowBatchedPicksGemvBatched` | src/core/NEON/kernels/arm_gemm/gemm_fp32.cpp:51-57 | With one row and several batches, `gemv_batched` is chosen in every build, whatever K, N and the estimates. |
| `Fp32Selection.SingleRowPicksSgemvPretransposed` | src/core/NEON/kernels/arm_gemm/gemm_fp32.cpp:58-65 | With one row and one batch, an `__aarch64__` build chooses `sgemv_pretransposed` ahead of every interleaved record. |
| `Fp32Selection.SmallKPicksSmallKHybrid` | src/core/NEON/kernels/arm_gemm/gemm_fp32.cpp:101-108 | On an `__aarch64__` build without SVE, several rows with `K <= 8` and N a multiple of 4 choose `smallK_hybrid_fp32_mla_4x8`. |
| `Fp32Selection.NarrowNPicksHybrid4x8` | src/core/NEON/kernels/arm_gemm/gemm_fp32.cpp:116-122 | On an `__aarch64__` build without SVE, several rows with `N < 12` and `K >= 4` that neither small-K record takes (`K > 16`, or N not a multiple of 4) choose `hybrid_fp32_mla_4x8_normal`. Its preference beats every cycle estimate. |

## Left out

- Cycle estimates (`estimate_cycles` and `get_performance_parameters`, lines 127, 145 and 153) are foreign calls driven by CPU performance tables. They are the `CostModel` parameter: one 64-bit estimate per estimator and problem. The detected CPU (`_ci`) is therefore not a field of `GemmArgs`.
- Each factory's executor (`GemvBatched`, `GemmHybrid`, `GemmInterleaved`, …) is reduced to `Executor(tag, kernel)`. Buffer packing, threading and the kernels themselves (the headers included at lines 33–45) are numeric code outside this model.
- The selection engine, `gemm_implementation.hpp`, is not part of this model. `Selection.FindImplementation` is an abstract helper for it. It omits the engine's `GemmConfig` overrides, which force a method or filter by name.
- `get_compatible_kernels` (line 185) is not modelled.
- `GemmArgs`: the sizes are C++ unsigned integers, modelled as `nat`. The tests only compare, take `%` by 4 and divide, so no wrap-around can arise for values in range. `maxthreads` is at least one, because the SVE preference divides by it. A thread count of 0 cannot be represented.
- Rejecting zero-sized problems before selection is not in this source and is not modelled.
- Monotone cost estimates are a property of the foreign estimators. They are not stated.
- `tests/validation/reference/LogSoftmaxLayer.h` only declares floating-point reference functions. It has no dispatch logic.
