/** The problem descriptor every applicability test, preference test and
    cost estimator of the fp32 registry reads (`GemmArgs` in arm_gemm). */
module GemmArguments {

  /** Thread counts are at least one: the SVE hybrid preference divides the
      row count by the thread count. */
  type Threads = n: nat | n >= 1 witness 1

  /** The largest unsigned 64-bit value; the engine uses it as the estimate
      of a record whose preference test declined. */
  const UINT64_MAX: nat := 0xFFFF_FFFF_FFFF_FFFF

  /** A cycle estimate, an unsigned 64-bit quantity. */
  type Cycles = n: nat | n <= UINT64_MAX

  /** The shape of one GEMM call: `M`, `N`, `K` are `_Msize`, `_Nsize`,
      `_Ksize`; the others are `_nbatches`, `_nmulti` and `_maxthreads`.
      The detected CPU (`_ci`) is only read by the cost estimators, which
      are a parameter of the model, so it is not a field here. */
  datatype GemmArgs = GemmArgs(
    M: nat,
    N: nat,
    K: nat,
    nbatches: nat,
    nmulti: nat,
    maxthreads: Threads
  )
}
