/** One candidate of a GEMM registry (`GemmImplementation<float, float>`):
    a method tag, a name, an optional applicability test, an optional
    preference test or cost estimator, and a factory.

    The tests are the closed set of lambdas that occur in the fp32 table,
    written as data (`Condition`, `Preference`, `Estimator`) together with
    the functions that evaluate them, so that records can be compared and
    named in proofs. */
module Implementation {
  import opened Outcomes
  import opened GemmArguments

  /** `GemmMethod`: the strategy class of a record; `Default` marks the
      terminating sentinel. */
  datatype Method =
    | Default
    | GemvBatched
    | GemvPretransposed
    | GemmHybrid
    | GemmInterleaved
    | GemmInterleaved2d

  /** The applicability tests of the fp32 table. */
  datatype Condition =
    | SingleRowBatched      // one row, several batches
    | SingleRowSingleBatch  // one row, one batch
    | KAtLeast4             // K of four or more
    | KAbove4               // K strictly above four
    | KAtMost24             // K of at most 24
    | SmallKUpTo8           // K of at most 8, N a multiple of 4
    | SmallKUpTo16          // K in 9..16, N a multiple of 4

  /** The preference tests of the fp32 table. */
  datatype Preference =
    | SmallOrMultiSplit     // small K and N, or several multis with few rows per thread
    | NarrowN               // N below 12

  /** The cost estimators of the fp32 table; their values come from the
      CPU performance tables and are supplied as a `CostModel`. */
  datatype Estimator =
    | Hybrid16x4Cycles
    | Interleaved2dCycles
    | InterleavedCycles

  /** A record scores a problem in at most one way. */
  datatype Scoring =
    | Unscored
    | Preferred(preference: Preference)
    | Estimated(estimator: Estimator)

  /** One registry record. `usable == None` is a null applicability test,
      which admits every problem. */
  datatype Record = Record(
    tag: Method,
    name: string,
    usable: Option<Condition>,
    scoring: Scoring,
    hasFactory: bool
  )

  /** The cycle estimates of the detected CPU, one per estimator. */
  type CostModel = (Estimator, GemmArgs) -> Cycles

  /** The executor a factory builds, reduced to which kernel it runs. */
  datatype Executor = Executor(tag: Method, kernel: string)

  predicate Holds(c: Condition, args: GemmArgs)
  {
    match c
    case SingleRowBatched => args.M == 1 && args.nbatches > 1
    case SingleRowSingleBatch => args.M == 1 && args.nbatches == 1
    case KAtLeast4 => args.K >= 4
    case KAbove4 => args.K > 4
    case KAtMost24 => args.K <= 24
    case SmallKUpTo8 => args.K <= 8 && args.N % 4 == 0
    case SmallKUpTo16 => args.K > 8 && args.K <= 16 && args.N % 4 == 0
  }

  predicate IsPreferred(p: Preference, args: GemmArgs)
  {
    match p
    case SmallOrMultiSplit =>
      (args.K <= 256 && args.N <= 256) || (args.nmulti > 1 && args.M / args.maxthreads < 8)
    case NarrowN => args.N < 12
  }

  /** `do_is_supported`: a null test admits everything. */
  predicate IsUsable(rec: Record, args: GemmArgs)
  {
    match rec.usable
    case None => true
    case Some(c) => Holds(c, args)
  }

  predicate IsSentinel(rec: Record)
  {
    rec.tag == Default
  }

  /** The score the engine compares: a record without preference or
      estimate is an outright match (zero), a preference test gives zero
      when it holds and the 64-bit maximum when it declines, and an
      estimator asks the cost model. */
  function Estimate(rec: Record, args: GemmArgs, cost: CostModel): Cycles
  {
    match rec.scoring
    case Unscored => 0
    case Preferred(p) => if IsPreferred(p, args) then 0 else UINT64_MAX
    case Estimated(e) => cost(e, args)
  }

  /** Running a record's factory; a record without one builds nothing. */
  function Instantiate(rec: Record, args: GemmArgs): Option<Executor>
  {
    if rec.hasFactory then Some(Executor(rec.tag, rec.name)) else None
  }

  /** A registry is a list the engine can walk: it ends with the `Default`
      sentinel and holds no earlier one. */
  ghost predicate WellTerminated(reg: seq<Record>)
  {
    && |reg| > 0
    && IsSentinel(reg[|reg| - 1])
    && forall i :: 0 <= i < |reg| - 1 ==> !IsSentinel(reg[i])
  }

  /** Some record other than the sentinel admits `args`. */
  ghost predicate HasUsableCandidate(reg: seq<Record>, args: GemmArgs)
  {
    exists i :: 0 <= i < |reg| - 1 && IsUsable(reg[i], args)
  }
}
