/** The selection engine that walks a registry. It is not part of the fp32
    source file (it lives in `gemm_implementation.hpp`); this module is an
    abstract helper for `find_implementation`: skip records whose test
    fails, take a record whose score is zero at once, and otherwise keep
    the record with the strictly least estimate, so that the earliest of
    equally scored records wins. */
module Selection {
  import opened Outcomes
  import opened GemmArguments
  import opened Implementation

  /** Record `i` is the engine's choice: a usable non-sentinel record of
      least estimate, ahead of every other usable record of that estimate. */
  ghost predicate IsSelection(reg: seq<Record>, args: GemmArgs, cost: CostModel, i: int)
  {
    && 0 <= i < |reg| - 1
    && IsUsable(reg[i], args)
    && (forall j :: 0 <= j < |reg| - 1 && IsUsable(reg[j], args) ==>
          Estimate(reg[i], args, cost) <= Estimate(reg[j], args, cost))
    && (forall j :: 0 <= j < i && IsUsable(reg[j], args) ==>
          Estimate(reg[i], args, cost) < Estimate(reg[j], args, cost))
  }

  /** `find_implementation`: walk the registry up to the sentinel and return
      the index of the chosen record, or `None` when nothing is usable. */
  method FindImplementation(reg: seq<Record>, args: GemmArgs, cost: CostModel) returns (found: Option<nat>)
    requires WellTerminated(reg)
    ensures found.Some? ==> IsSelection(reg, args, cost, found.value)
    ensures found.None? <==> !HasUsableCandidate(reg, args)
  {
    var best: Option<nat> := None;
    var bestEstimate: Cycles := 0;
    var i := 0;
    while !IsSentinel(reg[i])
      invariant 0 <= i < |reg|
      invariant forall j :: 0 <= j < i ==> !IsSentinel(reg[j])
      invariant forall j :: 0 <= j < i && IsUsable(reg[j], args) ==> Estimate(reg[j], args, cost) > 0
      invariant best.None? <==> forall j :: 0 <= j < i ==> !IsUsable(reg[j], args)
      invariant best.Some? ==> best.value < i && IsUsable(reg[best.value], args)
      invariant best.Some? ==> bestEstimate == Estimate(reg[best.value], args, cost)
      invariant best.Some? ==> forall j :: 0 <= j < i && IsUsable(reg[j], args) ==>
                  bestEstimate <= Estimate(reg[j], args, cost)
      invariant best.Some? ==> forall j :: 0 <= j < best.value && IsUsable(reg[j], args) ==>
                  bestEstimate < Estimate(reg[j], args, cost)
      decreases |reg| - i
    {
      if IsUsable(reg[i], args) {
        var estimate := Estimate(reg[i], args, cost);
        if estimate == 0 {
          return Some(i);
        }
        if best.None? || estimate < bestEstimate {
          best := Some(i);
          bestEstimate := estimate;
        }
      }
      i := i + 1;
    }
    return best;
  }

  /** The choice is determined by the registry, the problem and the cost
      model: at most one record satisfies `IsSelection`. */
  lemma SelectionIsUnique(reg: seq<Record>, args: GemmArgs, cost: CostModel, i: int, j: int)
    requires IsSelection(reg, args, cost, i) && IsSelection(reg, args, cost, j)
    ensures i == j
  {
  }

  /** A usable record whose preference test declines loses to any usable
      record that scores below the 64-bit maximum, however early it sits. */
  lemma DeclinedPreferenceLoses(reg: seq<Record>, args: GemmArgs, cost: CostModel, i: int, j: int)
    requires 0 <= i < |reg| - 1 && reg[i].scoring.Preferred?
    requires !IsPreferred(reg[i].scoring.preference, args)
    requires 0 <= j < |reg| - 1 && IsUsable(reg[j], args)
    requires Estimate(reg[j], args, cost) < UINT64_MAX
    ensures !IsSelection(reg, args, cost, i)
  {
  }

  /** The first usable record that scores zero wins, whatever the estimates
      of the records after it. */
  lemma FirstOutrightMatchWins(reg: seq<Record>, args: GemmArgs, cost: CostModel, i: int)
    requires 0 <= i < |reg| - 1 && IsUsable(reg[i], args)
    requires Estimate(reg[i], args, cost) == 0
    requires forall j :: 0 <= j < i && IsUsable(reg[j], args) ==> Estimate(reg[j], args, cost) > 0
    ensures IsSelection(reg, args, cost, i)
  {
  }

  /** Why `gemm<float, float>` returns no executor. */
  datatype GemmError = NoViableStrategy

  /** `gemm<>`: choose a record and run its factory; no usable record means
      no executor. */
  method Gemm(reg: seq<Record>, args: GemmArgs, cost: CostModel) returns (r: Result<Executor, GemmError>)
    requires WellTerminated(reg)
    requires forall i :: 0 <= i < |reg| - 1 ==> reg[i].hasFactory
    ensures r.Err? <==> !HasUsableCandidate(reg, args)
    ensures r.Ok? ==> exists i :: IsSelection(reg, args, cost, i)
                        && r.value == Executor(reg[i].tag, reg[i].name)
  {
    var found := FindImplementation(reg, args, cost);
    match found {
      case None =>
        return Err(NoViableStrategy);
      case Some(i) =>
        var built := Instantiate(reg[i], args);
        return Ok(built.value);
    }
  }

  /** What `get_gemm_method` reports: the chosen record's tag and name. */
  datatype KernelDescription = KernelDescription(tag: Method, name: string)

  /** `get_gemm_method`: describe the record `gemm<>` would run, or the
      default description when there is none. */
  method GetGemmMethod(reg: seq<Record>, args: GemmArgs, cost: CostModel) returns (d: KernelDescription)
    requires WellTerminated(reg)
    ensures d.tag == Default <==> !HasUsableCandidate(reg, args)
    ensures d.tag == Default ==> d.name == ""
    ensures d.tag != Default ==> exists i :: IsSelection(reg, args, cost, i)
                                  && d == KernelDescription(reg[i].tag, reg[i].name)
  {
    var found := FindImplementation(reg, args, cost);
    match found {
      case None =>
        return KernelDescription(Default, "");
      case Some(i) =>
        return KernelDescription(reg[i].tag, reg[i].name);
    }
  }
}
