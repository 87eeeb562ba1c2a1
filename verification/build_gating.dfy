/** An independent description of the fp32 registry: one flat table of
    every record in source order, each tagged with the build flags it
    needs, and the registry of a build as that table filtered by the
    build's flags. Lemmas tie it to the preprocessor-shaped `Registry`. */
module BuildGating {
  import opened Implementation
  import opened GemmFp32

  /** The build flags one record needs. SVE and MMLA records are nested
      inside the `__aarch64__` block, so they need it too. */
  datatype Gate = Always | Aarch64 | Sve | SveMmla | Arm32

  predicate Enabled(g: Gate, cfg: BuildConfig)
  {
    match g
    case Always => true
    case Aarch64 => cfg.aarch64
    case Sve => cfg.aarch64 && cfg.sve
    case SveMmla => cfg.aarch64 && cfg.sve && cfg.mmlaFp32
    case Arm32 => cfg.arm
  }

  datatype Entry = Entry(gate: Gate, record: Record)

  /** Every record of the source table, in source order, with its gate. */
  const Table: seq<Entry> := [
    Entry(Always, GemvBatchedImpl),
    Entry(Aarch64, SgemvPretransposedImpl),
    Entry(SveMmla, HybridMmla4VLx4Impl),
    Entry(SveMmla, InterleavedMmla3VLx8Impl),
    Entry(Sve, SmallKHybrid1VLx8Impl),
    Entry(Sve, HybridMla4VLx4Impl),
    Entry(Aarch64, SmallKHybrid4x8Impl),
    Entry(Aarch64, SmallKHybrid4x6Impl),
    Entry(Aarch64, Hybrid4x8NormalImpl),
    Entry(Aarch64, Hybrid16x4Impl),
    Entry(Sve, InterleavedMla3VLx8Impl),
    Entry(Aarch64, Sgemm12x8TwoDImpl),
    Entry(Aarch64, Sgemm12x8OneDImpl),
    Entry(Arm32, Sgemm8x6Impl),
    Entry(Always, DefaultImpl)
  ]

  /** The records of `t` whose gate `cfg` enables, in order. */
  function Compiled(t: seq<Entry>, cfg: BuildConfig): seq<Record>
  {
    if t == [] then []
    else (if Enabled(t[0].gate, cfg) then [t[0].record] else []) + Compiled(t[1..], cfg)
  }

  /** `a` is `b` with some elements dropped and the rest kept in order. */
  ghost predicate IsSubsequence<T>(a: seq<T>, b: seq<T>)
    decreases |b|
  {
    if a == [] then true
    else if b == [] then false
    else (a[0] == b[0] && IsSubsequence(a[1..], b[1..])) || IsSubsequence(a, b[1..])
  }

  function Records(t: seq<Entry>): (r: seq<Record>)
    ensures |r| == |t|
    ensures forall k :: 0 <= k < |t| ==> r[k] == t[k].record
  {
    if t == [] then [] else [t[0].record] + Records(t[1..])
  }

  /** Filtering keeps a subsequence of the table's records. */
  lemma {:induction false} CompiledIsSubsequence(t: seq<Entry>, cfg: BuildConfig)
    ensures IsSubsequence(Compiled(t, cfg), Records(t))
    decreases |t|
  {
    if t != [] {
      var a, b := Compiled(t, cfg), Records(t);
      CompiledIsSubsequence(t[1..], cfg);
      assert b[1..] == Records(t[1..]);
      if Enabled(t[0].gate, cfg) {
        assert a[0] == b[0] && a[1..] == Compiled(t[1..], cfg);
      } else if a != [] {
        assert a == Compiled(t[1..], cfg);
      }
    }
  }

  /** A record is compiled in exactly when some entry carrying it is
      enabled. */
  lemma {:induction false} CompiledMembership(t: seq<Entry>, cfg: BuildConfig, rec: Record)
    ensures rec in Compiled(t, cfg) <==>
      exists k :: 0 <= k < |t| && t[k].record == rec && Enabled(t[k].gate, cfg)
    decreases |t|
  {
    if t != [] {
      CompiledMembership(t[1..], cfg, rec);
      if rec in Compiled(t[1..], cfg) {
        var k :| 0 <= k < |t[1..]| && t[1..][k].record == rec && Enabled(t[1..][k].gate, cfg);
        assert t[k + 1].record == rec && Enabled(t[k + 1].gate, cfg);
      }
      if exists k :: 0 <= k < |t| && t[k].record == rec && Enabled(t[k].gate, cfg) {
        var k :| 0 <= k < |t| && t[k].record == rec && Enabled(t[k].gate, cfg);
        if k > 0 {
          assert t[1..][k - 1] == t[k];
        }
      }
    }
  }

  /** Filtering a concatenation filters each part. */
  lemma {:induction false} CompiledAppend(a: seq<Entry>, b: seq<Entry>, cfg: BuildConfig)
    ensures Compiled(a + b, cfg) == Compiled(a, cfg) + Compiled(b, cfg)
    decreases |a|
  {
    if a == [] {
      assert a + b == b;
    } else {
      CompiledAppend(a[1..], b, cfg);
      assert (a + b)[1..] == a[1..] + b;
    }
  }

  /** A run of entries under one gate is kept whole or dropped whole. */
  lemma {:induction false} CompiledUniform(t: seq<Entry>, g: Gate, cfg: BuildConfig)
    requires forall k :: 0 <= k < |t| ==> t[k].gate == g
    ensures Compiled(t, cfg) == if Enabled(g, cfg) then Records(t) else []
    decreases |t|
  {
    if t != [] {
      CompiledUniform(t[1..], g, cfg);
    }
  }

  // One lemma per preprocessor group: each group's entries share a gate.

  lemma GemvGroupCompiled(cfg: BuildConfig)
    ensures Compiled(Table[..1], cfg) == [GemvBatchedImpl]
  {
    CompiledUniform(Table[..1], Always, cfg);
  }

  lemma SgemvGroupCompiled(cfg: BuildConfig)
    ensures Compiled(Table[1..2], cfg) == if cfg.aarch64 then [SgemvPretransposedImpl] else []
  {
    CompiledUniform(Table[1..2], Aarch64, cfg);
  }

  lemma MmlaGroupCompiled(cfg: BuildConfig)
    ensures Compiled(Table[2..4], cfg) ==
      if cfg.aarch64 && cfg.sve && cfg.mmlaFp32 then [HybridMmla4VLx4Impl, InterleavedMmla3VLx8Impl] else []
  {
    CompiledUniform(Table[2..4], SveMmla, cfg);
  }

  lemma SveHybridGroupCompiled(cfg: BuildConfig)
    ensures Compiled(Table[4..6], cfg) ==
      if cfg.aarch64 && cfg.sve then [SmallKHybrid1VLx8Impl, HybridMla4VLx4Impl] else []
  {
    CompiledUniform(Table[4..6], Sve, cfg);
  }

  lemma NeonHybridGroupCompiled(cfg: BuildConfig)
    ensures Compiled(Table[6..10], cfg) ==
      if cfg.aarch64 then [SmallKHybrid4x8Impl, SmallKHybrid4x6Impl, Hybrid4x8NormalImpl, Hybrid16x4Impl] else []
  {
    CompiledUniform(Table[6..10], Aarch64, cfg);
  }

  lemma SveInterleavedGroupCompiled(cfg: BuildConfig)
    ensures Compiled(Table[10..11], cfg) == if cfg.aarch64 && cfg.sve then [InterleavedMla3VLx8Impl] else []
  {
    CompiledUniform(Table[10..11], Sve, cfg);
  }

  lemma Sgemm12x8GroupCompiled(cfg: BuildConfig)
    ensures Compiled(Table[11..13], cfg) == if cfg.aarch64 then [Sgemm12x8TwoDImpl, Sgemm12x8OneDImpl] else []
  {
    CompiledUniform(Table[11..13], Aarch64, cfg);
  }

  lemma Arm32GroupCompiled(cfg: BuildConfig)
    ensures Compiled(Table[13..14], cfg) == Arm32Block(cfg)
  {
    CompiledUniform(Table[13..14], Arm32, cfg);
  }

  lemma SentinelGroupCompiled(cfg: BuildConfig)
    ensures Compiled(Table[14..], cfg) == [DefaultImpl]
  {
    CompiledUniform(Table[14..], Always, cfg);
  }

  /** The entries inside `#ifdef __aarch64__` filter to its block. */
  lemma Aarch64EntriesCompiled(cfg: BuildConfig)
    ensures Compiled(Table[1..13], cfg) == Aarch64Block(cfg)
  {
    var pre, mmla, sveHybrid := Table[1..2], Table[2..4], Table[4..6];
    var neon, sveInter, inter := Table[6..10], Table[10..11], Table[11..13];
    assert Table[1..13] == pre + mmla + sveHybrid + neon + sveInter + inter;
    CompiledAppend(pre + mmla + sveHybrid + neon + sveInter, inter, cfg);
    CompiledAppend(pre + mmla + sveHybrid + neon, sveInter, cfg);
    CompiledAppend(pre + mmla + sveHybrid, neon, cfg);
    CompiledAppend(pre + mmla, sveHybrid, cfg);
    CompiledAppend(pre, mmla, cfg);
    SgemvGroupCompiled(cfg);
    MmlaGroupCompiled(cfg);
    SveHybridGroupCompiled(cfg);
    NeonHybridGroupCompiled(cfg);
    SveInterleavedGroupCompiled(cfg);
    Sgemm12x8GroupCompiled(cfg);
  }

  /** The preprocessor-shaped registry and the filtered table agree for
      every combination of build flags. */
  lemma RegistryIsCompiled(cfg: BuildConfig)
    ensures Registry(cfg) == Compiled(Table, cfg)
  {
    var gemv, front, arm, last := Table[..1], Table[1..13], Table[13..14], Table[14..];
    assert Table == gemv + front + arm + last;
    CompiledAppend(gemv + front + arm, last, cfg);
    CompiledAppend(gemv + front, arm, cfg);
    CompiledAppend(gemv, front, cfg);
    GemvGroupCompiled(cfg);
    SentinelGroupCompiled(cfg);
    Aarch64EntriesCompiled(cfg);
    Arm32GroupCompiled(cfg);
  }

  /** No two entries of the table share a name, so a record names one
      entry. */
  lemma TableNamesDistinct()
    ensures forall i, j :: 0 <= i < j < |Table| ==> Table[i].record.name != Table[j].record.name
  {
  }

  /** Within any build the surviving records keep their source order. */
  lemma RegistryKeepsSourceOrder(cfg: BuildConfig)
    ensures IsSubsequence(Registry(cfg), Records(Table))
  {
    RegistryIsCompiled(cfg);
    CompiledIsSubsequence(Table, cfg);
  }

  /** A record of the source table is in the registry of a build exactly
      when the build enables the flags its preprocessor block needs. */
  lemma RegistryMembership(cfg: BuildConfig, k: nat)
    requires k < |Table|
    ensures Table[k].record in Registry(cfg) <==> Enabled(Table[k].gate, cfg)
  {
    RegistryIsCompiled(cfg);
    CompiledMembership(Table, cfg, Table[k].record);
    TableNamesDistinct();
  }

  /** The MMLA records are compiled in only with both SVE and `MMLA_FP32`
      (inside the `__aarch64__` block). */
  lemma MmlaGating(cfg: BuildConfig)
    ensures HybridMmla4VLx4Impl in Registry(cfg) <==> cfg.aarch64 && cfg.sve && cfg.mmlaFp32
    ensures InterleavedMmla3VLx8Impl in Registry(cfg) <==> cfg.aarch64 && cfg.sve && cfg.mmlaFp32
  {
    assert Table[2] == Entry(SveMmla, HybridMmla4VLx4Impl);
    assert Table[3] == Entry(SveMmla, InterleavedMmla3VLx8Impl);
    RegistryMembership(cfg, 2);
    RegistryMembership(cfg, 3);
  }

  /** The other SVE records are compiled in only with SVE. */
  lemma SveGating(cfg: BuildConfig)
    ensures SmallKHybrid1VLx8Impl in Registry(cfg) <==> cfg.aarch64 && cfg.sve
    ensures HybridMla4VLx4Impl in Registry(cfg) <==> cfg.aarch64 && cfg.sve
    ensures InterleavedMla3VLx8Impl in Registry(cfg) <==> cfg.aarch64 && cfg.sve
  {
    assert Table[4] == Entry(Sve, SmallKHybrid1VLx8Impl);
    assert Table[5] == Entry(Sve, HybridMla4VLx4Impl);
    assert Table[10] == Entry(Sve, InterleavedMla3VLx8Impl);
    RegistryMembership(cfg, 4);
    RegistryMembership(cfg, 5);
    RegistryMembership(cfg, 10);
  }

  /** `sgemm_8x6` is compiled in only under `__arm__`, and has neither an
      applicability test nor a score. */
  lemma Arm32Gating(cfg: BuildConfig)
    ensures Sgemm8x6Impl in Registry(cfg) <==> cfg.arm
    ensures Sgemm8x6Impl.usable.None? && Sgemm8x6Impl.scoring.Unscored?
  {
    RegistryMembership(cfg, 13);
  }
}
