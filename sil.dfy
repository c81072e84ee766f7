/** SIL processing after SIL generation: the mandatory ("stable") passes, a
    verification, the optimization pipeline and a second verification.  The
    pass pipelines and the SIL verifier are external engines; the model records
    which of them run, in order, as a trace of steps, and takes the outcome of
    the two mandatory pipelines that can fail as an input. */
module SILProcessing {

  /** The requested frontend actions the SIL pipeline distinguishes. */
  datatype ActionType = MergeModules | EmitObject | OtherAction

  /** The options the SIL pipeline reads. */
  datatype SILConfig = SILConfig(
    action: ActionType,
    skipDiagnosticPasses: bool,
    mergePartialModules: bool,
    shouldOptimize: bool,
    externalPassPipelineFilename: string,
    checkOnoneSupportCompleteness: bool,
    enableObjCInterop: bool)

  /** Whether each fallible mandatory pipeline reports an error when run. */
  datatype PassOutcomes = PassOutcomes(diagnosticPassesFail: bool, ownershipEliminatorFails: bool)

  /** One call into a pass pipeline or the verifier. */
  datatype SILStep =
    | DiagnosticPasses
    | OwnershipEliminator
    | LinkAllFromCurrentModule
    | Verify
    | OnonePasses
    | OptPreparePasses
    | OptimizationPassesFromFile(path: string)
    | OptimizationPasses
    | CheckPrespecializations

  /** The three mutually exclusive branches of the mandatory step. */
  datatype MandatoryChoice = NoDiagnosticPasses | RunDiagnosticPasses | OwnershipOnly

  /** The run of a sequence of steps, and whether it reported failure. */
  datatype Trace = Trace(failed: bool, steps: seq<SILStep>)

  predicate IsMandatoryStep(s: SILStep)
  {
    s.DiagnosticPasses? || s.OwnershipEliminator? || s.LinkAllFromCurrentModule?
  }

  predicate IsOptimizationStep(s: SILStep)
  {
    s.OnonePasses? || s.OptPreparePasses? || s.OptimizationPassesFromFile?
    || s.OptimizationPasses? || s.CheckPrespecializations?
  }

  /** Which branch of the mandatory step runs: none for MergeModules, the
      diagnostic passes unless they are skipped, and otherwise the ownership
      eliminator alone. */
  function MandatoryPassChoice(cfg: SILConfig): (r: MandatoryChoice)
    ensures r == NoDiagnosticPasses <==> cfg.action == MergeModules
    ensures r == RunDiagnosticPasses <==> cfg.action != MergeModules && !cfg.skipDiagnosticPasses
    ensures r == OwnershipOnly <==> cfg.action != MergeModules && cfg.skipDiagnosticPasses
  {
    if cfg.action == MergeModules then NoDiagnosticPasses
    else if !cfg.skipDiagnosticPasses then RunDiagnosticPasses
    else OwnershipOnly
  }

  /** performMandatorySILPasses: the chosen branch, stopping on its failure,
      then linking everything when partial modules are merged. */
  function MandatoryPasses(cfg: SILConfig, out: PassOutcomes): (r: Trace)
    ensures forall k :: 0 <= k < |r.steps| ==> IsMandatoryStep(r.steps[k])
    ensures r.failed <==> (MandatoryPassChoice(cfg) == RunDiagnosticPasses && out.diagnosticPassesFail)
                          || (MandatoryPassChoice(cfg) == OwnershipOnly && out.ownershipEliminatorFails)
    ensures r.failed ==> LinkAllFromCurrentModule !in r.steps
    ensures !r.failed ==> (LinkAllFromCurrentModule in r.steps <==> cfg.mergePartialModules)
  {
    var (passes, failed) :=
      match MandatoryPassChoice(cfg)
      case NoDiagnosticPasses => ([], false)
      case RunDiagnosticPasses => ([DiagnosticPasses], out.diagnosticPassesFail)
      case OwnershipOnly => ([OwnershipEliminator], out.ownershipEliminatorFails);
    if failed then Trace(true, passes)
    else Trace(false, passes + if cfg.mergePartialModules then [LinkAllFromCurrentModule] else [])
  }

  /** Whether the optimization step runs only the -Onone pipeline. */
  predicate OnoneOnly(cfg: SILConfig)
  {
    cfg.action == MergeModules || !cfg.shouldOptimize
  }

  /** performSILOptimizations: the -Onone passes for MergeModules or when
      optimization is off; otherwise the prepare passes, the optimization
      pipeline (from the external pipeline file when one is named), and the
      prespecialization completeness check when it is requested for an
      Objective-C-interop object build. */
  function Optimizations(cfg: SILConfig): (r: seq<SILStep>)
    ensures forall k :: 0 <= k < |r| ==> IsOptimizationStep(r[k])
    ensures OnoneOnly(cfg) <==> r == [OnonePasses]
    ensures !OnoneOnly(cfg) ==> |r| > 0 && r[0] == OptPreparePasses
    ensures !OnoneOnly(cfg) ==>
              (OptimizationPasses in r <==> cfg.externalPassPipelineFilename == [])
              && (OptimizationPassesFromFile(cfg.externalPassPipelineFilename) in r
                  <==> cfg.externalPassPipelineFilename != [])
    ensures CheckPrespecializations in r <==>
              !OnoneOnly(cfg) && cfg.checkOnoneSupportCompleteness && cfg.enableObjCInterop
              && cfg.action == EmitObject
  {
    if OnoneOnly(cfg) then [OnonePasses]
    else
      [OptPreparePasses]
      + (if cfg.externalPassPipelineFilename != []
         then [OptimizationPassesFromFile(cfg.externalPassPipelineFilename)]
         else [OptimizationPasses])
      + (if cfg.checkOnoneSupportCompleteness && cfg.enableObjCInterop && cfg.action == EmitObject
         then [CheckPrespecializations] else [])
  }

  /** performSILProcessing: the mandatory passes; on their failure nothing
      else; otherwise verify, optimize, verify again.  The result's `failed`
      is the function's return value. */
  function Processing(cfg: SILConfig, out: PassOutcomes): (r: Trace)
    ensures r.failed == MandatoryPasses(cfg, out).failed
    ensures r.failed ==> r.steps == MandatoryPasses(cfg, out).steps
    ensures !r.failed ==> |MandatoryPasses(cfg, out).steps| < |r.steps|
                          && r.steps[..|MandatoryPasses(cfg, out).steps|] == MandatoryPasses(cfg, out).steps
    ensures !r.failed ==> var n := |MandatoryPasses(cfg, out).steps|;
                          && |r.steps| == n + |Optimizations(cfg)| + 2
                          && r.steps[n] == Verify && r.steps[|r.steps| - 1] == Verify
                          && r.steps[n + 1..|r.steps| - 1] == Optimizations(cfg)
  {
    var m := MandatoryPasses(cfg, out);
    if m.failed then m
    else Trace(false, m.steps + [Verify] + Optimizations(cfg) + [Verify])
  }

  /** Number of times `s` occurs in `steps`. */
  function Occurrences(s: SILStep, steps: seq<SILStep>): nat
  {
    if steps == [] then 0
    else Occurrences(s, steps[..|steps| - 1]) + (if steps[|steps| - 1] == s then 1 else 0)
  }

  lemma {:induction false} OccurrencesAppend(s: SILStep, a: seq<SILStep>, b: seq<SILStep>)
    ensures Occurrences(s, a + b) == Occurrences(s, a) + Occurrences(s, b)
  {
    if b != [] {
      var init := b[..|b| - 1];
      assert (a + b)[..|a + b| - 1] == a + init;
      assert (a + b)[|a + b| - 1] == b[|b| - 1];
      OccurrencesAppend(s, a, init);
    } else {
      assert a + b == a;
    }
  }

  lemma {:induction false} OccurrencesAbsent(s: SILStep, steps: seq<SILStep>)
    requires s !in steps
    ensures Occurrences(s, steps) == 0
  {
    if steps != [] {
      assert steps[..|steps| - 1] + [steps[|steps| - 1]] == steps;
      OccurrencesAbsent(s, steps[..|steps| - 1]);
    }
  }

  /** Verify occurs twice in a run of mandatory steps, a verification,
      optimization steps and a verification. */
  lemma {:induction false} VerifyTwiceInRun(m: seq<SILStep>, opt: seq<SILStep>)
    requires forall k :: 0 <= k < |m| ==> IsMandatoryStep(m[k])
    requires forall k :: 0 <= k < |opt| ==> IsOptimizationStep(opt[k])
    ensures Occurrences(Verify, m + [Verify] + opt + [Verify]) == 2
  {
    assert Verify !in m by {
      forall k | 0 <= k < |m| ensures m[k] != Verify {
        assert IsMandatoryStep(m[k]);
      }
    }
    assert Verify !in opt by {
      forall k | 0 <= k < |opt| ensures opt[k] != Verify {
        assert IsOptimizationStep(opt[k]);
      }
    }
    OccurrencesAbsent(Verify, m);
    OccurrencesAbsent(Verify, opt);
    assert Occurrences(Verify, [Verify]) == 1 by {
      assert [Verify][..0] == [];
    }
    OccurrencesAppend(Verify, m, [Verify]);
    OccurrencesAppend(Verify, m + [Verify], opt);
    OccurrencesAppend(Verify, m + [Verify] + opt, [Verify]);
  }

  /** The verifier runs exactly twice when the mandatory passes succeed and
      not at all when they fail. */
  lemma {:induction false} VerifiesTwiceUnlessMandatoryFails(cfg: SILConfig, out: PassOutcomes)
    ensures var r := Processing(cfg, out);
            Occurrences(Verify, r.steps) == if r.failed then 0 else 2
  {
    var m := MandatoryPasses(cfg, out);
    if m.failed {
      assert Verify !in m.steps by {
        forall k | 0 <= k < |m.steps| ensures m.steps[k] != Verify {
          assert IsMandatoryStep(m.steps[k]);
        }
      }
      OccurrencesAbsent(Verify, m.steps);
    } else {
      VerifyTwiceInRun(m.steps, Optimizations(cfg));
      assert Processing(cfg, out).steps == m.steps + [Verify] + Optimizations(cfg) + [Verify];
    }
  }

  /** A mandatory failure returns before any verification or optimization:
      every step of the run is a mandatory one. */
  lemma MandatoryFailureStopsProcessing(cfg: SILConfig, out: PassOutcomes)
    requires Processing(cfg, out).failed
    ensures forall k :: 0 <= k < |Processing(cfg, out).steps| ==>
              IsMandatoryStep(Processing(cfg, out).steps[k])
    ensures Verify !in Processing(cfg, out).steps
  {
    var r := Processing(cfg, out);
    forall k | 0 <= k < |r.steps| ensures r.steps[k] != Verify {
      assert IsMandatoryStep(r.steps[k]);
    }
  }

  /** On success the run is: the mandatory steps, one verification, the
      optimization steps of performSILOptimizations, one verification, in
      that order. */
  lemma {:induction false} SuccessfulRunOrder(cfg: SILConfig, out: PassOutcomes)
    requires !Processing(cfg, out).failed
    ensures var r := Processing(cfg, out);
            exists i, j :: 0 <= i < j == |r.steps| - 1
              && r.steps[i] == Verify && r.steps[j] == Verify
              && (forall k :: 0 <= k < i ==> IsMandatoryStep(r.steps[k]))
              && (forall k :: i < k < j ==> IsOptimizationStep(r.steps[k]))
              && r.steps[..i] == MandatoryPasses(cfg, out).steps && r.steps[i + 1..j] == Optimizations(cfg)
  {
    var m := MandatoryPasses(cfg, out);
    var opt := Optimizations(cfg);
    RunOrder(m.steps, opt);
    assert Processing(cfg, out).steps == m.steps + [Verify] + opt + [Verify];
  }

  /** Where the two verifications of a run of mandatory steps, a
      verification, optimization steps and a verification sit. */
  lemma RunOrder(m: seq<SILStep>, opt: seq<SILStep>)
    requires forall k :: 0 <= k < |m| ==> IsMandatoryStep(m[k])
    requires forall k :: 0 <= k < |opt| ==> IsOptimizationStep(opt[k])
    ensures var steps := m + [Verify] + opt + [Verify];
            exists i, j :: 0 <= i < j == |steps| - 1
              && steps[i] == Verify && steps[j] == Verify
              && (forall k :: 0 <= k < i ==> IsMandatoryStep(steps[k]))
              && (forall k :: i < k < j ==> IsOptimizationStep(steps[k]))
              && steps[..i] == m && steps[i + 1..j] == opt
  {
    var steps := m + [Verify] + opt + [Verify];
    var i, j := |m|, |steps| - 1;
    assert steps[..i] == m && steps[i + 1..j] == opt;
    forall k | 0 <= k < i ensures IsMandatoryStep(steps[k]) {
      assert steps[k] == m[k];
    }
    forall k | i < k < j ensures IsOptimizationStep(steps[k]) {
      assert steps[k] == opt[k - i - 1];
    }
    assert 0 <= i < j == |steps| - 1 && steps[i] == Verify && steps[j] == Verify;
  }

  /** MergeModules runs neither the diagnostic passes nor the ownership
      eliminator and so cannot fail its mandatory step. */
  lemma MergeModulesRunsNoDiagnostics(cfg: SILConfig, out: PassOutcomes)
    requires cfg.action == MergeModules
    ensures !Processing(cfg, out).failed
    ensures DiagnosticPasses !in Processing(cfg, out).steps
    ensures OwnershipEliminator !in Processing(cfg, out).steps
  {
    var m := MandatoryPasses(cfg, out);
    assert m.steps == if cfg.mergePartialModules then [LinkAllFromCurrentModule] else [];
    assert Processing(cfg, out).steps == m.steps + [Verify] + Optimizations(cfg) + [Verify];
    forall k | 0 <= k < |Optimizations(cfg)|
      ensures Optimizations(cfg)[k] != DiagnosticPasses && Optimizations(cfg)[k] != OwnershipEliminator
    {
      assert IsOptimizationStep(Optimizations(cfg)[k]);
    }
  }

  /** Skipping the diagnostic passes (outside MergeModules) still runs the
      ownership eliminator, and never the diagnostic passes. */
  lemma SkippedDiagnosticsStillEliminateOwnership(cfg: SILConfig, out: PassOutcomes)
    requires cfg.action != MergeModules && cfg.skipDiagnosticPasses
    ensures Processing(cfg, out).steps[0] == OwnershipEliminator
    ensures DiagnosticPasses !in Processing(cfg, out).steps
    ensures Processing(cfg, out).failed <==> out.ownershipEliminatorFails
  {
    var m := MandatoryPasses(cfg, out);
    assert m.steps[0] == OwnershipEliminator;
    assert DiagnosticPasses !in m.steps by {
      forall k | 0 <= k < |m.steps| ensures m.steps[k] != DiagnosticPasses {
        assert k == 0 || m.steps[k] == LinkAllFromCurrentModule;
      }
    }
    if !m.failed {
      var opt := Optimizations(cfg);
      assert DiagnosticPasses !in opt by {
        forall k | 0 <= k < |opt| ensures opt[k] != DiagnosticPasses {
          assert IsOptimizationStep(opt[k]);
        }
      }
      assert Processing(cfg, out).steps == m.steps + [Verify] + opt + [Verify];
    }
  }

  /** MergeModules or disabled optimization runs only the -Onone pipeline
      between the two verifications. */
  lemma OnoneOnlyRunsOnonePasses(cfg: SILConfig, out: PassOutcomes)
    requires OnoneOnly(cfg) && !Processing(cfg, out).failed
    ensures forall k :: 0 <= k < |Processing(cfg, out).steps| && IsOptimizationStep(Processing(cfg, out).steps[k])
              ==> Processing(cfg, out).steps[k] == OnonePasses
    ensures OnonePasses in Processing(cfg, out).steps
  {
    var m := MandatoryPasses(cfg, out);
    var r := Processing(cfg, out);
    assert r.steps == m.steps + [Verify] + [OnonePasses] + [Verify];
    assert r.steps[|m.steps| + 1] == OnonePasses;
    forall k | 0 <= k < |r.steps| && IsOptimizationStep(r.steps[k]) ensures r.steps[k] == OnonePasses {
      if k < |m.steps| {
        assert IsMandatoryStep(m.steps[k]);
      }
    }
  }
}
