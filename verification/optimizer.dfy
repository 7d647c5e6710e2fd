// The optimisation pipeline chosen for each level
// (compiler/src/core/backend/optimizer.cc).
module Optimization {
  import opened Flags

  /** pass_name: the textual pipeline LLVM's pass builder parses for a level. */
  function PassName(level: OptLevel): (r: string)
    ensures |r| == 11 && r[..9] == "default<O" && r[10] == '>'
  {
    match level
    case OptNone => "default<O0>"
    case OptSome => "default<O1>"
    case OptSmall => "default<Os>"
    case OptFast => "default<O3>"
  }

  /** The character after `O` in each pipeline name. */
  function PipelineCode(level: OptLevel): char
  {
    match level
    case OptNone => '0'
    case OptSome => '1'
    case OptSmall => 's'
    case OptFast => '3'
  }

  /** Each level runs its own pipeline, named by its code. */
  lemma PassNameSpellsCode(level: OptLevel)
    ensures PassName(level)[9] == PipelineCode(level)
  {
  }

  /** No two levels share a pipeline. */
  lemma PassNamesDistinct(l1: OptLevel, l2: OptLevel)
    requires l1 != l2
    ensures PassName(l1) != PassName(l2)
  {
    PassNameSpellsCode(l1);
    PassNameSpellsCode(l2);
  }

  /**
   * pass_name on the level's underlying byte: a value outside the
   * enumeration falls through to the default case, which (without
   * assertions) yields the unoptimised pipeline.
   */
  function PassNameOfByte(raw: nat): (r: string)
    ensures raw >= 4 ==> r == PassName(OptNone)
  {
    if raw == 0 then PassName(OptNone)
    else if raw == 1 then PassName(OptSome)
    else if raw == 2 then PassName(OptSmall)
    else if raw == 3 then PassName(OptFast)
    else "default<O0>"
  }

  /** A module-level pass. */
  datatype ModulePass = Verifier | Pipeline(name: string)

  /** The pass managers that `optimize` fills in before running them on the module. */
  class PassSetup {
    /** Whether the default alias-analysis pipeline was registered with the function analysis manager. */
    var aliasAnalysis: bool
    var modulePasses: seq<ModulePass>

    constructor ()
      ensures !aliasAnalysis && modulePasses == []
    {
      aliasAnalysis := false;
      modulePasses := [];
    }

    /** optimize: alias analysis only when optimising, then the verifier ahead of the level's pipeline. */
    method Optimize(level: OptLevel)
      modifies this
      ensures aliasAnalysis == (old(aliasAnalysis) || level != OptNone)
      ensures modulePasses == old(modulePasses) + [Verifier, Pipeline(PassName(level))]
    {
      if level != OptNone {
        aliasAnalysis := true;
      }
      modulePasses := modulePasses + [Verifier];
      modulePasses := modulePasses + [Pipeline(PassName(level))];
    }
  }

  /** On fresh managers the verifier comes first, and alias analysis is registered exactly when optimising. */
  method OptimizeFresh(level: OptLevel) returns (aa: bool, passes: seq<ModulePass>)
    ensures aa <==> level != OptNone
    ensures passes == [Verifier, Pipeline(PassName(level))]
  {
    var setup := new PassSetup();
    setup.Optimize(level);
    aa, passes := setup.aliasAnalysis, setup.modulePasses;
  }
}
