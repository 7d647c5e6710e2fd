// Command-line configuration: the flag tables, the cached configuration and
// the options handed on to LLVM (compiler/src/utility/flags.cc).
module Flags {
  import opened Basics

  /** How hard the back end optimises. */
  datatype OptLevel = OptNone | OptSome | OptSmall | OptFast

  /** What the compiler writes out. */
  datatype OutputFormat = LlvmIr | LlvmBc | Assembly | ObjectCode | StaticLib | Exe | AstGraphviz

  /** The raw values of the command-line flags, before any of them is interpreted. */
  datatype FlagValues = FlagValues(
    out: string, opt: string, emit: string, verbose: bool, debug: bool, jobs: nat,
    colored: bool, demangle: bool, disableChecking: bool, masm: string)

  /** The value of every flag left unset on the command line. */
  const Defaults: FlagValues :=
    FlagValues("main", "none", "exe", false, false, 1, true, false, false, "intel")

  /** The interpreted configuration the rest of the compiler reads. */
  datatype CompilerConfig = CompilerConfig(
    out: string, jobs: nat, opt: OptLevel, emit: OutputFormat,
    debug: bool, verbose: bool, colored: bool, demangle: bool, noChecking: bool)

  /** A table lookup: the value found, or the message written to the error stream. */
  datatype Lookup<T> = Found(value: T) | Invalid(message: string)

  /** The spelling `--opt` accepts for each level. */
  function OptSpelling(level: OptLevel): string
  {
    match level
    case OptNone => "none"
    case OptSome => "some"
    case OptSmall => "small"
    case OptFast => "fast"
  }

  /** The spelling `--emit` accepts for each format. */
  function EmitSpelling(format: OutputFormat): string
  {
    match format
    case LlvmIr => "ir"
    case LlvmBc => "bc"
    case Assembly => "asm"
    case ObjectCode => "obj"
    case StaticLib => "lib"
    case Exe => "exe"
    case AstGraphviz => "graphviz"
  }

  function OptMessage(value: string): string
  {
    "invalid value '" + value + "' for flag 'opt'! valid values: 'none', 'some', 'small', 'fast'"
  }

  function EmitMessage(value: string): string
  {
    "invalid value '" + value + "' for flag 'emit'! valid values: 'ir', 'bc', 'asm', 'obj', 'lib', 'exe', 'graphviz'"
  }

  /** parse_opt: the level spelled by `value`, or the complaint about it. */
  function ParseOpt(value: string): (r: Lookup<OptLevel>)
    ensures r.Found? ==> OptSpelling(r.value) == value
    ensures r.Invalid? ==> r.message == OptMessage(value)
  {
    if value == "none" then Found(OptNone)
    else if value == "some" then Found(OptSome)
    else if value == "small" then Found(OptSmall)
    else if value == "fast" then Found(OptFast)
    else Invalid(OptMessage(value))
  }

  /** parse_emit: the format spelled by `value`, or the complaint about it. */
  function ParseEmit(value: string): (r: Lookup<OutputFormat>)
    ensures r.Found? ==> EmitSpelling(r.value) == value
    ensures r.Invalid? ==> r.message == EmitMessage(value)
  {
    if value == "ir" then Found(LlvmIr)
    else if value == "bc" then Found(LlvmBc)
    else if value == "asm" then Found(Assembly)
    else if value == "obj" then Found(ObjectCode)
    else if value == "lib" then Found(StaticLib)
    else if value == "exe" then Found(Exe)
    else if value == "graphviz" then Found(AstGraphviz)
    else Invalid(EmitMessage(value))
  }

  /** Every level's spelling is accepted and names that level. */
  lemma OptRoundTrip(level: OptLevel)
    ensures ParseOpt(OptSpelling(level)) == Found(level)
  {
  }

  /** A value is accepted exactly when it is the spelling of some level. */
  lemma OptAcceptsOnlySpellings(value: string)
    ensures ParseOpt(value).Found? <==> exists level :: OptSpelling(level) == value
  {
    if exists level :: OptSpelling(level) == value {
      var level :| OptSpelling(level) == value;
      OptRoundTrip(level);
    }
  }

  /** Every format's spelling is accepted and names that format. */
  lemma EmitRoundTrip(format: OutputFormat)
    ensures ParseEmit(EmitSpelling(format)) == Found(format)
  {
  }

  /** A value is accepted exactly when it is the spelling of some format. */
  lemma EmitAcceptsOnlySpellings(value: string)
    ensures ParseEmit(value).Found? <==> exists format :: EmitSpelling(format) == value
  {
    if exists format :: EmitSpelling(format) == value {
      var format :| EmitSpelling(format) == value;
      EmitRoundTrip(format);
    }
  }

  /** The flags as left unset parse to no optimisation and an executable. */
  lemma DefaultsParse()
    ensures ParseOpt(Defaults.opt) == Found(OptNone)
    ensures ParseEmit(Defaults.emit) == Found(Exe)
  {
    OptRoundTrip(OptNone);
    EmitRoundTrip(Exe);
  }

  /**
   * generate_config: the configuration, or None where the program aborts
   * because either table lookup failed. The messages are those written to
   * the error stream first, the `--emit` complaint before the `--opt` one.
   */
  function GenerateConfig(f: FlagValues): (r: (Option<CompilerConfig>, seq<string>))
    ensures r.0.Some? <==> ParseOpt(f.opt).Found? && ParseEmit(f.emit).Found?
    ensures r.0.Some? ==> r.1 == []
    ensures r.0.Some? ==> OptSpelling(r.0.value.opt) == f.opt && EmitSpelling(r.0.value.emit) == f.emit
    ensures r.0.Some? ==> r.0.value.out == f.out && r.0.value.jobs == f.jobs
    ensures r.0.Some? ==> r.0.value.noChecking == f.disableChecking && r.0.value.debug == f.debug
    ensures r.0.None? ==> |r.1| in {1, 2}
  {
    var emit := ParseEmit(f.emit);
    var opt := ParseOpt(f.opt);
    var messages := (if emit.Invalid? then [emit.message] else []) + (if opt.Invalid? then [opt.message] else []);
    if emit.Invalid? || opt.Invalid? then (None, messages)
    else (Some(CompilerConfig(f.out, f.jobs, opt.value, emit.value, f.debug, f.verbose, f.colored, f.demangle, f.disableChecking)), [])
  }

  /** Running with every flag left unset does not abort. */
  lemma DefaultsConfigure()
    ensures GenerateConfig(Defaults).0 == Some(CompilerConfig("main", 1, OptNone, Exe, false, false, true, false, false))
  {
    DefaultsParse();
  }

  /**
   * The function-local static behind flags(): the configuration is built on
   * the first call and every later call returns the same object.
   */
  class ConfigCache {
    const values: FlagValues
    var config: Option<CompilerConfig>
    /** What has been written to the error stream. */
    var errors: seq<string>

    ghost predicate Valid()
      reads this
    {
      config.Some? ==> config == GenerateConfig(values).0
    }

    constructor (values: FlagValues)
      ensures this.values == values && config.None? && errors == []
      ensures Valid()
    {
      this.values := values;
      config := None;
      errors := [];
    }

    /** flags(): None stands for the abort inside generate_config. */
    method Get() returns (c: Option<CompilerConfig>)
      requires Valid()
      modifies this
      ensures Valid()
      ensures c == GenerateConfig(values).0
      ensures old(config).Some? ==> config == old(config) && errors == old(errors)
      ensures old(config).None? ==> config == c && errors == old(errors) + GenerateConfig(values).1
    {
      if config.Some? {
        c := config;
        return;
      }
      var generated := GenerateConfig(values);
      errors := errors + generated.1;
      config := generated.0;
      c := generated.0;
    }
  }

  /** Two successive calls to flags() agree, and the second one writes nothing. */
  method GetTwice(cache: ConfigCache) returns (first: Option<CompilerConfig>, second: Option<CompilerConfig>)
    requires cache.Valid()
    modifies cache
    ensures first == second
    ensures first.Some? ==> cache.errors == old(cache.errors)
  {
    first := cache.Get();
    ghost var between := cache.errors;
    second := cache.Get();
    assert first.Some? ==> cache.errors == between;
  }

  /** The argument vector given to LLVM's option parser. */
  function DelegatedArgs(): seq<string>
  {
    ["galliumc", "-x86-asm-syntax=intel"]
  }

  /**
   * delegate_flags as written: the call to LLVM's option parser sits inside
   * `assert`, so a build with NDEBUG defined drops the call with the check.
   * The result is the argument vector LLVM receives, if any.
   */
  function DelegateFlagsAsWritten(dialect: string, assertionsEnabled: bool): (r: Option<seq<string>>)
    ensures r.Some? <==> dialect == "intel" && assertionsEnabled
  {
    if dialect == "intel" && assertionsEnabled then Some(DelegatedArgs()) else None
  }

  /** With NDEBUG defined the Intel dialect never reaches LLVM. */
  lemma ReleaseDropsDialect(dialect: string)
    ensures DelegateFlagsAsWritten(dialect, false).None?
  {
  }

  /** delegate_flags as intended: the Intel dialect is handed on in every build. */
  function DelegateFlags(dialect: string, assertionsEnabled: bool): (r: Option<seq<string>>)
    ensures r.Some? <==> dialect == "intel"
    ensures r.Some? ==> |r.value| == 2 && r.value[0] == "galliumc" && r.value[1] == "-x86-asm-syntax=intel"
  {
    if dialect == "intel" then Some(DelegatedArgs()) else None
  }

  /** The corrected version agrees with the original wherever assertions are compiled in. */
  lemma DelegateFlagsAgreeInDebug(dialect: string)
    ensures DelegateFlags(dialect, true) == DelegateFlagsAsWritten(dialect, true)
  {
  }
}
