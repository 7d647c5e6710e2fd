// Writing the output file: its name and the outcome of emitting it
// (compiler/src/core/emit.cc).
module Emission {
  import opened Flags

  /** The extension each output format gets; `win64` stands for a build with _WIN64 defined. */
  function Extension(format: OutputFormat, win64: bool): string
  {
    match format
    case LlvmIr => ".ll"
    case LlvmBc => ".bc"
    case Assembly => ".S"
    case ObjectCode => ".o"
    case StaticLib => if win64 then ".lib" else ".a"
    case Exe => if win64 then ".exe" else ""
    case AstGraphviz => ".dot"
  }

  /** filename(): the `--out` name with the format's extension appended. */
  function FileName(config: CompilerConfig, win64: bool): (r: string)
    ensures |r| >= |config.out| && r[..|config.out|] == config.out
    ensures r[|config.out|..] == Extension(config.emit, win64)
  {
    config.out + Extension(config.emit, win64)
  }

  /** Outside Windows an executable carries no extension at all. */
  lemma ExeIsBareOutsideWindows(config: CompilerConfig)
    requires config.emit == Exe
    ensures FileName(config, false) == config.out
  {
    assert config.out + "" == config.out;
  }

  /** On one platform no two formats share an extension. */
  lemma ExtensionsDistinct(f1: OutputFormat, f2: OutputFormat, win64: bool)
    requires f1 != f2
    ensures Extension(f1, win64) != Extension(f2, win64)
  {
    var e1, e2 := Extension(f1, win64), Extension(f2, win64);
    if |e1| == |e2| && |e1| > 1 {
      assert e1[1] != e2[1] || e1[2..] != e2[2..];
    }
  }

  /** The output name tells the format it was written in. */
  lemma FileNameDeterminesFormat(c1: CompilerConfig, c2: CompilerConfig, win64: bool)
    requires c1.out == c2.out && c1.emit != c2.emit
    ensures FileName(c1, win64) != FileName(c2, win64)
  {
    ExtensionsDistinct(c1.emit, c2.emit, win64);
    var n1, n2 := FileName(c1, win64), FileName(c2, win64);
    assert n1[|c1.out|..] != n2[|c2.out|..];
  }

  /** The two kinds of file LLVM's code generator is asked for, and the value left when neither is chosen. */
  datatype FileKind = NullFile | AssemblyFile | ObjectFile

  /** What `emit` does, in order. */
  datatype Action =
    | PrintIr(file: string)
    | WriteBitcode(file: string)
    | EmitMachineFile(file: string, kind: FileKind)
    | RunCompiler(command: string)

  /** The observable outcome of `emit`: its return value, its actions and what it wrote to the error stream. */
  datatype EmitOutcome = EmitOutcome(ok: bool, actions: seq<Action>, errors: seq<string>)

  /** The file kind each format asks LLVM for. */
  function KindOf(format: OutputFormat): FileKind
  {
    match format
    case Assembly => AssemblyFile
    case ObjectCode => ObjectFile
    case StaticLib => ObjectFile
    case Exe => ObjectFile
    case _ => NullFile
  }

  /** compile_with_system: `$CC <path> -o <path>`. */
  function SystemCommand(cc: string, path: string): string
  {
    cc + " " + path + " -o " + path
  }

  /**
   * emit. The file system and LLVM are parameters: `openFails` is the error
   * code from opening the output file, `emitterRefuses` is the result of
   * addPassesToEmitFile, `cc` is the CC environment variable.
   * AstGraphviz is excluded by an assertion in the source; without
   * assertions it reaches LLVM with the null file kind.
   */
  function Emit(config: CompilerConfig, win64: bool, openFails: bool, emitterRefuses: bool, cc: string): (r: EmitOutcome)
    ensures !r.ok <==> openFails || (config.emit !in {LlvmIr, LlvmBc} && emitterRefuses)
    ensures r.ok ==> |r.actions| >= 1 && r.errors == []
    ensures openFails ==> r.actions == []
    ensures r.ok && config.emit in {LlvmIr, LlvmBc} ==> |r.actions| == 1
    ensures r.ok && r.actions[|r.actions| - 1].RunCompiler? <==> r.ok && config.emit == Exe
    ensures forall a | a in r.actions && !a.RunCompiler? :: a.file == FileName(config, win64)
  {
    var file := FileName(config, win64);
    if openFails then
      EmitOutcome(false, [], ["unable to open file '" + file + "' for writing"])
    else if config.emit == LlvmIr then
      EmitOutcome(true, [PrintIr(file)], [])
    else if config.emit == LlvmBc then
      EmitOutcome(true, [WriteBitcode(file)], [])
    else if emitterRefuses then
      EmitOutcome(false, [], ["LLVM is unable to emit a file of the type requested!"])
    else if config.emit == Exe then
      EmitOutcome(true, [EmitMachineFile(file, ObjectFile), RunCompiler(SystemCommand(cc, file))], [])
    else
      EmitOutcome(true, [EmitMachineFile(file, KindOf(config.emit))], [])
  }

  /** Machine-code output asks LLVM for the file kind its format calls for. */
  lemma EmitAsksForKind(config: CompilerConfig, win64: bool, cc: string)
    requires config.emit in {Assembly, ObjectCode, StaticLib, Exe}
    ensures Emit(config, win64, false, false, cc).actions[0] == EmitMachineFile(FileName(config, win64), KindOf(config.emit))
    ensures KindOf(config.emit) == (if config.emit == Assembly then AssemblyFile else ObjectFile)
  {
  }

  /** An executable is linked in place: the compiler reads and writes the emitted file. */
  lemma ExeLinksInPlace(config: CompilerConfig, win64: bool, cc: string)
    requires config.emit == Exe
    ensures Emit(config, win64, false, false, cc).actions[1] == RunCompiler(SystemCommand(cc, FileName(config, win64)))
  {
  }
}
