/**
  Config (slngen/Config.cs): the program's options on top of the parsed
  arguments. The verbosity is tallied from the /verbose and /quiet flags, the
  solution file name is written once, the Visual Studio version comes from
  /vsver, the devenv and vsmsbuild command lines are assembled, and
  guessDefaults fills in the projects and the solution file when they were
  not given.
*/
module Configs {
  import opened Wrappers
  import opened Text
  import opened PathLib
  import opened ProgramArgs
  import SlnErrors
  import Util

  /** Program.Status, the process's exit statuses. */
  datatype Status =
    | OK
    | NoProjectsFoundError
    | TooManyProjectsFoundError
    | BadOrMissingArgumentError
    | BadProjectNameError
    | ValidationError

  datatype Verbosity = Quiet | Normal | Verbose | ReallyVerbose

  /** The enum's numeric values. */
  function VerbosityValue(v: Verbosity): int {
    match v
    case Quiet => -1
    case Normal => 0
    case Verbose => 1
    case ReallyVerbose => 2
  }

  datatype VisualStudioVersion = VS10 | VS11 | VS12 | VS14

  /** The argument table Config declares. */
  const ConfigInfos: seq<ArgInfo> := [
    ArgInfo("files", [], StringArray, true, true),
    ArgInfo("recurse", ["s"], Bool, true, false),
    ArgInfo("hive", [], Bool, true, false),
    ArgInfo("nest", ["n"], Bool, true, false),
    ArgInfo("noLaunch", ["no"], Bool, true, false),
    ArgInfo("noSkipRefs", ["nsr"], Bool, true, false),
    ArgInfo("run", [], String, true, false),
    ArgInfo("sourceDepot", ["sd"], Bool, true, false),
    ArgInfo("outputFile", ["o"], String, true, false),
    ArgInfo("useCurrent", ["w"], Bool, true, false),
    ArgInfo("quiet", ["q"], BoolArray, true, false),
    ArgInfo("verbose", ["v"], BoolArray, true, false),
    ArgInfo("validate", [], Bool, true, false),
    ArgInfo("devenv", [], String, true, false),
    ArgInfo("vsver", [], String, true, false),
    ArgInfo("error", [], StringArray, true, false),
    ArgInfo("addSafeImports", ["asi"], Bool, true, false),
    ArgInfo("vsmsbuild", [], Bool, true, false),
    ArgInfo("fixToolsVersion", [], Bool, true, false),
    ArgInfo("purge", [], Bool, true, false)
  ]

  // ---------------------------------------------------------------------
  // Reading the parsed values (GetValue with the declared defaults)
  // ---------------------------------------------------------------------

  function BoolArg(values: map<string, Value>, name: string, default: bool): bool {
    if name in values && values[name].BoolValue? then values[name].b else default
  }

  /** A string argument; None is the default null. */
  function StringArg(values: map<string, Value>, name: string): Option<string> {
    if name in values && values[name].StringValue? then Some(values[name].s) else None
  }

  function BoolsOf(items: seq<Value>): seq<bool> {
    if items == [] then []
    else (if items[0].BoolValue? then [items[0].b] else []) + BoolsOf(items[1..])
  }

  function StringsOf(items: seq<Value>): seq<string> {
    if items == [] then []
    else (if items[0].StringValue? then [items[0].s] else []) + StringsOf(items[1..])
  }

  /** An array argument; the default is the empty array. */
  function BoolListArg(values: map<string, Value>, name: string): seq<bool> {
    if name in values && values[name].ListValue? then BoolsOf(values[name].items) else []
  }

  function StringListArg(values: map<string, Value>, name: string): seq<string> {
    if name in values && values[name].ListValue? then StringsOf(values[name].items) else []
  }

  // ---------------------------------------------------------------------
  // Verbosity
  // ---------------------------------------------------------------------

  /** What a run of flags adds to the tally: +1 for each '+', -1 for each '-'. */
  function Delta(flags: seq<bool>): int {
    if flags == [] then 0 else (if flags[0] then 1 else -1) + Delta(flags[1..])
  }

  function Count(flags: seq<bool>, b: bool): nat {
    if flags == [] then 0 else (if flags[0] == b then 1 else 0) + Count(flags[1..], b)
  }

  /** The tally counts the '+' flags against the '-' flags. */
  lemma {:induction false} DeltaCounts(flags: seq<bool>)
    ensures Delta(flags) == Count(flags, true) - Count(flags, false)
  {
    if flags != [] {
      DeltaCounts(flags[1..]);
    }
  }

  /** The constructor's two loops over the /verbose and /quiet flags. */
  method TallyVerbosity(verbose: seq<bool>, quiet: seq<bool>) returns (tally: int)
    ensures tally == Delta(verbose) - Delta(quiet)
  {
    tally := 0;
    var i := 0;
    while i < |verbose|
      invariant 0 <= i <= |verbose|
      invariant tally + Delta(verbose[i..]) == Delta(verbose)
    {
      assert verbose[i..][1..] == verbose[i + 1..];
      tally := tally + if verbose[i] then 1 else -1;
      i := i + 1;
    }
    var j := 0;
    while j < |quiet|
      invariant 0 <= j <= |quiet|
      invariant tally - Delta(quiet[j..]) == Delta(verbose) - Delta(quiet)
    {
      assert quiet[j..][1..] == quiet[j + 1..];
      tally := tally - if quiet[j] then 1 else -1;
      j := j + 1;
    }
  }

  /** /quiet+ counts as /verbose- and /quiet- as /verbose+. */
  function Negated(flags: seq<bool>): (r: seq<bool>)
    ensures |r| == |flags|
  {
    seq(|flags|, i requires 0 <= i < |flags| => !flags[i])
  }

  lemma {:induction false} QuietIsNegatedVerbose(verbose: seq<bool>, quiet: seq<bool>)
    ensures Delta(verbose) - Delta(quiet) == Delta(verbose + Negated(quiet))
  {
    DeltaAppend(verbose, Negated(quiet));
    DeltaNegated(quiet);
  }

  lemma {:induction false} DeltaAppend(a: seq<bool>, b: seq<bool>)
    ensures Delta(a + b) == Delta(a) + Delta(b)
  {
    if a != [] {
      DeltaAppend(a[1..], b);
      assert (a + b)[1..] == a[1..] + b;
    } else {
      assert a + b == b;
    }
  }

  lemma {:induction false} DeltaNegated(flags: seq<bool>)
    ensures Delta(Negated(flags)) == -Delta(flags)
  {
    if flags != [] {
      DeltaNegated(flags[1..]);
      assert Negated(flags)[1..] == Negated(flags[1..]);
    }
  }

  /** The verbosity a tally selects. */
  function VerbosityOf(tally: int): Verbosity {
    if tally < 0 then Quiet
    else if tally == 1 then Verbose
    else if tally > 1 then ReallyVerbose
    else Normal
  }

  /** The selected verbosity is the tally clamped to the enum's range -1..2. */
  lemma VerbosityIsClampedTally(tally: int)
    ensures VerbosityValue(VerbosityOf(tally)) == (if tally < -1 then -1 else if tally > 2 then 2 else tally)
  {
  }

  /** More flags toward verbose never select a quieter level. */
  lemma VerbosityMonotone(t1: int, t2: int)
    requires t1 <= t2
    ensures VerbosityValue(VerbosityOf(t1)) <= VerbosityValue(VerbosityOf(t2))
  {
    VerbosityIsClampedTally(t1);
    VerbosityIsClampedTally(t2);
  }

  // ---------------------------------------------------------------------
  // Version and derived switches
  // ---------------------------------------------------------------------

  /** An explicit /vsver: "12" and "11" select those versions, anything else VS14 ("10" included). */
  function ExplicitVersion(ver: string): (r: VisualStudioVersion)
    ensures r != VS10
    ensures r == VS12 <==> ver == "12"
    ensures r == VS11 <==> ver == "11"
  {
    if ver == "12" then VS12 else if ver == "11" then VS11 else VS14
  }

  /** The number a version is written as on the command line. */
  function VersionNumber(v: VisualStudioVersion): string {
    match v
    case VS10 => "10"
    case VS11 => "11"
    case VS12 => "12"
    case VS14 => "14"
  }

  /** Every version but VS10 survives being written as /vsver and read back. */
  lemma VersionRoundTrip(v: VisualStudioVersion)
    ensures ExplicitVersion(VersionNumber(v)) == (if v == VS10 then VS14 else v)
  {
  }

  /** launchVS: neither /noLaunch nor /validate. */
  function LaunchVS(values: map<string, Value>): bool {
    !(BoolArg(values, "noLaunch", false) || BoolArg(values, "validate", false))
  }

  /** skipRefs: the negation of /noSkipRefs, whose default is true. */
  function SkipRefs(values: map<string, Value>): bool {
    !BoolArg(values, "noSkipRefs", true)
  }

  /** Without arguments VS is launched and references are not skipped; /noSkipRefs- turns skipping on. */
  lemma DefaultSwitches()
    ensures LaunchVS(map[]) && !SkipRefs(map[])
    ensures SkipRefs(map["noSkipRefs" := BoolValue(false)])
    ensures !LaunchVS(map["validate" := BoolValue(true)])
  {
  }

  // ---------------------------------------------------------------------
  // devenv and vsmsbuild command lines
  // ---------------------------------------------------------------------

  /** The flags of devenvArgs, in their fixed order: hive, /run, source control. */
  function DevenvFlags(inHive: bool, run: Option<string>, useSourceDepot: bool): string {
    (if inHive then "/rootSuffix Exp /RANU " else "")
    + (if run.Some? then "/run " + run.value + " " else "")
    + (if useSourceDepot then "/command \"File.UseSourceControlwithSolution\" " else "")
  }

  /** devenvArgs: the flags, then the quoted solution path (StringBuilder.Append(null) appends nothing). */
  function DevenvArgs(inHive: bool, run: Option<string>, useSourceDepot: bool, slnFile: Option<string>): string {
    DevenvFlags(inHive, run, useSourceDepot) + "\"" + slnFile.GetOr("") + "\""
  }

  lemma NoQuoteAppend(a: string, b: string)
    requires !HasChar(a, '"') && !HasChar(b, '"')
    ensures !HasChar(a + b, '"')
  {
    forall i | 0 <= i < |a + b|
      ensures (a + b)[i] != '"'
    {
      if i >= |a| {
        assert (a + b)[i] == b[i - |a|];
      }
    }
  }

  lemma FlagsUnquoted(inHive: bool, run: Option<string>)
    requires run.Some? ==> !HasChar(run.value, '"')
    ensures !HasChar(DevenvFlags(inHive, run, false), '"')
  {
    var hive := if inHive then "/rootSuffix Exp /RANU " else "";
    assert !HasChar(hive, '"');
    if run.Some? {
      NoQuoteAppend("/run ", run.value);
      NoQuoteAppend("/run " + run.value, " ");
      NoQuoteAppend(hive, "/run " + run.value + " ");
      assert DevenvFlags(inHive, run, false) == hive + ("/run " + run.value + " ") + "";
    } else {
      assert DevenvFlags(inHive, run, false) == hive + "" + "";
    }
  }

  /**
    Splitting the devenv command line the way ExtractQouted does gives the
    flags' words and then the solution path as one argument, blanks and all.
  */
  lemma DevenvArgsRoundTrip(inHive: bool, run: Option<string>, slnFile: string)
    requires run.Some? ==> !HasChar(run.value, '"')
    requires !HasChar(slnFile, '"')
    ensures Util.Extracted(Some(DevenvArgs(inHive, run, false, Some(slnFile))))
      == Words(DevenvFlags(inHive, run, false)) + [slnFile]
  {
    FlagsUnquoted(inHive, run);
    Util.QuotedIsVerbatim(DevenvFlags(inHive, run, false), slnFile, "");
    assert DevenvArgs(inHive, run, false, Some(slnFile)) == DevenvFlags(inHive, run, false) + "\"" + slnFile + "\"" + "";
    Util.EmptyHasNoWords();
  }

  /** vsmsbuildArgs: the quoted project, then the quoted explicit devenv when there is one. */
  function VsmsbuildArgs(slnFile: Option<string>, explicitDevenvExe: Option<string>): string {
    "/project:\"" + slnFile.GetOr("") + "\" "
    + (if explicitDevenvExe.Some? then "/devenv:\"" + explicitDevenvExe.value + "\"" else "")
  }

  /** Without an explicit devenv the vsmsbuild command line holds the project path as its one quoted argument. */
  lemma VsmsbuildArgsRoundTrip(slnFile: string)
    requires !HasChar(slnFile, '"')
    ensures Util.Extracted(Some(VsmsbuildArgs(Some(slnFile), None))) == Words("/project:") + [slnFile] + Words(" ")
  {
    assert !HasChar("/project:", '"');
    assert !HasChar(" ", '"');
    assert VsmsbuildArgs(Some(slnFile), None) == "/project:" + "\"" + slnFile + "\"" + " ";
    Util.QuotedIsVerbatim("/project:", slnFile, " ");
  }

  // ---------------------------------------------------------------------
  // Solution file names
  // ---------------------------------------------------------------------

  predicate IsNullOrWhiteSpace(s: Option<string>) {
    s.None? || forall i :: 0 <= i < |s.value| ==> IsWhiteSpace(s.value[i])
  }

  /** The " [base]" tag naming the enlistment from BASEDIR, or nothing. */
  function BaseDirTag(baseDirVariable: Option<string>): string {
    var baseDir := if baseDirVariable.Some? then Some(FileName(baseDirVariable.value)) else None;
    if !IsNullOrWhiteSpace(baseDir) then " [" + baseDir.value + "]" else ""
  }

  /** The file part of CreateSlnFilename. */
  function SlnFileName(slnFilename: string, baseDirVariable: Option<string>): string {
    FileNameWithoutExtension(slnFilename) + BaseDirTag(baseDirVariable) + ".sln"
  }

  /** CreateSlnFilename(targetDirectory, slnFilename), BASEDIR passed in. */
  function CreateSlnFilename(targetDirectory: string, slnFilename: string, baseDirVariable: Option<string>): string {
    Combine(targetDirectory, SlnFileName(slnFilename, baseDirVariable))
  }

  predicate NoEndsName(s: string) {
    forall i :: 0 <= i < |s| ==> !EndsName(s[i])
  }

  lemma FileNameWithoutExtensionPlain(p: string)
    ensures NoEndsName(FileNameWithoutExtension(p))
  {
    var name := FileName(p);
    var k := LastIndexWhere(name, IsDot);
    if k != -1 {
      assert forall i :: 0 <= i < k ==> name[..k][i] == name[i];
    }
  }

  lemma SlnFileNamePlain(slnFilename: string, baseDirVariable: Option<string>)
    ensures NoEndsName(SlnFileName(slnFilename, baseDirVariable))
  {
    FileNameWithoutExtensionPlain(slnFilename);
    var stem := FileNameWithoutExtension(slnFilename);
    var tag := BaseDirTag(baseDirVariable);
    assert NoEndsName(tag);
    var f := stem + tag + ".sln";
    forall i | 0 <= i < |f|
      ensures !EndsName(f[i])
    {
      if i < |stem| {
        assert f[i] == stem[i];
      } else if i < |stem| + |tag| {
        assert f[i] == tag[i - |stem|];
      } else {
        assert f[i] == ".sln"[i - |stem| - |tag|];
      }
    }
  }

  /** The last separator of a + b is a's last character when b has none. */
  lemma {:induction false} LastEndsNameIn(a: string, b: string)
    requires a != [] && EndsName(a[|a| - 1])
    requires NoEndsName(b)
    ensures LastIndexWhere(a + b, EndsName) == |a| - 1
    decreases |b|
  {
    if b == [] {
      assert a + b == a;
    } else {
      var s := a + b;
      assert s[..|s| - 1] == a + b[..|b| - 1];
      assert s[|s| - 1] == b[|b| - 1];
      LastEndsNameIn(a, b[..|b| - 1]);
    }
  }

  /** Combining a directory with a plain file name leaves that name as the path's file name. */
  lemma FileNameOfCombine(dir: string, f: string)
    requires f != [] && NoEndsName(f)
    ensures FileName(Combine(dir, f)) == f
  {
    assert !IsPathRooted(f) by {
      assert !EndsName(f[0]);
      if |f| >= 2 {
        assert !EndsName(f[1]);
      }
    }
    var p := Combine(dir, f);
    if dir == "" {
      assert LastIndexWhere(f, EndsName) == -1;
    } else if IsSeparator(dir[|dir| - 1]) || dir[|dir| - 1] == ':' {
      LastEndsNameIn(dir, f);
      assert p[|dir|..] == f;
    } else {
      LastEndsNameIn(dir + [DirectorySeparator], f);
      assert p == dir + [DirectorySeparator] + f;
      assert p[|dir| + 1..] == f;
    }
  }

  /** The last dot of stem + tag + ".sln" is the one of ".sln". */
  lemma SlnExtension(f: string, stemAndTag: string)
    requires NoEndsName(f) && f == stemAndTag + ".sln"
    ensures FileName(f) == f
    ensures Extension(f) == ".sln"
    ensures FileNameWithoutExtension(f) == stemAndTag
  {
    assert LastIndexWhere(f, EndsName) == -1;
    assert FileName(f) == f;
    assert f[|f| - 4] == '.' && f[|f| - 3..] == "sln";
    assert LastIndexWhere(f, IsDot) == |f| - 4;
    assert f[|f| - 4..] == ".sln";
    assert f[..|f| - 4] == stemAndTag;
  }

  /**
    CreateSlnFilename names a .sln file whose base name is the given file's
    base name followed by the enlistment tag.
  */
  lemma CreateSlnFilenameShape(targetDirectory: string, slnFilename: string, baseDirVariable: Option<string>)
    ensures var r := CreateSlnFilename(targetDirectory, slnFilename, baseDirVariable);
      Extension(r) == ".sln"
      && FileNameWithoutExtension(r) == FileNameWithoutExtension(slnFilename) + BaseDirTag(baseDirVariable)
  {
    var f := SlnFileName(slnFilename, baseDirVariable);
    SlnFileNamePlain(slnFilename, baseDirVariable);
    FileNameOfCombine(targetDirectory, f);
    SlnExtension(f, FileNameWithoutExtension(slnFilename) + BaseDirTag(baseDirVariable));
    SameFileName(CreateSlnFilename(targetDirectory, slnFilename, baseDirVariable), f);
  }

  /** Path.Combine(INETROOT, "target", "Solutions"). */
  function DefaultSolutionDirectory(inetRoot: string): string {
    Combine(Combine(inetRoot, "target"), "Solutions")
  }

  // ---------------------------------------------------------------------
  // The Config object
  // ---------------------------------------------------------------------

  class Config {
    /** The parsed arguments (the ProgramArguments base object). */
    const values: map<string, Value>
    const usageFailed: bool
    var status: Status
    var verbosity: Verbosity
    var slnFile: Option<string>
    var initialProjects: seq<string>
    var currentDirectory: string

    constructor Make(values: map<string, Value>, usageFailed: bool, currentDirectory: string, status: Status,
                     verbosity: Verbosity, slnFile: Option<string>, initialProjects: seq<string>)
      ensures this.values == values && this.usageFailed == usageFailed
      ensures this.currentDirectory == currentDirectory && this.status == status && this.verbosity == verbosity
      ensures this.slnFile == slnFile && this.initialProjects == initialProjects
    {
      this.values := values;
      this.usageFailed := usageFailed;
      this.currentDirectory := currentDirectory;
      this.status := status;
      this.verbosity := verbosity;
      this.slnFile := slnFile;
      this.initialProjects := initialProjects;
    }

    function Recurse(): bool
      reads this
    {
      BoolArg(values, "recurse", false)
    }

    function UseCurrentDirectory(): bool
      reads this
    {
      BoolArg(values, "useCurrent", false)
    }

    /** targetVersion for an explicit /vsver; the registry probe for "0" is not part of this model. */
    function TargetVersion(): VisualStudioVersion
      reads this
    {
      ExplicitVersion(StringArg(values, "vsver").GetOr("0"))
    }

    function DevenvArguments(): string
      reads this
    {
      DevenvArgs(BoolArg(values, "hive", false), StringArg(values, "run"), BoolArg(values, "sourceDepot", false), slnFile)
    }

    /** The slnFile setter: the first non-null value stays. */
    method SetSlnFile(value: string)
      modifies this`slnFile
      ensures slnFile == if old(slnFile).Some? then old(slnFile) else Some(value)
    {
      if slnFile.None? {
        slnFile := Some(value);
      }
    }

    /** SetSlnFileByName: only when no solution file is set yet. */
    method SetSlnFileByName(baseName: string, baseDirVariable: Option<string>)
      modifies this`slnFile
      ensures slnFile == if old(slnFile).Some? then old(slnFile)
        else Some(CreateSlnFilename(currentDirectory, baseName, baseDirVariable))
    {
      if slnFile.Some? {
        return;
      }
      SetSlnFile(CreateSlnFilename(currentDirectory, baseName, baseDirVariable));
    }

    /** CreateTargetSlnFilename: a name under the default directory, after the first project or "Project". */
    method CreateTargetSlnFilename(inetRoot: string, baseDirVariable: Option<string>)
      modifies this`slnFile
      ensures slnFile == if old(slnFile).Some? then old(slnFile)
        else Some(CreateSlnFilename(DefaultSolutionDirectory(inetRoot),
                                    if initialProjects != [] then initialProjects[0] else "Project", baseDirVariable))
    {
      if slnFile.Some? {
        return;
      }
      var guess := "Project";
      if |initialProjects| > 0 {
        guess := initialProjects[0];
      }
      SetSlnFile(CreateSlnFilename(DefaultSolutionDirectory(inetRoot), guess, baseDirVariable));
    }

    /**
      guessDefaults: without initial projects, the current directory (with
      /recurse) or its project files; then a solution file when none is set.
    */
    method GuessDefaults(projectFilesInCurrentDirectory: seq<string>, inetRoot: string, baseDirVariable: Option<string>)
      modifies this`initialProjects, this`slnFile
      ensures initialProjects == if old(initialProjects) != [] then old(initialProjects)
        else if Recurse() then [currentDirectory] else projectFilesInCurrentDirectory
      ensures old(slnFile).Some? ==> slnFile == old(slnFile)
      ensures old(slnFile).None? && !UseCurrentDirectory() ==>
        slnFile == Some(CreateSlnFilename(DefaultSolutionDirectory(inetRoot),
                                          if initialProjects != [] then initialProjects[0] else "Project", baseDirVariable))
      ensures old(slnFile).None? && UseCurrentDirectory() ==>
        slnFile == if |initialProjects| == 1 then Some(CreateSlnFilename(currentDirectory, initialProjects[0], baseDirVariable))
                   else None
    {
      if |initialProjects| == 0 {
        if Recurse() {
          initialProjects := initialProjects + [currentDirectory];
        } else {
          initialProjects := initialProjects + projectFilesInCurrentDirectory;
        }
      }
      if slnFile.None? {
        if !UseCurrentDirectory() {
          CreateTargetSlnFilename(inetRoot, baseDirVariable);
        } else if |initialProjects| == 1 {
          SetSlnFileByName(initialProjects[0], baseDirVariable);
        }
      }
    }
  }

  /** The Config constructor fails only where Path.Combine receives the null directory of a root path. */
  datatype ConfigError = OutputFileIsRoot(outputFile: string)

  /** The solution file /outputFile names: CreateSlnFilename in the output file's own directory. */
  function SlnFileFromOutput(outputFile: Option<string>, baseDirVariable: Option<string>): Result<Option<string>, ConfigError> {
    if outputFile.None? then Ok(None)
    else match DirectoryName(outputFile.value)
      case None => Err(OutputFileIsRoot(outputFile.value))
      case Some(dir) => Ok(Some(CreateSlnFilename(dir, outputFile.value, baseDirVariable)))
  }

  /**
    The Config constructor after the arguments are parsed: verbosity, the
    solution file from /outputFile, the status, the initial projects, and the
    /error selectors applied to the sink in order.
  */
  method NewConfig(values: map<string, Value>, usageFailed: bool, currentDirectory: string,
                   baseDirVariable: Option<string>, sink: SlnErrors.ErrorSink)
    returns (r: Result<Config, ConfigError>)
    modifies sink
    ensures r.Err? <==> SlnFileFromOutput(StringArg(values, "outputFile"), baseDirVariable).Err?
    ensures r.Ok? ==> (fresh(r.value) && r.value.values == values
      && r.value.verbosity == VerbosityOf(Delta(BoolListArg(values, "verbose")) - Delta(BoolListArg(values, "quiet")))
      && r.value.status == (if usageFailed then BadOrMissingArgumentError else OK)
      && r.value.initialProjects == StringListArg(values, "files")
      && r.value.currentDirectory == currentDirectory
      && r.value.slnFile == SlnFileFromOutput(StringArg(values, "outputFile"), baseDirVariable).value)
    ensures r.Ok? ==> (sink.enabled == EnabledAfter(old(sink.enabled), sink.translate, StringListArg(values, "error"))
      && sink.translate == old(sink.translate) && sink.errors == old(sink.errors))
    ensures r.Err? ==> (sink.enabled == old(sink.enabled) && sink.translate == old(sink.translate)
      && sink.errors == old(sink.errors))
  {
    var tally := TallyVerbosity(BoolListArg(values, "verbose"), BoolListArg(values, "quiet"));
    var fromOutput := SlnFileFromOutput(StringArg(values, "outputFile"), baseDirVariable);
    if fromOutput.Err? {
      return Err(fromOutput.error);
    }
    var status := if usageFailed then BadOrMissingArgumentError else OK;
    ApplySelectors(sink, StringListArg(values, "error"));
    var config := new Config.Make(values, usageFailed, currentDirectory, status, VerbosityOf(tally),
                                  fromOutput.value, StringListArg(values, "files"));
    return Ok(config);
  }

  /** The constructor's loop handing every /error selector to ChangeEnabled. */
  method ApplySelectors(sink: SlnErrors.ErrorSink, errors: seq<string>)
    modifies sink
    ensures sink.enabled == EnabledAfter(old(sink.enabled), sink.translate, errors)
    ensures sink.translate == old(sink.translate) && sink.errors == old(sink.errors)
  {
    var i := 0;
    while i < |errors|
      invariant 0 <= i <= |errors|
      invariant sink.enabled == EnabledAfter(old(sink.enabled), sink.translate, errors[..i])
      invariant sink.translate == old(sink.translate) && sink.errors == old(sink.errors)
    {
      var _ := sink.ChangeEnabled(errors[i]);
      assert errors[..i + 1] == errors[..i] + [errors[i]];
      EnabledAfterStep(old(sink.enabled), sink.translate, errors[..i], errors[i]);
      i := i + 1;
    }
    assert errors[..i] == errors;
  }

  /** The enabled set after each selector in turn; unknown names change nothing. */
  function EnabledAfter(enabled: set<SlnErrors.ErrorId>, translate: map<string, SlnErrors.ErrorId>, names: seq<string>)
    : set<SlnErrors.ErrorId>
    decreases |names|
  {
    if names == [] then enabled
    else EnabledAfter(SlnErrors.ChangedEnabled(enabled, translate, names[0]).GetOr(enabled), translate, names[1..])
  }

  lemma {:induction false} EnabledAfterStep(enabled: set<SlnErrors.ErrorId>, translate: map<string, SlnErrors.ErrorId>,
                                            names: seq<string>, name: string)
    decreases |names|
    ensures EnabledAfter(enabled, translate, names + [name])
      == SlnErrors.ChangedEnabled(EnabledAfter(enabled, translate, names), translate, name).GetOr(EnabledAfter(enabled, translate, names))
  {
    if names != [] {
      assert (names + [name])[1..] == names[1..] + [name];
      EnabledAfterStep(SlnErrors.ChangedEnabled(enabled, translate, names[0]).GetOr(enabled), translate, names[1..], name);
    } else {
      assert [name][1..] == [];
    }
  }
}
