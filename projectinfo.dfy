/**
  ProjectInfo (slngen/ProjectInfo.cs): one project file of the closure. Its
  constructor resolves the path, checks that the file exists and loads, and
  then validates the evaluated project (compile items, GUID, version,
  assembly name), reporting what it finds to the diagnostic sink.

  The records live in the closure's arena; after construction only
  `processed` ever changes, and that is done by the closure's reference walk.
*/
module ProjectInfos {
  import opened Wrappers
  import opened Text
  import opened Guids
  import opened VSPaths
  import opened SlnErrors
  import opened Environment

  /** _badGuid, {9501A45E-ACCA-4B96-84E0-8A12E20D88CA}. */
  const BadGuid: Guid := [9, 5, 0, 1, 10, 4, 5, 14, 10, 12, 12, 10, 4, 11, 9, 6,
                          8, 4, 14, 0, 8, 10, 1, 2, 14, 2, 0, 13, 8, 8, 12, 10]

  /** The version prefix the build requires of ProductVersion. */
  const RequiredVersionPrefix: string := "10."

  /**
    A project record. `project` is None when the file was missing or did not
    load; realGuid stays Guid.Empty then.
  */
  datatype ProjectInfo = ProjectInfo(
    path: VSPath,
    project: Option<EvaluatedProject>,
    valid: bool,
    compilable: bool,
    realGuid: Guid,
    processed: bool)
  {
    /** The guid property: the "B" rendering in upper case. */
    function GuidText(): string {
      Upper(FormatB(realGuid))
    }

    /** ToString of the record's path, the source every diagnostic cites. */
    function Source(): string {
      LowerFullName(path)
    }
  }

  /** The item types that make a project compilable, after ToUpperInvariant. */
  predicate IsCompileType(itemType: string) {
    var t := Upper(itemType);
    t == "COMPILE" || t == "CLCOMPILE" || t == "MCOMPILE"
  }

  /** Items.Any(item => IsCompileType(item.ItemType)). */
  function HasCompileItem(items: seq<ProjectItem>): (r: bool)
    ensures r <==> exists k :: 0 <= k < |items| && IsCompileType(items[k].itemType)
  {
    if items == [] then false
    else if IsCompileType(items[0].itemType) then true
    else
      var r := HasCompileItem(items[1..]);
      assert forall k :: 1 <= k < |items| ==> items[k] == items[1..][k - 1];
      r
  }

  /** The detail lines of a MissingOrBadGuid report for an unparsable ProjectGuid value. */
  function GuidMessage(declared: string): (r: seq<string>)
    ensures declared == "" <==> r == ["Missing Guid"]
    ensures declared != "" ==> r == ["Malformed Guid", declared]
  {
    if declared == "" then ["Missing Guid"] else ["Malformed Guid", declared]
  }

  /** The detail line of a MismatchedAssemblyName report. */
  function MismatchDetail(assemblyName: string): seq<string> {
    ["Assembly name is: " + assemblyName]
  }

  /** The detail lines of the report for the sentinel GUID, which cite it in lower case. */
  function BadGuidDetail(): seq<string> {
    ["Bad GUID", FormatB(BadGuid)]
  }

  /** Whether ProductVersion fails the version check: present but not a 10.x version. */
  predicate IsBadVersion(version: string) {
    version != "" && !StartsWith(version, RequiredVersionPrefix)
  }

  /** The report of an unparsable ProjectGuid, for compilable projects only. */
  function UnparsableChecks(source: string, declared: string, parsed: Option<Guid>, compilable: bool)
    : seq<Diagnostic>
  {
    if parsed.None? && compilable then [Diagnostic(MissingOrBadGuid, source, Some(GuidMessage(declared)))] else []
  }

  /** The report of the sentinel GUID, for compilable projects only. */
  function SentinelChecks(source: string, guid: Guid, compilable: bool): seq<Diagnostic> {
    if guid == BadGuid && compilable then [Diagnostic(MissingOrBadGuid, source, Some(BadGuidDetail()))] else []
  }

  /** The GUID checks: an unparsable ProjectGuid, then the sentinel GUID. */
  function GuidChecks(source: string, declared: string, parsed: Option<Guid>, guid: Guid, compilable: bool)
    : seq<Diagnostic>
  {
    UnparsableChecks(source, declared, parsed, compilable) + SentinelChecks(source, guid, compilable)
  }

  /** The version check, for compilable projects only. */
  function VersionChecks(source: string, version: string, compilable: bool): seq<Diagnostic> {
    if !compilable then []
    else if version == "" then [Diagnostic(MissingVersion, source, None)]
    else if IsBadVersion(version) then [Diagnostic(BadVersion, source, Some([version]))]
    else []
  }

  /** The assembly-name checks: missing (compilable only), then mismatched (always). */
  function NameChecks(source: string, assemblyName: string, projectName: string, compilable: bool)
    : seq<Diagnostic>
  {
    (if compilable && assemblyName == "" then [Diagnostic(MissingAssemblyName, source, None)] else [])
    + (if assemblyName != "" && Lower(assemblyName) != Lower(projectName) then
         [Diagnostic(MismatchedAssemblyName, source, Some(MismatchDetail(assemblyName)))]
       else [])
  }

  /** What the constructor decides: the record, the reports it makes, and whether it drew a new GUID. */
  datatype Validation = Validation(info: ProjectInfo, reports: seq<Diagnostic>, drewGuid: bool)

  /**
    The checks the constructor makes on a loaded project, given the GUID that
    Guid.NewGuid() would return.
  */
  function Checks(path: VSPath, p: EvaluatedProject, parseGuid: string -> Option<Guid>, newGuid: Guid)
    : (v: Validation)
  {
    var source := LowerFullName(path);
    var compilable := HasCompileItem(p.items);
    var declared := PropertyValue(p, "ProjectGuid");
    var parsed := parseGuid(declared);
    var guid := if parsed.Some? then parsed.value else newGuid;
    var version := PropertyValue(p, "ProductVersion");
    Validation(
      ProjectInfo(path, Some(p), !(compilable && IsBadVersion(version)), compilable, guid, false),
      GuidChecks(source, declared, parsed, guid, compilable)
        + VersionChecks(source, version, compilable)
        + NameChecks(source, PropertyValue(p, "AssemblyName"), path.projectName, compilable),
      parsed.None?)
  }

  /**
    The ProjectInfo constructor as a whole: resolve the path, stop with
    MissingFile or LoadFailed, otherwise make the checks.
  */
  function Validate(pathname: string, world: World, newGuid: Guid): (v: Validation)
    ensures v.info.path == GetFromFile(world.FullPathOrNull(pathname))
    ensures !v.info.processed
  {
    var path := GetFromFile(world.FullPathOrNull(pathname));
    var source := LowerFullName(path);
    if path.fullName !in world.files then
      Validation(ProjectInfo(path, None, false, false, EmptyGuid, false),
                 [Diagnostic(MissingFile, source, None)], false)
    else
      match world.evaluate(path.fullName)
      case Err(message) =>
        Validation(ProjectInfo(path, None, false, false, EmptyGuid, false),
                   [Diagnostic(LoadFailed, source, Some([message]))], false)
      case Ok(p) => Checks(path, p, world.parseGuid, newGuid)
  }

  // ---------------------------------------------------------------------
  // What the validation promises
  // ---------------------------------------------------------------------

  /** A missing file: one MissingFile report; the record is invalid, unevaluated, with the empty GUID. */
  lemma MissingFileRecord(pathname: string, world: World, newGuid: Guid)
    requires GetFromFile(world.FullPathOrNull(pathname)).fullName !in world.files
    ensures var v := Validate(pathname, world, newGuid);
      && v.reports == [Diagnostic(MissingFile, v.info.Source(), None)]
      && !v.info.valid && v.info.project.None? && v.info.realGuid == EmptyGuid && !v.drewGuid
  {
  }

  /** A load failure: one LoadFailed report carrying the message; the record is invalid. */
  lemma LoadFailedRecord(pathname: string, world: World, newGuid: Guid)
    requires GetFromFile(world.FullPathOrNull(pathname)).fullName in world.files
    requires world.evaluate(GetFromFile(world.FullPathOrNull(pathname)).fullName).Err?
    ensures var v := Validate(pathname, world, newGuid);
      var message := world.evaluate(v.info.path.fullName).error;
      && v.reports == [Diagnostic(LoadFailed, v.info.Source(), Some([message]))]
      && !v.info.valid && v.info.project.None? && v.info.realGuid == EmptyGuid
  {
  }

  /** The number of reports of one category. */
  function CountOf(ds: seq<Diagnostic>, id: ErrorId): nat {
    if ds == [] then 0 else (if ds[0].id == id then 1 else 0) + CountOf(ds[1..], id)
  }

  lemma {:induction false} CountOfAppend(a: seq<Diagnostic>, b: seq<Diagnostic>, id: ErrorId)
    ensures CountOf(a + b, id) == CountOf(a, id) + CountOf(b, id)
  {
    if a == [] {
      assert a + b == b;
    } else {
      assert (a + b)[0] == a[0];
      assert (a + b)[1..] == a[1..] + b;
      CountOfAppend(a[1..], b, id);
    }
  }

  /**
    On a loaded project: compilable exactly when some item is a compile item;
    valid unless compilable with a bad version; a parsable ProjectGuid is kept
    and no GUID is drawn, otherwise the new one is used.
  */
  lemma LoadedRecord(path: VSPath, p: EvaluatedProject, parseGuid: string -> Option<Guid>, newGuid: Guid)
    ensures var v := Checks(path, p, parseGuid, newGuid);
      var declared := PropertyValue(p, "ProjectGuid");
      && (v.info.compilable <==> exists k :: 0 <= k < |p.items| && IsCompileType(p.items[k].itemType))
      && (v.info.valid <==> !(v.info.compilable && IsBadVersion(PropertyValue(p, "ProductVersion"))))
      && (parseGuid(declared).Some? ==> v.info.realGuid == parseGuid(declared).value && !v.drewGuid)
      && (parseGuid(declared).None? ==> v.info.realGuid == newGuid && v.drewGuid)
      && v.info.project == Some(p) && v.info.path == path
  {
  }

  /**
    The GUID reports: a GUID is drawn exactly when the declared one does not
    parse; a drawn GUID is reported (with the missing or malformed detail)
    exactly when the project is compilable, and the sentinel GUID, which is
    kept, once more when compilable, right after it. No other check reports
    MissingOrBadGuid.
  */
  lemma GuidReports(path: VSPath, p: EvaluatedProject, parseGuid: string -> Option<Guid>, newGuid: Guid)
    ensures var v := Checks(path, p, parseGuid, newGuid);
      var declared := PropertyValue(p, "ProjectGuid");
      && CountOf(v.reports, MissingOrBadGuid) ==
           (if v.drewGuid && v.info.compilable then 1 else 0)
           + (if v.info.realGuid == BadGuid && v.info.compilable then 1 else 0)
      && (v.drewGuid <==> parseGuid(declared).None?)
      && v.info.realGuid == (if v.drewGuid then newGuid else parseGuid(declared).value)
      && (v.drewGuid && v.info.compilable ==>
            v.reports[0] == Diagnostic(MissingOrBadGuid, v.info.Source(), Some(GuidMessage(declared))))
      && (v.info.realGuid == BadGuid && v.info.compilable ==>
            var k := if v.drewGuid then 1 else 0;
            k < |v.reports| && v.reports[k] == Diagnostic(MissingOrBadGuid, v.info.Source(), Some(BadGuidDetail())))
  {
    var v := Checks(path, p, parseGuid, newGuid);
    var source := LowerFullName(path);
    var c := v.info.compilable;
    var declared := PropertyValue(p, "ProjectGuid");
    var g := GuidChecks(source, declared, parseGuid(declared), v.info.realGuid, c);
    var ver := VersionChecks(source, PropertyValue(p, "ProductVersion"), c);
    var n := NameChecks(source, PropertyValue(p, "AssemblyName"), path.projectName, c);
    assert v.reports == g + ver + n;
    CountOfThree(g, ver, n, MissingOrBadGuid);
    GuidChecksCount(source, declared, parseGuid(declared), v.info.realGuid, c);
    OtherChecksNoGuid(source, PropertyValue(p, "ProductVersion"), PropertyValue(p, "AssemblyName"), path.projectName, c);
  }

  /** Counting over three report lists in a row, and the first report of the row. */
  lemma CountOfThree(a: seq<Diagnostic>, b: seq<Diagnostic>, c: seq<Diagnostic>, id: ErrorId)
    ensures CountOf(a + b + c, id) == CountOf(a, id) + CountOf(b, id) + CountOf(c, id)
    ensures a != [] ==> (a + b + c)[0] == a[0]
  {
    CountOfAppend(a + b, c, id);
    CountOfAppend(a, b, id);
  }

  /** The version and assembly-name checks never report MissingOrBadGuid. */
  lemma OtherChecksNoGuid(source: string, version: string, assemblyName: string, projectName: string, compilable: bool)
    ensures CountOf(VersionChecks(source, version, compilable), MissingOrBadGuid) == 0
    ensures CountOf(NameChecks(source, assemblyName, projectName, compilable), MissingOrBadGuid) == 0
  {
    var a := if compilable && assemblyName == "" then [Diagnostic(MissingAssemblyName, source, None)] else [];
    var b := if assemblyName != "" && Lower(assemblyName) != Lower(projectName) then
               [Diagnostic(MismatchedAssemblyName, source, Some(MismatchDetail(assemblyName)))]
             else [];
    CountOfAppend(a, b, MissingOrBadGuid);
  }

  lemma GuidChecksCount(source: string, declared: string, parsed: Option<Guid>, guid: Guid, compilable: bool)
    ensures CountOf(GuidChecks(source, declared, parsed, guid, compilable), MissingOrBadGuid) ==
      (if parsed.None? && compilable then 1 else 0) + (if guid == BadGuid && compilable then 1 else 0)
  {
    var a := if parsed.None? && compilable then [Diagnostic(MissingOrBadGuid, source, Some(GuidMessage(declared)))] else [];
    var b := if guid == BadGuid && compilable then [Diagnostic(MissingOrBadGuid, source, Some(BadGuidDetail()))] else [];
    CountOfAppend(a, b, MissingOrBadGuid);
  }

  lemma CountOfSingle(d: Diagnostic, id: ErrorId)
    ensures CountOf([d], id) == if d.id == id then 1 else 0
  {
    assert [d][1..] == [];
  }

  /** Only the GUID checks report MissingOrBadGuid; the other checks add up. */
  lemma OtherReportsCount(path: VSPath, p: EvaluatedProject, parseGuid: string -> Option<Guid>, newGuid: Guid,
                          id: ErrorId)
    requires id != MissingOrBadGuid
    ensures var v := Checks(path, p, parseGuid, newGuid);
      var c := v.info.compilable;
      CountOf(v.reports, id) ==
        CountOf(VersionChecks(v.info.Source(), PropertyValue(p, "ProductVersion"), c), id)
        + CountOf(NameChecks(v.info.Source(), PropertyValue(p, "AssemblyName"), path.projectName, c), id)
  {
    var v := Checks(path, p, parseGuid, newGuid);
    var source := LowerFullName(path);
    var c := v.info.compilable;
    var declared := PropertyValue(p, "ProjectGuid");
    var u := UnparsableChecks(source, declared, parseGuid(declared), c);
    var s := SentinelChecks(source, v.info.realGuid, c);
    var ver := VersionChecks(source, PropertyValue(p, "ProductVersion"), c);
    var n := NameChecks(source, PropertyValue(p, "AssemblyName"), path.projectName, c);
    assert v.reports == (u + s) + ver + n;
    CountOfAppend((u + s) + ver, n, id);
    CountOfAppend(u + s, ver, id);
    CountOfAppend(u, s, id);
    if u != [] { CountOfSingle(u[0], id); assert u == [u[0]]; }
    if s != [] { CountOfSingle(s[0], id); assert s == [s[0]]; }
  }

  lemma VersionChecksCount(source: string, version: string, compilable: bool, id: ErrorId)
    ensures CountOf(VersionChecks(source, version, compilable), id) ==
      (if id == MissingVersion && compilable && version == "" then 1 else 0)
      + (if id == BadVersion && compilable && IsBadVersion(version) then 1 else 0)
  {
    var ver := VersionChecks(source, version, compilable);
    if ver != [] { CountOfSingle(ver[0], id); assert ver == [ver[0]]; }
  }

  lemma NameChecksCount(source: string, name: string, projectName: string, compilable: bool, id: ErrorId)
    ensures CountOf(NameChecks(source, name, projectName, compilable), id) ==
      (if id == MissingAssemblyName && compilable && name == "" then 1 else 0)
      + (if id == MismatchedAssemblyName && name != "" && Lower(name) != Lower(projectName) then 1 else 0)
  {
    var missing := if compilable && name == "" then [Diagnostic(MissingAssemblyName, source, None)] else [];
    var mismatch :=
      if name != "" && Lower(name) != Lower(projectName) then
        [Diagnostic(MismatchedAssemblyName, source, Some(MismatchDetail(name)))]
      else [];
    CountOfAppend(missing, mismatch, id);
    if missing != [] { CountOfSingle(missing[0], id); }
    if mismatch != [] { CountOfSingle(mismatch[0], id); }
  }

  /**
    The version and assembly-name reports: MissingVersion and BadVersion only
    for compilable projects, MissingAssemblyName for a compilable project
    without a name, MismatchedAssemblyName whenever a name is given that is
    not the file's base name, compilable or not.
  */
  lemma VersionAndNameReports(path: VSPath, p: EvaluatedProject, parseGuid: string -> Option<Guid>, newGuid: Guid)
    ensures var v := Checks(path, p, parseGuid, newGuid);
      var version := PropertyValue(p, "ProductVersion");
      var name := PropertyValue(p, "AssemblyName");
      && CountOf(v.reports, MissingVersion) == (if v.info.compilable && version == "" then 1 else 0)
      && CountOf(v.reports, BadVersion) == (if v.info.compilable && IsBadVersion(version) then 1 else 0)
      && CountOf(v.reports, MissingAssemblyName) == (if v.info.compilable && name == "" then 1 else 0)
      && CountOf(v.reports, MismatchedAssemblyName) ==
           (if name != "" && Lower(name) != Lower(path.projectName) then 1 else 0)
  {
    var v := Checks(path, p, parseGuid, newGuid);
    var source := LowerFullName(path);
    var c := v.info.compilable;
    var version := PropertyValue(p, "ProductVersion");
    var name := PropertyValue(p, "AssemblyName");
    forall id | id in {MissingVersion, BadVersion, MissingAssemblyName, MismatchedAssemblyName}
      ensures CountOf(v.reports, id) ==
        (if id == MissingVersion && c && version == "" then 1 else 0)
        + (if id == BadVersion && c && IsBadVersion(version) then 1 else 0)
        + (if id == MissingAssemblyName && c && name == "" then 1 else 0)
        + (if id == MismatchedAssemblyName && name != "" && Lower(name) != Lower(path.projectName) then 1 else 0)
    {
      OtherReportsCount(path, p, parseGuid, newGuid, id);
      VersionChecksCount(source, version, c, id);
      NameChecksCount(source, name, path.projectName, c, id);
    }
  }

  /** A project without compile items is never checked for GUID, version or a missing name. */
  lemma NonCompilableQuiet(path: VSPath, p: EvaluatedProject, parseGuid: string -> Option<Guid>, newGuid: Guid)
    requires forall k :: 0 <= k < |p.items| ==> !IsCompileType(p.items[k].itemType)
    ensures var v := Checks(path, p, parseGuid, newGuid);
      && v.info.valid
      && forall k :: 0 <= k < |v.reports| ==> v.reports[k].id == MismatchedAssemblyName
  {
  }

  // ---------------------------------------------------------------------
  // The constructor, step by step
  // ---------------------------------------------------------------------

  /**
    The ProjectInfo constructor: each check in the source's order, reporting
    to the sink as it goes. A new GUID is drawn only when ProjectGuid does not
    parse.
  */
  method NewProjectInfo(pathname: string, world: World, sink: ErrorSink, guids: GuidSource)
    returns (info: ProjectInfo)
    modifies sink`errors, guids`issued
    ensures var v := Validate(pathname, world, guids.generate(old(guids.issued)));
      && info == v.info
      && sink.errors == old(sink.errors) + Kept(old(sink.enabled), v.reports)
      && guids.issued == old(guids.issued) + (if v.drewGuid then 1 else 0)
  {
    var path := GetFromFile(world.FullPathOrNull(pathname));
    var source := LowerFullName(path);
    if path.fullName !in world.files {
      sink.ReportError(MissingFile, source);
      ghost var missing := Diagnostic(MissingFile, source, None);
      KeptSnoc(sink.enabled, [], missing);
      return ProjectInfo(path, None, false, false, EmptyGuid, false);
    }
    var loaded := world.evaluate(path.fullName);
    if loaded.Err? {
      sink.ReportErrorWithInfo(LoadFailed, source, loaded.error);
      ghost var failed := Diagnostic(LoadFailed, source, Some([loaded.error]));
      KeptSnoc(sink.enabled, [], failed);
      return ProjectInfo(path, None, false, false, EmptyGuid, false);
    }
    info := CheckLoaded(path, loaded.value, world.parseGuid, sink, guids);
  }

  /** The checks on a loaded project, in the source's order. */
  method CheckLoaded(path: VSPath, p: EvaluatedProject, parseGuid: string -> Option<Guid>,
                     sink: ErrorSink, guids: GuidSource)
    returns (info: ProjectInfo)
    modifies sink`errors, guids`issued
    ensures var v := Checks(path, p, parseGuid, guids.generate(old(guids.issued)));
      && info == v.info
      && sink.errors == old(sink.errors) + Kept(old(sink.enabled), v.reports)
      && guids.issued == old(guids.issued) + (if v.drewGuid then 1 else 0)
  {
    ghost var e := sink.enabled;
    ghost var start := sink.errors;
    ghost var newGuid := guids.generate(guids.issued);
    var source := LowerFullName(path);
    var compilable := HasCompileItem(p.items);
    var declared := PropertyValue(p, "ProjectGuid");
    var guid := ResolveGuid(source, declared, parseGuid(declared), compilable, sink, guids);
    ghost var g := GuidChecks(source, declared, parseGuid(declared), guid, compilable);
    ghost var afterGuid := sink.errors;
    var valid := CheckVersion(source, p, compilable, sink);
    ghost var ver := VersionChecks(source, PropertyValue(p, "ProductVersion"), compilable);
    ghost var afterVersion := sink.errors;
    CheckAssemblyName(source, p, path.projectName, compilable, sink);
    ghost var n := NameChecks(source, PropertyValue(p, "AssemblyName"), path.projectName, compilable);
    info := ProjectInfo(path, Some(p), valid, compilable, guid, false);
    ghost var v := Checks(path, p, parseGuid, newGuid);
    assert v.info == info;
    assert v.reports == g + ver + n;
    ghost var kg, kv, kn := Kept(e, g), Kept(e, ver), Kept(e, n);
    assert afterGuid == start + kg;
    assert afterVersion == afterGuid + kv;
    assert sink.errors == afterVersion + kn;
    KeptAppend(e, g + ver, n);
    KeptAppend(e, g, ver);
    assert Kept(e, v.reports) == kg + kv + kn;
    AppendFour(start, kg, kv, kn);
  }

  lemma AppendFour(a: seq<Diagnostic>, b: seq<Diagnostic>, c: seq<Diagnostic>, d: seq<Diagnostic>)
    ensures ((a + b) + c) + d == a + ((b + c) + d)
  {
  }

  /**
    The GUID part of the constructor: keep the parsed ProjectGuid or draw a
    new GUID, and report.
  */
  method ResolveGuid(source: string, declared: string, parsed: Option<Guid>, compilable: bool,
                     sink: ErrorSink, guids: GuidSource)
    returns (guid: Guid)
    modifies sink`errors, guids`issued
    ensures guid == (if parsed.Some? then parsed.value else guids.generate(old(guids.issued)))
    ensures guids.issued == old(guids.issued) + (if parsed.None? then 1 else 0)
    ensures sink.errors == old(sink.errors) + Kept(old(sink.enabled), GuidChecks(source, declared, parsed, guid, compilable))
  {
    ghost var e := sink.enabled;
    ghost var start := sink.errors;
    guid := KeepOrDrawGuid(source, declared, parsed, compilable, sink, guids);
    ghost var middle := sink.errors;
    CheckSentinel(source, guid, compilable, sink);
    KeptAppend(e, UnparsableChecks(source, declared, parsed, compilable), SentinelChecks(source, guid, compilable));
    AppendInTwoSteps(start, Kept(e, UnparsableChecks(source, declared, parsed, compilable)),
                     Kept(e, SentinelChecks(source, guid, compilable)), middle, sink.errors);
  }

  /** Keep the parsed ProjectGuid, or draw a new GUID and report the unparsable one. */
  method KeepOrDrawGuid(source: string, declared: string, parsed: Option<Guid>, compilable: bool,
                        sink: ErrorSink, guids: GuidSource)
    returns (guid: Guid)
    modifies sink`errors, guids`issued
    ensures guid == (if parsed.Some? then parsed.value else guids.generate(old(guids.issued)))
    ensures guids.issued == old(guids.issued) + (if parsed.None? then 1 else 0)
    ensures sink.errors == old(sink.errors) + Kept(old(sink.enabled), UnparsableChecks(source, declared, parsed, compilable))
  {
    if parsed.Some? {
      guid := parsed.value;
    } else {
      guid := guids.NewGuid();
      if compilable {
        sink.ReportErrorWithLines(MissingOrBadGuid, source, Some(GuidMessage(declared)));
        KeptSnoc(sink.enabled, [], Diagnostic(MissingOrBadGuid, source, Some(GuidMessage(declared))));
      }
    }
  }

  /** The report of the sentinel GUID, for compilable projects. */
  method CheckSentinel(source: string, guid: Guid, compilable: bool, sink: ErrorSink)
    modifies sink`errors
    ensures sink.errors == old(sink.errors) + Kept(old(sink.enabled), SentinelChecks(source, guid, compilable))
  {
    if guid == BadGuid && compilable {
      sink.ReportErrorWithLines(MissingOrBadGuid, source, Some(BadGuidDetail()));
      ghost var sentinel := Diagnostic(MissingOrBadGuid, source, Some(BadGuidDetail()));
      KeptSnoc(sink.enabled, [], sentinel);
    }
  }

  /** The version part of the constructor: returns whether the record stays valid. */
  method CheckVersion(source: string, p: EvaluatedProject, compilable: bool, sink: ErrorSink)
    returns (valid: bool)
    modifies sink`errors
    ensures var version := PropertyValue(p, "ProductVersion");
      && valid == !(compilable && IsBadVersion(version))
      && sink.errors == old(sink.errors) + Kept(old(sink.enabled), VersionChecks(source, version, compilable))
  {
    valid := true;
    var version := PropertyValue(p, "ProductVersion");
    ghost var missing := Diagnostic(MissingVersion, source, None);
    ghost var bad := Diagnostic(BadVersion, source, Some([version]));
    if !compilable {
      // no version reports for a project without compile items
    } else if version == "" {
      sink.ReportError(MissingVersion, source);
      KeptSnoc(sink.enabled, [], missing);
    } else if !StartsWith(version, RequiredVersionPrefix) {
      sink.ReportErrorWithInfo(BadVersion, source, version);
      KeptSnoc(sink.enabled, [], bad);
      valid := false;
    }
  }

  /** The assembly-name part of the constructor. */
  method CheckAssemblyName(source: string, p: EvaluatedProject, projectName: string, compilable: bool, sink: ErrorSink)
    modifies sink`errors
    ensures sink.errors == old(sink.errors)
      + Kept(old(sink.enabled), NameChecks(source, PropertyValue(p, "AssemblyName"), projectName, compilable))
  {
    var assemblyName := PropertyValue(p, "AssemblyName");
    ghost var missing := Diagnostic(MissingAssemblyName, source, None);
    ghost var mismatch := Diagnostic(MismatchedAssemblyName, source, Some(MismatchDetail(assemblyName)));
    ghost var reported: seq<Diagnostic> := [];
    if compilable && assemblyName == "" {
      sink.ReportError(MissingAssemblyName, source);
      KeptSnoc(sink.enabled, reported, missing);
      reported := reported + [missing];
    }
    if assemblyName != "" && Lower(assemblyName) != Lower(projectName) {
      sink.ReportErrorWithLines(MismatchedAssemblyName, source, Some(MismatchDetail(assemblyName)));
      KeptSnoc(sink.enabled, reported, mismatch);
      reported := reported + [mismatch];
    }
    assert reported == NameChecks(source, assemblyName, projectName, compilable);
  }

  // ---------------------------------------------------------------------
  // The two checks as the source writes them
  // ---------------------------------------------------------------------

  /**
    The source reads ProjectGuid and AssemblyName with GetPropertyValue and
    then tests them against null; GetPropertyValue never returns null, so
    the value the tests see is always present.
  */
  function PropertyAsRead(p: EvaluatedProject, name: string): (r: Option<string>)
    ensures r == Some(PropertyValue(p, name))
  {
    Some(PropertyValue(p, name))
  }

  /** The detail lines exactly as written: "Missing Guid" only for a null value. */
  function GuidMessageAsWritten(declared: Option<string>): seq<string> {
    if declared.None? then ["Missing Guid"] else ["Malformed Guid", declared.value]
  }

  /** The MissingAssemblyName test exactly as written: compilable and a null name. */
  predicate MissingAssemblyNameAsWritten(compilable: bool, assemblyName: Option<string>) {
    compilable && assemblyName.None?
  }

  /**
    As written, a compilable project with no ProjectGuid and no AssemblyName
    at all is told its GUID is "Malformed" (with an empty value) and is never
    told that its assembly name is missing; the corrected checks say both.
  */
  lemma AbsentPropertiesAsWritten(p: EvaluatedProject)
    requires Lower("ProjectGuid") !in p.properties && Lower("AssemblyName") !in p.properties
    requires HasCompileItem(p.items)
    ensures GuidMessageAsWritten(PropertyAsRead(p, "ProjectGuid")) == ["Malformed Guid", ""]
    ensures !MissingAssemblyNameAsWritten(HasCompileItem(p.items), PropertyAsRead(p, "AssemblyName"))
    ensures GuidMessage(PropertyValue(p, "ProjectGuid")) == ["Missing Guid"]
    ensures var v := Checks(VSPaths.EmptyPath, p, _ => None, EmptyGuid);
      CountOf(v.reports, MissingAssemblyName) == 1
  {
    VersionAndNameReports(VSPaths.EmptyPath, p, _ => None, EmptyGuid);
  }
}
