/**
  ProjectClosure (slngen/ProjectClosure.cs, with ProjectInfo.FindAllReferences
  from slngen/ProjectInfo.cs): the walk that starts from the projects and
  directories named on the command line, follows project references, and
  collects the projects, solution items and diagnostics a solution is made of.

  The ProjectInfo objects the source shares between its dictionaries live in
  the arena `records`; the dictionaries map to indices into it, so two
  dictionaries that hold the same object hold the same index.
*/
module Closure {
  import opened Wrappers
  import opened Text
  import opened PathLib
  import opened Guids
  import opened VSPaths
  import opened SlnErrors
  import opened Nesting
  import opened Configs
  import opened Environment
  import opened ProjectInfos
  import opened SlnText
  import MProj

  // ---------------------------------------------------------------------
  // File types and the entries a path contributes
  // ---------------------------------------------------------------------

  datatype FileType = Bad | File | Directory

  /**
    GetFileType: unreadable paths (GetAttributes throws) and system, hidden
    or offline entries are Bad; otherwise a directory or a file.
  */
  function GetFileType(world: World, pathname: string): FileType {
    match world.attributes(pathname)
    case None => Bad
    case Some(a) =>
      if System in a || Hidden in a || Offline in a then Bad
      else if FileAttribute.Directory in a then FileType.Directory
      else File
  }

  /** The extra line of the MissingFile report for a bad entry. */
  const BadEntryMessage: string := "Missing, system, or unreadable file encountered."

  /** What adding entries does: the paths pushed, in push order, and the reports made. */
  datatype Entries = Entries(pushed: seq<string>, reports: seq<Diagnostic>)

  const NoEntries: Entries := Entries([], [])

  function Then(a: Entries, b: Entries): Entries {
    Entries(a.pushed + b.pushed, a.reports + b.reports)
  }

  /**
    AddEntriesToParseFiles for one path: a bad entry is reported, a file is
    pushed, a directory pushes its project files and, when recursing, the
    entries of each subdirectory in turn.
  */
  function EntriesFor(world: World, pathname: string, recurse: bool): Entries
    requires world.Valid()
    decreases world.height(pathname), 1
  {
    match GetFileType(world, pathname)
    case Bad => Entries([], [Diagnostic(MissingFile, pathname, Some([BadEntryMessage]))])
    case File => Entries([pathname], [])
    case Directory() =>
      var below :=
        if recurse then EntriesUnder(world, world.subdirectories(pathname), world.height(pathname))
        else NoEntries;
      Then(Entries(world.projectFilesIn(pathname), []), below)
  }

  /** The entries of a list of subdirectories, all lower than `bound`, recursing into each. */
  function EntriesUnder(world: World, dirs: seq<string>, bound: nat): Entries
    requires world.Valid()
    requires forall c :: c in dirs ==> world.height(c) < bound
    decreases bound, 0, |dirs|
  {
    if dirs == [] then NoEntries
    else Then(EntriesUnder(world, dirs[..|dirs| - 1], bound), EntriesFor(world, dirs[|dirs| - 1], true))
  }

  /** The entries of the command line's list of paths, in order. */
  function EntriesOfAll(world: World, pathnames: seq<string>, recurse: bool): Entries
    requires world.Valid()
  {
    if pathnames == [] then NoEntries
    else Then(EntriesOfAll(world, pathnames[..|pathnames| - 1], recurse),
              EntriesFor(world, pathnames[|pathnames| - 1], recurse))
  }

  /** A file pushes itself; anything else pushes only existing files. */
  lemma {:induction false} PushedAreFiles(world: World, pathname: string, recurse: bool)
    requires world.Valid()
    ensures GetFileType(world, pathname) == File ==> EntriesFor(world, pathname, recurse).pushed == [pathname]
    ensures GetFileType(world, pathname) != File ==>
      forall x :: x in EntriesFor(world, pathname, recurse).pushed ==> x in world.files
    decreases world.height(pathname), 1
  {
    if GetFileType(world, pathname) == FileType.Directory && recurse {
      PushedUnderAreFiles(world, world.subdirectories(pathname), world.height(pathname));
    }
  }

  lemma {:induction false} PushedUnderAreFiles(world: World, dirs: seq<string>, bound: nat)
    requires world.Valid()
    requires forall c :: c in dirs ==> world.height(c) < bound
    requires forall c :: c in dirs ==> GetFileType(world, c) != File
    ensures forall x :: x in EntriesUnder(world, dirs, bound).pushed ==> x in world.files
    decreases bound, 0, |dirs|
  {
    if dirs != [] {
      PushedUnderAreFiles(world, dirs[..|dirs| - 1], bound);
      PushedAreFiles(world, dirs[|dirs| - 1], true);
    }
  }

  /**
    A path that File.Exists accepts contributes itself alone, or a single
    MissingFile report when it is hidden, system or offline.
  */
  lemma ExistingFileEntries(world: World, pathname: string, recurse: bool)
    requires world.Valid() && pathname in world.files
    ensures GetFileType(world, pathname) == Bad ==>
      EntriesFor(world, pathname, recurse) == Entries([], [Diagnostic(MissingFile, pathname, Some([BadEntryMessage]))])
    ensures GetFileType(world, pathname) != Bad ==> EntriesFor(world, pathname, recurse) == Entries([pathname], [])
  {
  }

  /**
    Without recursion a directory contributes exactly its own project
    files, and reports nothing.
  */
  lemma FlatDirectoryEntries(world: World, pathname: string)
    requires world.Valid() && GetFileType(world, pathname) == FileType.Directory
    ensures EntriesFor(world, pathname, false) == Entries(world.projectFilesIn(pathname), [])
  {
  }

  // ---------------------------------------------------------------------
  // The registry: _projectInfo, _guidToProject and _nameToProject
  // ---------------------------------------------------------------------

  /** The note DuplicateProjectName carries after the earlier project's path. */
  const DuplicateNameNote: string := "(VS cannot handle duplicate project names)"

  /** The GUID strings of the records, in registration order. */
  function GuidKeys(records: seq<ProjectInfo>): (r: seq<string>)
    ensures |r| == |records|
  {
    seq(|records|, i requires 0 <= i < |records| => records[i].GuidText())
  }

  /** The lower-case project names of the records, in registration order. */
  function NameKeys(records: seq<ProjectInfo>): (r: seq<string>)
    ensures |r| == |records|
  {
    seq(|records|, i requires 0 <= i < |records| => Lower(records[i].path.projectName))
  }

  /**
    A dictionary that was assigned `index[keys[i]] = i` for each i in turn:
    it holds exactly the keys seen, each at its latest position.
  */
  ghost predicate IndexesLatest(index: map<string, nat>, keys: seq<string>) {
    && (forall g :: g in index ==> index[g] < |keys| && keys[index[g]] == g)
    && (forall i :: 0 <= i < |keys| ==> keys[i] in index && i <= index[keys[i]])
  }

  lemma IndexesLatestAdd(index: map<string, nat>, keys: seq<string>, g: string)
    requires IndexesLatest(index, keys)
    ensures IndexesLatest(index[g := |keys|], keys + [g])
  {
    var keys' := keys + [g];
    forall i | 0 <= i < |keys'|
      ensures keys'[i] in index[g := |keys|] && i <= index[g := |keys|][keys'[i]]
    {
      if i < |keys| { assert keys'[i] == keys[i]; }
    }
  }

  /** What an index that IndexesLatest says about the keys: membership, and the latest position. */
  lemma IndexesLatestMeans(index: map<string, nat>, keys: seq<string>, g: string)
    requires IndexesLatest(index, keys)
    ensures g in index <==> exists i :: 0 <= i < |keys| && keys[i] == g
    ensures g in index ==>
      && index[g] < |keys| && keys[index[g]] == g
      && forall i :: index[g] < i < |keys| ==> keys[i] != g
  {
  }

  lemma GuidKeysAdd(records: seq<ProjectInfo>, info: ProjectInfo)
    ensures GuidKeys(records + [info]) == GuidKeys(records) + [info.GuidText()]
    ensures NameKeys(records + [info]) == NameKeys(records) + [Lower(info.path.projectName)]
  {
    var r := records + [info];
    assert forall i :: 0 <= i < |records| ==> r[i] == records[i];
  }

  lemma GuidKeysMark(records: seq<ProjectInfo>, index: nat)
    requires index < |records|
    ensures var r := records[index := records[index].(processed := true)];
      GuidKeys(r) == GuidKeys(records) && NameKeys(r) == NameKeys(records)
  {
    var r := records[index := records[index].(processed := true)];
    assert r[index].GuidText() == records[index].GuidText();
    assert GuidKeys(r)[index] == GuidKeys(records)[index];
    assert forall i :: 0 <= i < |records| && i != index ==> r[i] == records[i];
  }

  /**
    The records and the three dictionaries that share them. `keyOrder` is
    the order in which _projectInfo's keys were added, which is the order
    its Keys enumerate in (nothing is ever removed).
  */
  datatype Registry = Registry(
    records: seq<ProjectInfo>,
    keyOrder: seq<PathKey>,
    projectInfo: map<PathKey, nat>,
    guidToProject: map<string, nat>,
    nameToProject: map<string, nat>)
  {
    /**
      One record per key, in key order; every record's GUID and lower-case
      project name are indexed, each pointing at the latest record that has
      it; a record is valid only if its project loaded.
    */
    ghost predicate Valid() {
      && KeysInOrder()
      && IndexesLatest(guidToProject, GuidKeys(records))
      && IndexesLatest(nameToProject, NameKeys(records))
      && RecordsLoaded()
    }

    ghost predicate KeysInOrder() {
      && |keyOrder| == |records|
      && (forall i :: 0 <= i < |keyOrder| ==> keyOrder[i] in projectInfo && projectInfo[keyOrder[i]] == i)
      && (forall k :: k in projectInfo ==> projectInfo[k] < |keyOrder| && keyOrder[projectInfo[k]] == k)
    }

    ghost predicate RecordsLoaded() {
      forall i :: 0 <= i < |records| && records[i].valid ==> records[i].project.Some?
    }

    /**
      The reports GetOrCreateProjectInfo makes when it registers a record
      whose GUID text is g and whose lower-case project name is n under a
      path whose ToString is `source`: a GUID already taken, then a name
      already taken, each citing the record that holds it now.
    */
    function DuplicateReports(source: string, g: string, n: string): seq<Diagnostic>
      requires HoldersExist(g, n)
    {
      (if g in guidToProject then
         [Diagnostic(DuplicateGuid, source, Some([records[guidToProject[g]].Source(), g]))]
       else [])
      + (if n in nameToProject then
           [Diagnostic(DuplicateProjectName, source, Some([records[nameToProject[n]].Source(), DuplicateNameNote]))]
         else [])
    }

    /** The records the indexes give for a GUID text and a name exist. */
    predicate HoldersExist(g: string, n: string) {
      && (g in guidToProject ==> guidToProject[g] < |records|)
      && (n in nameToProject ==> nameToProject[n] < |records|)
    }

    /** Registering a new record under a new key: both indexes now point at it. */
    function Add(key: PathKey, info: ProjectInfo): Registry {
      var index := |records|;
      Registry(records + [info], keyOrder + [key], projectInfo[key := index],
               guidToProject[info.GuidText() := index], nameToProject[Lower(info.path.projectName) := index])
    }

    /** The record registered under `key`, if any. */
    function Lookup(key: PathKey): (r: Option<ProjectInfo>)
      requires Valid()
    {
      if key in projectInfo then Some(records[projectInfo[key]]) else None
    }

    /** FindAllReferences's first step: the record is marked processed; nothing else changes. */
    function MarkProcessed(index: nat): Registry
      requires index < |records|
    {
      this.(records := records[index := records[index].(processed := true)])
    }
  }

  /** A new key and a loaded-or-invalid record keep the registry consistent. */
  lemma AddKeepsValid(reg: Registry, key: PathKey, info: ProjectInfo)
    requires reg.Valid() && key !in reg.projectInfo
    requires info.valid ==> info.project.Some?
    ensures reg.Add(key, info).Valid()
  {
    var r := reg.Add(key, info);
    AddKeepsKeys(reg, key, info);
    GuidKeysAdd(reg.records, info);
    IndexesLatestAdd(reg.guidToProject, GuidKeys(reg.records), info.GuidText());
    IndexesLatestAdd(reg.nameToProject, NameKeys(reg.records), Lower(info.path.projectName));
    assert r.RecordsLoaded() by {
      forall i | 0 <= i < |r.records| && r.records[i].valid
        ensures r.records[i].project.Some?
      {
        if i < |reg.records| { assert r.records[i] == reg.records[i]; }
      }
    }
  }

  lemma AddKeepsKeys(reg: Registry, key: PathKey, info: ProjectInfo)
    requires reg.KeysInOrder() && key !in reg.projectInfo
    ensures reg.Add(key, info).KeysInOrder()
  {
  }

  /**
    Registering leaves every earlier key with its record, makes the new key
    find the new record, and leaves the records already there as they were.
  */
  lemma AddKeepsLookups(reg: Registry, key: PathKey, info: ProjectInfo)
    requires reg.Valid() && key !in reg.projectInfo
    requires info.valid ==> info.project.Some?
    ensures reg.Add(key, info).Valid()
    ensures reg.Add(key, info).Lookup(key) == Some(info)
    ensures forall k :: k in reg.projectInfo ==> reg.Add(key, info).Lookup(k) == reg.Lookup(k)
    ensures reg.Add(key, info).records[..|reg.records|] == reg.records
  {
    AddKeepsValid(reg, key, info);
  }

  /**
    The GUID index holds exactly the GUIDs of the records registered so far,
    each pointing at the latest record with that GUID; likewise the name
    index, for lower-case project names.
  */
  lemma IndexesHoldEarlierRecords(reg: Registry, g: string, n: string)
    requires reg.Valid()
    ensures g in reg.guidToProject <==> exists i :: 0 <= i < |reg.records| && reg.records[i].GuidText() == g
    ensures g in reg.guidToProject ==>
      forall i :: reg.guidToProject[g] < i < |reg.records| ==> reg.records[i].GuidText() != g
    ensures n in reg.nameToProject <==>
      exists i :: 0 <= i < |reg.records| && Lower(reg.records[i].path.projectName) == n
    ensures n in reg.nameToProject ==>
      forall i :: reg.nameToProject[n] < i < |reg.records| ==> Lower(reg.records[i].path.projectName) != n
  {
    var gk, nk := GuidKeys(reg.records), NameKeys(reg.records);
    IndexesLatestMeans(reg.guidToProject, gk, g);
    IndexesLatestMeans(reg.nameToProject, nk, n);
    assert forall i :: 0 <= i < |reg.records| ==> gk[i] == reg.records[i].GuidText();
    assert forall i :: 0 <= i < |reg.records| ==> nk[i] == Lower(reg.records[i].path.projectName);
  }

  /** In a consistent registry every index points at a record. */
  lemma ValidHoldersExist(reg: Registry, g: string, n: string)
    requires reg.Valid()
    ensures reg.HoldersExist(g, n)
  {
    IndexesLatestMeans(reg.guidToProject, GuidKeys(reg.records), g);
    IndexesLatestMeans(reg.nameToProject, NameKeys(reg.records), n);
  }

  /**
    DuplicateGuid is reported exactly when an earlier record has the same
    GUID, and cites the latest such record; DuplicateProjectName likewise for
    the lower-case project name. Nothing else is reported.
  */
  lemma DuplicatesMeanEarlierRecords(reg: Registry, source: string, g: string, n: string)
    requires reg.Valid()
    ensures reg.HoldersExist(g, n)
    ensures var ds := reg.DuplicateReports(source, g, n);
      && (forall k :: 0 <= k < |ds| ==> ds[k].source == source && ds[k].id in {DuplicateGuid, DuplicateProjectName})
      && ((exists k :: 0 <= k < |ds| && ds[k].id == DuplicateGuid) <==>
          exists i :: 0 <= i < |reg.records| && reg.records[i].GuidText() == g)
      && ((exists k :: 0 <= k < |ds| && ds[k].id == DuplicateProjectName) <==>
          exists i :: 0 <= i < |reg.records| && Lower(reg.records[i].path.projectName) == n)
      && (forall k :: 0 <= k < |ds| && ds[k].id == DuplicateGuid ==>
            exists i :: 0 <= i < |reg.records| && reg.records[i].GuidText() == g
              && ds[k].extraInfo == Some([reg.records[i].Source(), g])
              && forall j :: i < j < |reg.records| ==> reg.records[j].GuidText() != g)
  {
    ValidHoldersExist(reg, g, n);
    IndexesHoldEarlierRecords(reg, g, n);
    if g in reg.guidToProject {
      IndexesLatestMeans(reg.guidToProject, GuidKeys(reg.records), g);
    }
    DuplicateReportsMeaning(reg, source, g, n);
  }

  /** DuplicatesMeanEarlierRecords, from what the indexes mean rather than how they are built. */
  lemma DuplicateReportsMeaning(reg: Registry, source: string, g: string, n: string)
    requires reg.HoldersExist(g, n)
    requires g in reg.guidToProject <==> exists i :: 0 <= i < |reg.records| && reg.records[i].GuidText() == g
    requires g in reg.guidToProject ==>
      && reg.records[reg.guidToProject[g]].GuidText() == g
      && forall i :: reg.guidToProject[g] < i < |reg.records| ==> reg.records[i].GuidText() != g
    requires n in reg.nameToProject <==>
      exists i :: 0 <= i < |reg.records| && Lower(reg.records[i].path.projectName) == n
    ensures var ds := reg.DuplicateReports(source, g, n);
      && (forall k :: 0 <= k < |ds| ==> ds[k].source == source && ds[k].id in {DuplicateGuid, DuplicateProjectName})
      && ((exists k :: 0 <= k < |ds| && ds[k].id == DuplicateGuid) <==>
          exists i :: 0 <= i < |reg.records| && reg.records[i].GuidText() == g)
      && ((exists k :: 0 <= k < |ds| && ds[k].id == DuplicateProjectName) <==>
          exists i :: 0 <= i < |reg.records| && Lower(reg.records[i].path.projectName) == n)
      && (forall k :: 0 <= k < |ds| && ds[k].id == DuplicateGuid ==>
            exists i :: 0 <= i < |reg.records| && reg.records[i].GuidText() == g
              && ds[k].extraInfo == Some([reg.records[i].Source(), g])
              && forall j :: i < j < |reg.records| ==> reg.records[j].GuidText() != g)
  {
    var ds := reg.DuplicateReports(source, g, n);
    if g in reg.guidToProject {
      assert ds[0].id == DuplicateGuid;
      var i := reg.guidToProject[g];
      assert ds[0].extraInfo == Some([reg.records[i].Source(), g]);
    }
    if n in reg.nameToProject {
      assert ds[|ds| - 1].id == DuplicateProjectName;
    }
  }

  /** Marking a record processed keeps the registry consistent and every key's index. */
  lemma MarkProcessedKeepsValid(reg: Registry, index: nat)
    requires reg.Valid() && index < |reg.records|
    ensures reg.MarkProcessed(index).Valid()
    ensures reg.MarkProcessed(index).projectInfo == reg.projectInfo
    ensures reg.MarkProcessed(index).records[index].processed
  {
    var r := reg.MarkProcessed(index);
    GuidKeysMark(reg.records, index);
    assert r.RecordsLoaded() by {
      forall i | 0 <= i < |r.records| && r.records[i].valid
        ensures r.records[i].project.Some?
      {
        if i != index { assert r.records[i] == reg.records[i]; }
      }
    }
  }

  // ---------------------------------------------------------------------
  // GetOrCreateProjectInfo, as a function of the registry
  // ---------------------------------------------------------------------

  /** The suffix of the C# project an .mproj is converted into. */
  const GeneratedSuffix: string := "_generated.csproj"

  /**
    The path a pathname is registered under: its own, or for an .mproj the
    generated C# project next to it.
  */
  function RegistryPath(world: World, pathname: string): (r: VSPath)
    ensures Lower(GetFromFile(world.FullPathOrNull(pathname)).extension) != ".mproj" ==>
      r == GetFromFile(world.FullPathOrNull(pathname))
  {
    var vsPath := GetFromFile(world.FullPathOrNull(pathname));
    if Lower(vsPath.extension) == ".mproj" then
      GetFromFile(world.FullPathOrNull(Combine(vsPath.directoryName, vsPath.projectName + GeneratedSuffix)))
    else vsPath
  }

  /** The dictionary key of RegistryPath. */
  function RegistryKey(world: World, pathname: string): PathKey {
    Key(RegistryPath(world, pathname))
  }

  /** A pathname that names an M project, which GetOrCreateProjectInfo converts first. */
  predicate IsMProj(world: World, pathname: string) {
    Lower(GetFromFile(world.FullPathOrNull(pathname)).extension) == ".mproj"
  }

  /** The path ConvertIfIsMProj builds the new record from: the generated project for an .mproj. */
  function SourcePath(world: World, pathname: string): (r: string)
    ensures IsMProj(world, pathname) ==> r == RegistryPath(world, pathname).fullName
    ensures !IsMProj(world, pathname) ==> r == GetFromFile(world.FullPathOrNull(pathname)).fullName
  {
    if IsMProj(world, pathname) then RegistryPath(world, pathname).fullName
    else GetFromFile(world.FullPathOrNull(pathname)).fullName
  }

  /** The world the new record is built in: the generated path of an .mproj is treated as an existing file. */
  function AfterConversion(world: World, pathname: string): World {
    if IsMProj(world, pathname) then world.(files := world.files + {SourcePath(world, pathname)}) else world
  }

  /** The validation of a pathname's new record, given the next GUID the source would draw. */
  function Creation(world: World, pathname: string, newGuid: Guid): Validation {
    Validate(SourcePath(world, pathname), AfterConversion(world, pathname), newGuid)
  }

  /** A record the constructor calls valid has an evaluated project. */
  lemma ValidRecordsLoaded(pathname: string, world: World, newGuid: Guid)
    ensures Validate(pathname, world, newGuid).info.valid ==> Validate(pathname, world, newGuid).info.project.Some?
  {
  }

  // ---------------------------------------------------------------------
  // FindAllReferences, as a function of the project
  // ---------------------------------------------------------------------

  /** What one item of the reference walk does. */
  datatype Step = Skip | AddItem(text: string) | Follow(path: string)

  /** The Message of the ArgumentNullException that new Uri(null) throws. */
  const NullUriMessage: string := "Value cannot be null.\r\nParameter name: uriString"

  /** The items FindAllReferences walks: ProjectReference, then ProjectFile, then SolutionItem items. */
  function ReferenceItems(p: EvaluatedProject): seq<ProjectItem> {
    ItemsOfType(p.items, "ProjectReference") + ItemsOfType(p.items, "ProjectFile") + ItemsOfType(p.items, "SolutionItem")
  }

  /** A solution item's text: the relative URI with the scheme dropped and backslashes for slashes. */
  function SolutionItemText(relativeUri: string): string {
    Replace(Replace(relativeUri, "file:///", ""), "/", "\\")
  }

  /**
    One item of the walk, in the project's directory. A SolutionItem (item
    type compared ordinally) is made relative to the solution file; a
    reference whose ReferenceOutputAssembly is "false" is skipped when
    skipRefs is on; any other reference is followed when its full path is an
    existing file. An Err is the Message of the exception that ends the walk.
  */
  function ReferenceStep(world: World, directory: string, item: ProjectItem, slnFile: Option<string>, skipRefs: bool)
    : Result<Step, string>
  {
    if item.itemType == "SolutionItem" then
      match world.fullPath(Combine(directory, item.unevaluatedInclude))
      case Err(m) => Err(m)
      case Ok(full) =>
        if slnFile.None? then Err(NullUriMessage)
        else
          match world.relativeUri(full, slnFile.value)
          case Err(m) => Err(m)
          case Ok(relative) => Ok(AddItem(SolutionItemText(relative)))
    else if skipRefs && EqualsIgnoreCase(MetadataValue(item, "ReferenceOutputAssembly"), "False") then Ok(Skip)
    else
      var target :=
        if IsPathRooted(item.unevaluatedInclude) then world.fullPath(item.unevaluatedInclude)
        else world.fullPath(Combine(directory, item.unevaluatedInclude));
      match target
      case Err(m) => Err(m)
      case Ok(reference) => if reference != "" && reference in world.files then Ok(Follow(reference)) else Ok(Skip)
  }

  /** The effect of a walk: solution items added, entries added, and the failure that ended it, if any. */
  datatype Walked = Walked(items: seq<string>, entries: Entries, failure: Option<string>)

  /** The walk over items, in order, stopping at the first failure. */
  function WalkReferences(world: World, directory: string, items: seq<ProjectItem>, slnFile: Option<string>, skipRefs: bool)
    : Walked
    requires world.Valid()
  {
    if items == [] then Walked([], NoEntries, None)
    else
      var w := WalkReferences(world, directory, items[..|items| - 1], slnFile, skipRefs);
      if w.failure.Some? then w
      else Apply(world, w, ReferenceStep(world, directory, items[|items| - 1], slnFile, skipRefs))
  }

  /** The solution items a step adds. */
  function StepItems(step: Result<Step, string>): seq<string> {
    if step.Ok? && step.value.AddItem? then [step.value.text] else []
  }

  /** The entries a step adds: a followed file's, by AddEntriesToParseFiles without recursion. */
  function StepEntries(world: World, step: Result<Step, string>): Entries
    requires world.Valid()
  {
    if step.Ok? && step.value.Follow? then EntriesFor(world, step.value.path, false) else NoEntries
  }

  /** The failure a step raises. */
  function StepFailure(step: Result<Step, string>): Option<string> {
    if step.Err? then Some(step.error) else None
  }

  /** One step's effect on a walk that has not failed. */
  function Apply(world: World, w: Walked, step: Result<Step, string>): Walked
    requires world.Valid()
  {
    Walked(w.items + StepItems(step), Then(w.entries, StepEntries(world, step)), StepFailure(step))
  }

  lemma WalkStep(world: World, directory: string, items: seq<ProjectItem>, k: nat, slnFile: Option<string>, skipRefs: bool)
    requires world.Valid() && k < |items|
    requires WalkReferences(world, directory, items[..k], slnFile, skipRefs).failure.None?
    ensures WalkReferences(world, directory, items[..k + 1], slnFile, skipRefs)
      == Apply(world, WalkReferences(world, directory, items[..k], slnFile, skipRefs),
               ReferenceStep(world, directory, items[k], slnFile, skipRefs))
  {
    assert items[..k + 1][..k] == items[..k];
  }

  /** Once the walk has failed, the later items change nothing. */
  lemma {:induction false} WalkStopsAtFailure(world: World, directory: string, items: seq<ProjectItem>, k: nat,
                                              slnFile: Option<string>, skipRefs: bool)
    requires world.Valid() && k <= |items|
    requires WalkReferences(world, directory, items[..k], slnFile, skipRefs).failure.Some?
    ensures WalkReferences(world, directory, items, slnFile, skipRefs)
      == WalkReferences(world, directory, items[..k], slnFile, skipRefs)
    decreases |items| - k
  {
    if k < |items| {
      assert items[..k + 1][..k] == items[..k];
      WalkStopsAtFailure(world, directory, items, k + 1, slnFile, skipRefs);
    } else {
      assert items[..k] == items;
    }
  }

  /**
    What the walk adds: each solution item comes from a SolutionItem item,
    every pushed path is an existing file, and the only reports are
    MissingFile reports for followed files that are hidden, system or offline.
  */
  lemma {:induction false} WalkMeaning(world: World, directory: string, items: seq<ProjectItem>,
                                       slnFile: Option<string>, skipRefs: bool)
    requires world.Valid()
    ensures var w := WalkReferences(world, directory, items, slnFile, skipRefs);
      && |w.items| <= |items|
      && (forall x :: x in w.entries.pushed ==> x in world.files)
      && (forall d :: d in w.entries.reports ==> d.id == MissingFile && d.extraInfo == Some([BadEntryMessage]))
      && (w.items != [] ==> slnFile.Some?)
  {
    if items != [] {
      var front := items[..|items| - 1];
      WalkMeaning(world, directory, front, slnFile, skipRefs);
      var w := WalkReferences(world, directory, front, slnFile, skipRefs);
      if w.failure.None? {
        var step := ReferenceStep(world, directory, items[|items| - 1], slnFile, skipRefs);
        if step.Ok? && step.value.Follow? {
          ExistingFileEntries(world, step.value.path, false);
        }
      }
    }
  }

  /**
    A reference that skipRefs drops contributes nothing, and a walk of
    references that all name no existing file adds nothing and cannot fail
    unless a full path cannot be computed.
  */
  lemma SkippedReference(world: World, directory: string, item: ProjectItem, slnFile: Option<string>)
    requires item.itemType != "SolutionItem"
    requires EqualsIgnoreCase(MetadataValue(item, "ReferenceOutputAssembly"), "False")
    ensures ReferenceStep(world, directory, item, slnFile, true) == Ok(Skip)
    ensures var target := if IsPathRooted(item.unevaluatedInclude) then world.fullPath(item.unevaluatedInclude)
                          else world.fullPath(Combine(directory, item.unevaluatedInclude));
      ReferenceStep(world, directory, item, slnFile, false) ==
        (if target.Err? then Err(target.error)
         else if target.value != "" && target.value in world.files then Ok(Follow(target.value)) else Ok(Skip))
  {
  }

  // ---------------------------------------------------------------------
  // The closure
  // ---------------------------------------------------------------------

  /**
    ProjectClosure. The stack _projectsToLoad is a sequence whose last
    element is the top; _actualProjects holds indices into the registry's
    records. The configuration, the world, the diagnostic sink, the GUID
    source and the nesting tree are the objects the closure works with.
    `generated` maps each C# project written for an .mproj file to the
    .mproj it was converted from. The file written is not modelled: the
    world's `evaluate` of that path is what validation reads.
  */
  class ProjectClosure {
    const config: Config
    const world: World
    const sink: ErrorSink
    const guids: GuidSource
    const nesting: NestingTree
    var projectsToLoad: seq<string>
    var actualProjects: seq<nat>
    var solutionItems: seq<string>
    var registry: Registry
    var generated: map<string, string>
    var unsafeImports: Option<seq<string>>

    /**
      The registry is consistent; every accepted project is a valid,
      processed record, listed once, whose directory is in the nesting tree.
    */
    ghost predicate Valid()
      reads this`registry, this`actualProjects, nesting
    {
      && world.Valid()
      && nesting.Valid()
      && registry.Valid()
      && Filed(registry, actualProjects, nesting.nodes)
    }

    constructor(config: Config, world: World, sink: ErrorSink, guids: GuidSource)
      requires world.Valid()
      modifies guids`issued
      ensures Valid() && fresh(nesting)
      ensures this.config == config && this.world == world && this.sink == sink && this.guids == guids
      ensures projectsToLoad == [] && actualProjects == [] && solutionItems == []
      ensures registry == Registry([], [], map[], map[], map[])
      ensures generated == map[] && unsafeImports == None
      ensures |nesting.nodes| == 1 && nesting.nodes[0].realGuid == guids.generate(old(guids.issued))
      ensures guids.issued == old(guids.issued) + 1
    {
      this.config := config;
      this.world := world;
      this.sink := sink;
      this.guids := guids;
      nesting := new NestingTree(guids);
      projectsToLoad := [];
      actualProjects := [];
      solutionItems := [];
      registry := Registry([], [], map[], map[], map[]);
      generated := map[];
      unsafeImports := None;
    }

    /** AddEntriesToParseFiles(pathname, recurse): the entries EntriesFor describes; Bad is the only failure. */
    method AddEntriesToParseFiles(pathname: string, recurse: bool) returns (status: Status)
      requires world.Valid()
      modifies this`projectsToLoad, sink`errors
      ensures var e := EntriesFor(world, pathname, recurse);
        && projectsToLoad == old(projectsToLoad) + e.pushed
        && sink.errors == old(sink.errors) + Kept(old(sink.enabled), e.reports)
      ensures status == (if GetFileType(world, pathname) == Bad then BadProjectNameError else OK)
      decreases world.height(pathname)
    {
      match GetFileType(world, pathname)
      case Bad =>
        sink.ReportErrorWithInfo(MissingFile, pathname, BadEntryMessage);
        KeptSnoc(old(sink.enabled), [], Diagnostic(MissingFile, pathname, Some([BadEntryMessage])));
        return BadProjectNameError;
      case File =>
        projectsToLoad := projectsToLoad + [pathname];
        return OK;
      case Directory() =>
        projectsToLoad := projectsToLoad + world.projectFilesIn(pathname);
        if recurse {
          AddSubdirectories(world.subdirectories(pathname), world.height(pathname));
        }
        DirectoryEntries(world, pathname, recurse, old(projectsToLoad), old(sink.errors), old(sink.enabled));
        return OK;
    }

    /** The recursive part of AddEntriesToParseFiles: each subdirectory in turn. */
    method AddSubdirectories(dirs: seq<string>, bound: nat)
      requires world.Valid()
      requires forall c :: c in dirs ==> world.height(c) < bound
      modifies this`projectsToLoad, sink`errors
      ensures var e := EntriesUnder(world, dirs, bound);
        && projectsToLoad == old(projectsToLoad) + e.pushed
        && sink.errors == old(sink.errors) + Kept(old(sink.enabled), e.reports)
      decreases bound, 0
    {
      ghost var e := sink.enabled;
      var k := 0;
      while k < |dirs|
        invariant 0 <= k <= |dirs| && sink.enabled == e
        invariant var u := EntriesUnder(world, dirs[..k], bound);
          && projectsToLoad == old(projectsToLoad) + u.pushed
          && sink.errors == old(sink.errors) + Kept(e, u.reports)
      {
        ghost var pushedBefore, errorsBefore := projectsToLoad, sink.errors;
        var _ := AddEntriesToParseFiles(dirs[k], true);
        UnderAccumulates(world, dirs, k, bound, e, old(projectsToLoad), old(sink.errors),
                         pushedBefore, errorsBefore, projectsToLoad, sink.errors);
        k := k + 1;
      }
      assert dirs[..k] == dirs;
    }

    /** AddEntriesToParseFiles(pathnames, recurse): every path in order; BadProjectNameError iff some path was Bad. */
    method AddAllEntriesToParseFiles(pathnames: seq<string>, recurse: bool) returns (status: Status)
      requires world.Valid()
      modifies this`projectsToLoad, sink`errors
      ensures var e := EntriesOfAll(world, pathnames, recurse);
        && projectsToLoad == old(projectsToLoad) + e.pushed
        && sink.errors == old(sink.errors) + Kept(old(sink.enabled), e.reports)
      ensures status == (if SomeBad(world, pathnames) then BadProjectNameError else OK)
    {
      ghost var e := sink.enabled;
      status := OK;
      var k := 0;
      while k < |pathnames|
        invariant 0 <= k <= |pathnames| && sink.enabled == e
        invariant var u := EntriesOfAll(world, pathnames[..k], recurse);
          && projectsToLoad == old(projectsToLoad) + u.pushed
          && sink.errors == old(sink.errors) + Kept(e, u.reports)
        invariant status == (if SomeBad(world, pathnames[..k]) then BadProjectNameError else OK)
      {
        ghost var pushedBefore, errorsBefore := projectsToLoad, sink.errors;
        var temp := AddEntriesToParseFiles(pathnames[k], recurse);
        AllAccumulates(world, pathnames, k, recurse, e, old(projectsToLoad), old(sink.errors),
                       pushedBefore, errorsBefore, projectsToLoad, sink.errors);
        if temp != OK {
          status := temp;
        }
        k := k + 1;
      }
      assert pathnames[..k] == pathnames;
    }

    /**
      GetOrCreateProjectInfo: the record registered under the pathname's
      registry path. A new one is converted when it is an .mproj, built by
      the ProjectInfo constructor, reported when its GUID or its name is
      taken, and then entered in all three dictionaries.
    */
    method GetOrCreateProjectInfo(pathname: string) returns (index: nat)
      requires registry.Valid()
      modifies this`registry, this`generated, sink`errors, guids`issued
      ensures registry.Valid()
      ensures var key := RegistryKey(world, pathname);
        key in registry.projectInfo && index == registry.projectInfo[key] && index < |registry.records|
      ensures RegistryKey(world, pathname) in old(registry.projectInfo) ==>
        && registry == old(registry) && generated == old(generated)
        && sink.errors == old(sink.errors) && guids.issued == old(guids.issued)
      ensures RegistryKey(world, pathname) !in old(registry.projectInfo) ==>
        var v := Creation(world, pathname, guids.generate(old(guids.issued)));
        && registry == old(registry).Add(RegistryKey(world, pathname), v.info)
        && index == |old(registry.records)|
        && sink.errors == old(sink.errors) + Kept(old(sink.enabled),
             v.reports + old(registry).DuplicateReports(LowerFullName(RegistryPath(world, pathname)),
                                                        v.info.GuidText(), Lower(v.info.path.projectName)))
        && guids.issued == old(guids.issued) + (if v.drewGuid then 1 else 0)
        && generated == (if IsMProj(world, pathname)
                         then old(generated)[SourcePath(world, pathname) := GetFromFile(world.FullPathOrNull(pathname)).fullName]
                         else old(generated))
    {
      var vsPath := GetFromFile(world.FullPathOrNull(pathname));
      var newVsPath := vsPath;
      if Lower(vsPath.extension) == ".mproj" {
        newVsPath := GetFromFile(world.FullPathOrNull(Combine(vsPath.directoryName, vsPath.projectName + GeneratedSuffix)));
      }
      var key := Key(newVsPath);
      if key in registry.projectInfo {
        return registry.projectInfo[key];
      }
      index := CreateProjectInfo(pathname, vsPath, newVsPath);
    }

    /** GetOrCreateProjectInfo for a key not yet registered: build the record, check it, register it. */
    method CreateProjectInfo(pathname: string, vsPath: VSPath, newVsPath: VSPath) returns (index: nat)
      requires vsPath == GetFromFile(world.FullPathOrNull(pathname)) && newVsPath == RegistryPath(world, pathname)
      requires registry.Valid() && Key(newVsPath) !in registry.projectInfo
      modifies this`registry, this`generated, sink`errors, guids`issued
      ensures registry.Valid()
      ensures var v := Creation(world, pathname, guids.generate(old(guids.issued)));
        && registry == old(registry).Add(Key(newVsPath), v.info)
        && index == |old(registry.records)|
        && sink.errors == old(sink.errors) + Kept(old(sink.enabled),
             v.reports + old(registry).DuplicateReports(LowerFullName(newVsPath),
                                                        v.info.GuidText(), Lower(v.info.path.projectName)))
        && guids.issued == old(guids.issued) + (if v.drewGuid then 1 else 0)
        && generated == (if IsMProj(world, pathname)
                         then old(generated)[SourcePath(world, pathname) := vsPath.fullName]
                         else old(generated))
    {
      ghost var e, start := sink.enabled, sink.errors;
      var info := BuildRecord(pathname, vsPath, newVsPath);
      ghost var v := Creation(world, pathname, guids.generate(old(guids.issued)));
      RegisterRecord(Key(newVsPath), LowerFullName(newVsPath), info);
      ghost var dups := old(registry).DuplicateReports(LowerFullName(newVsPath), info.GuidText(), Lower(info.path.projectName));
      KeptAppend(e, v.reports, dups);
      AppendThree(start, Kept(e, v.reports), Kept(e, dups));
      index := |registry.records| - 1;
    }

    /**
      The new record of GetOrCreateProjectInfo: the pathname is converted when
      it is an .mproj and the ProjectInfo constructor runs on the result.
    */
    method BuildRecord(pathname: string, vsPath: VSPath, newVsPath: VSPath) returns (info: ProjectInfo)
      requires vsPath == GetFromFile(world.FullPathOrNull(pathname)) && newVsPath == RegistryPath(world, pathname)
      modifies this`generated, sink`errors, guids`issued
      ensures var v := Creation(world, pathname, guids.generate(old(guids.issued)));
        && info == v.info
        && sink.errors == old(sink.errors) + Kept(old(sink.enabled), v.reports)
        && guids.issued == old(guids.issued) + (if v.drewGuid then 1 else 0)
        && generated == (if IsMProj(world, pathname)
                         then old(generated)[SourcePath(world, pathname) := vsPath.fullName]
                         else old(generated))
      ensures info.valid ==> info.project.Some?
    {
      var path, view := ConvertAndRecord(pathname, vsPath, newVsPath);
      info := NewProjectInfo(path, view, sink, guids);
      ValidRecordsLoaded(path, view, guids.generate(old(guids.issued)));
    }

    /**
      The conversion step of BuildRecord: an .mproj is converted and its
      generated path remembered, and the record is then built from that
      path, in a view of the world where it is treated as an existing file.
    */
    method ConvertAndRecord(pathname: string, vsPath: VSPath, newVsPath: VSPath) returns (path: string, view: World)
      requires vsPath == GetFromFile(world.FullPathOrNull(pathname)) && newVsPath == RegistryPath(world, pathname)
      modifies this`generated
      ensures path == SourcePath(world, pathname) && view == AfterConversion(world, pathname)
      ensures generated == (if IsMProj(world, pathname)
                            then old(generated)[SourcePath(world, pathname) := vsPath.fullName]
                            else old(generated))
    {
      var converted;
      path, converted := Convert(vsPath, newVsPath);
      view := world;
      if converted {
        generated := generated[path := vsPath.fullName];
        view := world.(files := world.files + {path});
      }
    }

    /**
      The rest of GetOrCreateProjectInfo for a new record: the duplicate
      checks against the records so far, then the record enters the three
      dictionaries under `key`.
    */
    method RegisterRecord(key: PathKey, source: string, info: ProjectInfo)
      requires registry.Valid() && key !in registry.projectInfo
      requires info.valid ==> info.project.Some?
      modifies this`registry, sink`errors
      ensures registry.Valid()
      ensures old(registry).HoldersExist(info.GuidText(), Lower(info.path.projectName))
      ensures registry == old(registry).Add(key, info)
      ensures sink.errors == old(sink.errors) + Kept(old(sink.enabled),
        old(registry).DuplicateReports(source, info.GuidText(), Lower(info.path.projectName)))
    {
      var g, name := info.GuidText(), Lower(info.path.projectName);
      ValidHoldersExist(registry, g, name);
      ReportDuplicates(source, g, name);
      AddKeepsValid(registry, key, info);
      registry := registry.Add(key, info);
    }

    /**
      ProcessProjectFiles: pops paths until the stack is empty, registering
      each; every valid record not yet processed is visited, which may push
      the files it references. Afterwards every path that was on the stack is
      registered, every new valid record is processed, a project processed
      here is accepted exactly when its walk did not fail, and every file an
      accepted project references is registered: the closure is closed.
    */
    method ProcessProjectFiles()
      requires Valid()
      modifies this`registry, this`generated, this`actualProjects, this`projectsToLoad, this`solutionItems,
               sink`errors, guids`issued, nesting`nodes
      ensures Valid() && projectsToLoad == []
      ensures |old(actualProjects)| <= |actualProjects| && actualProjects[..|old(actualProjects)|] == old(actualProjects)
      ensures Closed(world, config.slnFile, SkipRefs(config.values), old(registry), |old(actualProjects)|, old(projectsToLoad),
                     registry, actualProjects)
    {
      ghost var pool := StackPool(world, projectsToLoad);
      ghost var universe := KeyUniverse(world, registry.projectInfo.Keys, pool);
      ghost var seen := StackSet(projectsToLoad);
      ghost var a0 := |actualProjects|;
      while projectsToLoad != []
        invariant Valid() && world.files <= pool && a0 <= |actualProjects| && actualProjects[..a0] == old(actualProjects)
        invariant forall s :: s in pool ==> RegistryKey(world, s) in universe
        invariant Progress(world, config.slnFile, SkipRefs(config.values), old(registry), a0, old(projectsToLoad), pool,
                           registry, actualProjects, projectsToLoad, seen)
        decreases |universe - registry.projectInfo.Keys|, |Unprocessed(registry)|, |projectsToLoad|
      {
        seen := ProcessTop(old(registry), a0, old(projectsToLoad), pool, seen, universe);
      }
      ProgressCloses(world, config.slnFile, SkipRefs(config.values), old(registry), a0, old(projectsToLoad), pool, registry, actualProjects, seen);
    }

    /**
      One iteration of ProcessProjectFiles's loop: the top path is popped and
      processed, which keeps the loop's invariant and decreases its measure.
    */
    method ProcessTop(ghost r0: Registry, ghost a0: nat, ghost stack0: seq<string>, ghost pool: set<string>,
                      ghost seen: set<string>, ghost universe: set<PathKey>)
      returns (ghost seen1: set<string>)
      requires Valid() && projectsToLoad != [] && world.files <= pool
      requires forall s :: s in pool ==> RegistryKey(world, s) in universe
      requires Progress(world, config.slnFile, SkipRefs(config.values), r0, a0, stack0, pool,
                        registry, actualProjects, projectsToLoad, seen)
      modifies this`registry, this`generated, this`actualProjects, this`projectsToLoad, this`solutionItems,
               sink`errors, guids`issued, nesting`nodes
      ensures Valid() && a0 <= |actualProjects| && actualProjects[..a0] == old(actualProjects)[..a0]
      ensures Progress(world, config.slnFile, SkipRefs(config.values), r0, a0, stack0, pool,
                       registry, actualProjects, projectsToLoad, seen1)
      ensures Decreased(universe, old(registry), registry, old(projectsToLoad), projectsToLoad)
    {
      ghost var reg, actual, stack := registry, actualProjects, projectsToLoad;
      var pathname := projectsToLoad[|projectsToLoad| - 1];
      projectsToLoad := projectsToLoad[..|projectsToLoad| - 1];
      var index, ran, mid, w := ProcessProject(pathname);
      seen1 := StepKeepsProgress(world, config.slnFile, SkipRefs(config.values), r0, a0, stack0, pool,
                                 reg, actual, stack, seen, index, ran, mid, w, registry, actualProjects, projectsToLoad);
      StepDecreases(universe, world, pathname, reg, index, ran, mid, registry, stack, projectsToLoad);
    }

    /**
      The body of ProcessProjectFiles's loop for one popped path: the record
      is found or created (giving the registry `mid`), and visited when it is
      valid and not yet processed (`ran`), with `w` its walk.
    */
    method ProcessProject(pathname: string) returns (index: nat, ran: bool, ghost mid: Registry, ghost w: Walked)
      requires Valid()
      modifies this`registry, this`generated, this`actualProjects, this`projectsToLoad, this`solutionItems,
               sink`errors, guids`issued, nesting`nodes
      ensures Valid()
      ensures Stepped(world, config.slnFile, SkipRefs(config.values), pathname, old(registry), old(projectsToLoad),
                      old(actualProjects), index, ran, mid, w, registry, actualProjects, projectsToLoad)
    {
      index := FindOrRegister(pathname);
      mid := registry;
      var info := registry.records[index];
      ran := info.valid && !info.processed;
      w := Walked([], NoEntries, None);
      if ran {
        w := VisitProject(index);
      }
    }

    /** GetOrCreateProjectInfo as ProcessProjectFiles sees it: the closure stays valid. */
    method FindOrRegister(pathname: string) returns (index: nat)
      requires Valid()
      modifies this`registry, this`generated, sink`errors, guids`issued
      ensures Valid()
      ensures var key := RegistryKey(world, pathname);
        && key in registry.projectInfo && registry.projectInfo[key] == index && index < |registry.records|
        && (key in old(registry.projectInfo) ==> registry == old(registry))
        && (key !in old(registry.projectInfo) ==>
              registry == old(registry).Add(key, registry.records[index]) && !registry.records[index].processed)
    {
      index := GetOrCreateProjectInfo(pathname);
      if RegistryKey(world, pathname) !in old(registry.projectInfo) {
        AddGrows(old(registry), RegistryKey(world, pathname), registry.records[index]);
        GrownKeepsAccepted(old(registry), registry, actualProjects, nesting.nodes);
      }
    }

    /**
      The part of ProcessProjectFiles's loop for a valid record not yet
      processed: its directory is filed in the nesting tree, its references
      are walked, and it is accepted when the walk does not fail; a failure
      is reported as LoadFailed against the project's full name.
    */
    method VisitProject(index: nat) returns (ghost w: Walked)
      requires Valid()
      requires index < |registry.records| && registry.records[index].valid && !registry.records[index].processed
      modifies this`registry, this`actualProjects, this`projectsToLoad, this`solutionItems, sink`errors,
               guids`issued, nesting`nodes
      ensures Valid()
      ensures registry == old(registry).MarkProcessed(index)
      ensures w == RecordWalk(world, old(registry).records[index], config.slnFile, SkipRefs(config.values))
      ensures projectsToLoad == old(projectsToLoad) + w.entries.pushed
      ensures actualProjects == old(actualProjects) + (if w.failure.None? then [index] else [])
    {
      var info := registry.records[index];
      nesting.AddProjectFile(info.path, guids);
      var failure := FindAllReferences(index);
      w := RecordWalk(world, info, config.slnFile, SkipRefs(config.values));
      Conclude(index, failure, old(registry), old(nesting.nodes));
    }

    /**
      The end of VisitProject: the project is accepted when its walk did not
      fail, and otherwise its failure is reported as LoadFailed.
    */
    method Conclude(index: nat, failure: Option<string>, ghost r0: Registry, ghost before: seq<NestingDir>)
      requires world.Valid() && nesting.Valid() && registry.Valid()
      requires Filed(r0, actualProjects, before) && Extends(before, nesting.nodes)
      requires index < |r0.records| && r0.records[index].valid && !r0.records[index].processed
      requires registry == r0.MarkProcessed(index) && Walk(nesting.nodes, 0, Keys(r0.records[index].path)).Some?
      modifies this`actualProjects, sink`errors
      ensures Valid()
      ensures actualProjects == old(actualProjects) + (if failure.None? then [index] else [])
    {
      VisitKeepsAccepted(r0, actualProjects, before, nesting.nodes, index, failure.None?);
      if failure.None? {
        actualProjects := actualProjects + [index];
      } else {
        sink.ReportErrorWithInfo(LoadFailed, registry.records[index].path.fullName, failure.value);
        assert actualProjects + [] == actualProjects;
      }
    }

    /**
      ProjectInfo.FindAllReferences for the record at `index`: marks it
      processed, then walks its reference items in order; the first failure
      ends the walk and is returned (the exception the caller catches).
    */
    method FindAllReferences(index: nat) returns (failure: Option<string>)
      requires world.Valid() && registry.Valid()
      requires index < |registry.records| && registry.records[index].valid
      modifies this`registry, this`solutionItems, this`projectsToLoad, sink`errors
      ensures registry == old(registry).MarkProcessed(index) && registry.Valid()
      ensures var info := old(registry).records[index];
        var w := WalkReferences(world, info.path.directoryName, ReferenceItems(info.project.value),
                                config.slnFile, SkipRefs(config.values));
        && solutionItems == old(solutionItems) + w.items
        && projectsToLoad == old(projectsToLoad) + w.entries.pushed
        && sink.errors == old(sink.errors) + Kept(old(sink.enabled), w.entries.reports)
        && failure == w.failure
    {
      MarkProcessedKeepsValid(registry, index);
      registry := registry.MarkProcessed(index);
      var info := registry.records[index];
      var items := ReferenceItems(info.project.value);
      var directory := info.path.directoryName;
      var slnFile, skipRefs := config.slnFile, SkipRefs(config.values);
      ghost var e := sink.enabled;
      var k := 0;
      while k < |items|
        invariant k <= |items| && sink.enabled == e && registry == old(registry).MarkProcessed(index)
        invariant var w := WalkReferences(world, directory, items[..k], slnFile, skipRefs);
          && w.failure.None?
          && solutionItems == old(solutionItems) + w.items
          && projectsToLoad == old(projectsToLoad) + w.entries.pushed
          && sink.errors == old(sink.errors) + Kept(e, w.entries.reports)
      {
        ghost var before := WalkReferences(world, directory, items[..k], slnFile, skipRefs);
        ghost var step := ReferenceStep(world, directory, items[k], slnFile, skipRefs);
        ghost var items0, pushed0, errors0 := solutionItems, projectsToLoad, sink.errors;
        WalkStep(world, directory, items, k, slnFile, skipRefs);
        failure := FollowReference(directory, items[k], slnFile, skipRefs);
        AppendThree(old(solutionItems), before.items, StepItems(step));
        ThenAccumulates(before.entries, StepEntries(world, step), e, old(projectsToLoad), old(sink.errors),
                        pushed0, errors0, projectsToLoad, sink.errors);
        if failure.Some? {
          WalkStopsAtFailure(world, directory, items, k + 1, slnFile, skipRefs);
          return;
        }
        k := k + 1;
      }
      assert items[..k] == items;
      failure := None;
    }

    /** The body of FindAllReferences's loop, for one item. */
    method FollowReference(directory: string, item: ProjectItem, slnFile: Option<string>, skipRefs: bool)
      returns (failure: Option<string>)
      requires world.Valid()
      modifies this`solutionItems, this`projectsToLoad, sink`errors
      ensures var step := ReferenceStep(world, directory, item, slnFile, skipRefs);
        var e := StepEntries(world, step);
        && failure == StepFailure(step)
        && solutionItems == old(solutionItems) + StepItems(step)
        && projectsToLoad == old(projectsToLoad) + e.pushed
        && sink.errors == old(sink.errors) + Kept(old(sink.enabled), e.reports)
    {
      if item.itemType == "SolutionItem" {
        var full := world.fullPath(Combine(directory, item.unevaluatedInclude));
        if full.Err? {
          return Some(full.error);
        }
        if slnFile.None? {
          return Some(NullUriMessage);
        }
        var relative := world.relativeUri(full.value, slnFile.value);
        if relative.Err? {
          return Some(relative.error);
        }
        solutionItems := solutionItems + [SolutionItemText(relative.value)];
        return None;
      }
      if skipRefs && EqualsIgnoreCase(MetadataValue(item, "ReferenceOutputAssembly"), "False") {
        return None;
      }
      var target := if IsPathRooted(item.unevaluatedInclude) then world.fullPath(item.unevaluatedInclude)
                    else world.fullPath(Combine(directory, item.unevaluatedInclude));
      if target.Err? {
        return Some(target.error);
      }
      if target.value != "" && target.value in world.files {
        var _ := AddEntriesToParseFiles(target.value, false);
      }
      return None;
    }

    /**
      MProjToCsProj.ConvertIfIsMProj, as GetOrCreateProjectInfo uses it: the
      path of the project to build the record from, and whether a C# project
      was generated (and saved there) from an .mproj.
    */
    method Convert(vsPath: VSPath, csProjPath: VSPath) returns (path: string, converted: bool)
      ensures converted <==> Lower(vsPath.extension) == ".mproj"
      ensures path == (if converted then csProjPath.fullName else vsPath.fullName)
    {
      var conversion := MProj.ConvertIfIsMProj(vsPath, csProjPath, world.loadMProj(vsPath.fullName));
      return conversion.path, conversion.Converted?;
    }

    /**
      The DuplicateGuid and DuplicateProjectName checks of
      GetOrCreateProjectInfo, for a new record with GUID text g and
      lower-case project name `name`, before it is registered.
    */
    method ReportDuplicates(source: string, g: string, name: string)
      requires registry.HoldersExist(g, name)
      modifies sink`errors
      ensures sink.errors == old(sink.errors) + Kept(old(sink.enabled), registry.DuplicateReports(source, g, name))
    {
      ghost var e := sink.enabled;
      ghost var byGuid: seq<Diagnostic> := [];
      if g in registry.guidToProject {
        var holder := registry.records[registry.guidToProject[g]].Source();
        byGuid := [Diagnostic(DuplicateGuid, source, Some([holder, g]))];
        sink.ReportErrorWithLines(DuplicateGuid, source, Some([holder, g]));
        KeptSnoc(e, [], byGuid[0]);
      }
      ghost var byName: seq<Diagnostic> := [];
      ghost var middle := sink.errors;
      if name in registry.nameToProject {
        var holder := registry.records[registry.nameToProject[name]].Source();
        byName := [Diagnostic(DuplicateProjectName, source, Some([holder, DuplicateNameNote]))];
        sink.ReportErrorWithLines(DuplicateProjectName, source, Some([holder, DuplicateNameNote]));
        KeptSnoc(e, [], byName[0]);
      }
      assert middle == old(sink.errors) + Kept(e, byGuid);
      assert sink.errors == middle + Kept(e, byName);
      KeptAppend(e, byGuid, byName);
      AppendThree(old(sink.errors), Kept(e, byGuid), Kept(e, byName));
      assert registry.DuplicateReports(source, g, name) == byGuid + byName;
    }

    /**
      ValidateNoOverlap: walks this closure's keys in the order they were
      added and reports each one the other closure also registered; true
      exactly when there is none.
    */
    method ValidateNoOverlap(topLevel: string, other: ProjectClosure, otherTopLevel: string) returns (result: bool)
      requires registry.Valid()
      modifies sink`errors
      ensures sink.errors == old(sink.errors)
        + Kept(sink.enabled, OverlapReports(registry.keyOrder, other.registry.projectInfo, topLevel, otherTopLevel))
      ensures result <==> forall k :: k in registry.projectInfo ==> k !in other.registry.projectInfo
    {
      result := true;
      var keys := registry.keyOrder;
      var others := other.registry.projectInfo;
      ghost var e := sink.enabled;
      var i := 0;
      while i < |keys|
        invariant i <= |keys| && sink.enabled == e && other.registry.projectInfo == others
        invariant sink.errors == old(sink.errors) + Kept(e, OverlapReports(keys[..i], others, topLevel, otherTopLevel))
        invariant result <==> forall j :: 0 <= j < i ==> keys[j] !in others
      {
        var key := keys[i];
        OverlapErrorsStep(old(sink.errors), e, keys, i, others, topLevel, otherTopLevel);
        if key in others {
          sink.ReportErrorWithLines(ProjectsOverlapped, key.lowerFullName, Some([ReferencedIn, topLevel, otherTopLevel]));
          result := false;
        }
        i := i + 1;
      }
      assert keys[..i] == keys;
      KeysAreKeyOrder(registry);
    }

    /**
      UnsafeImports: computed once, then returned as stored. The imports of
      every accepted project, in order, that the allow-list `safe` does not
      hold, each spelling kept once ignoring case.
    */
    method UnsafeImports(safe: seq<string>) returns (r: seq<string>)
      modifies this`unsafeImports
      ensures old(unsafeImports).Some? ==> r == old(unsafeImports).value
      ensures old(unsafeImports).None? ==> r == UnsafeAmong(safe, [], AllImports(registry.records, actualProjects))
      ensures unsafeImports == Some(r)
    {
      if unsafeImports.None? {
        var found: seq<string> := [];
        var k := 0;
        while k < |actualProjects|
          invariant k <= |actualProjects|
          invariant found == UnsafeAmong(safe, [], AllImports(registry.records, actualProjects[..k]))
        {
          var imports := ImportsOf(registry.records, actualProjects[k]);
          ghost var start := AllImports(registry.records, actualProjects[..k]);
          found := AddUnsafe(safe, found, imports);
          UnsafeAmongAppend(safe, [], start, imports);
          AllImportsStep(registry.records, actualProjects, k);
          k := k + 1;
        }
        assert actualProjects[..k] == actualProjects;
        unsafeImports := Some(found);
      }
      r := unsafeImports.value;
    }

    /** HasUnsafeImports: some import of an accepted project is not on the allow-list. */
    method HasUnsafeImports(safe: seq<string>) returns (has: bool)
      modifies this`unsafeImports
      ensures old(unsafeImports).None? ==>
        (has <==> exists x :: x in AllImports(registry.records, actualProjects) && !HasIgnoringCase(safe, x))
      ensures old(unsafeImports).Some? ==> (has <==> old(unsafeImports).value != [])
      ensures unsafeImports.Some?
    {
      var r := UnsafeImports(safe);
      has := |r| > 0;
      if old(unsafeImports).None? {
        UnsafeAmongEmpty(safe, AllImports(registry.records, actualProjects));
      }
    }

    /**
      CreateTempSlnFile: the solution text for the accepted projects, in
      order, with the solution items and, when nesting, the folders below
      the display root. prior is what the file held before.
    */
    method CreateTempSlnFile(nest: bool, targetVersion: VisualStudioVersion, prior: string) returns (written: SlnWrite)
      requires Valid()
      ensures written == TempSln(AcceptedInfos(registry.records, actualProjects), solutionItems, nesting.nodes,
                                 DisplayRootFrom(nesting.nodes, 0), nest, targetVersion, prior)
    {
      var root := nesting.DisplayRoot();
      var ps := AcceptedInfos(registry.records, actualProjects);
      written := WriteTempSln(ps, solutionItems, nesting.nodes, root, nest, targetVersion, prior);
    }
  }

  // ---------------------------------------------------------------------
  // ValidateNoOverlap
  // ---------------------------------------------------------------------

  const ReferencedIn: string := "Referenced in: "

  /** The ProjectsOverlapped report for a key both closures hold, citing both top-level names. */
  function OverlapReport(key: PathKey, topLevel: string, otherTopLevel: string): Diagnostic {
    Diagnostic(ProjectsOverlapped, key.lowerFullName, Some([ReferencedIn, topLevel, otherTopLevel]))
  }

  /** The reports ValidateNoOverlap makes for `keys`, in order. */
  function OverlapReports(keys: seq<PathKey>, others: map<PathKey, nat>, topLevel: string, otherTopLevel: string)
    : seq<Diagnostic>
  {
    if keys == [] then []
    else
      var key := keys[|keys| - 1];
      OverlapReports(keys[..|keys| - 1], others, topLevel, otherTopLevel)
      + (if key in others then [OverlapReport(key, topLevel, otherTopLevel)] else [])
  }

  /** One more key: a report follows exactly when the other closure holds it. */
  lemma OverlapReportsStep(keys: seq<PathKey>, i: nat, others: map<PathKey, nat>, topLevel: string, otherTopLevel: string)
    requires i < |keys|
    ensures OverlapReports(keys[..i + 1], others, topLevel, otherTopLevel) ==
      OverlapReports(keys[..i], others, topLevel, otherTopLevel)
      + (if keys[i] in others then [OverlapReport(keys[i], topLevel, otherTopLevel)] else [])
  {
    assert keys[..i + 1][..i] == keys[..i];
  }

  /** One more key, as the error sink sees it: the report is kept when its id is enabled. */
  lemma OverlapErrorsStep(base: seq<Diagnostic>, enabled: set<ErrorId>, keys: seq<PathKey>, i: nat,
                          others: map<PathKey, nat>, topLevel: string, otherTopLevel: string)
    requires i < |keys|
    ensures base + Kept(enabled, OverlapReports(keys[..i + 1], others, topLevel, otherTopLevel)) ==
      base + Kept(enabled, OverlapReports(keys[..i], others, topLevel, otherTopLevel))
      + (if keys[i] in others && ProjectsOverlapped in enabled then [OverlapReport(keys[i], topLevel, otherTopLevel)] else [])
  {
    var prev := OverlapReports(keys[..i], others, topLevel, otherTopLevel);
    OverlapReportsStep(keys, i, others, topLevel, otherTopLevel);
    if keys[i] in others {
      KeptSnoc(enabled, prev, OverlapReport(keys[i], topLevel, otherTopLevel));
    } else {
      assert prev + [] == prev;
    }
  }

  /** One report per shared key, in key order; none exactly when no key is shared. */
  lemma {:induction false} OverlapReportsMeaning(keys: seq<PathKey>, others: map<PathKey, nat>,
                                                 topLevel: string, otherTopLevel: string)
    ensures var r := OverlapReports(keys, others, topLevel, otherTopLevel);
      && |r| <= |keys|
      && (r == [] <==> forall k :: k in keys ==> k !in others)
      && (forall d :: d in r ==> exists k :: k in keys && k in others && d == OverlapReport(k, topLevel, otherTopLevel))
      && (forall k :: k in keys && k in others ==> OverlapReport(k, topLevel, otherTopLevel) in r)
  {
    if keys != [] {
      var front := keys[..|keys| - 1];
      var key := keys[|keys| - 1];
      OverlapReportsMeaning(front, others, topLevel, otherTopLevel);
      assert keys == front + [key];
    }
  }

  /** The keys in order are exactly the dictionary's keys. */
  lemma KeysAreKeyOrder(reg: Registry)
    requires reg.Valid()
    ensures forall k :: k in reg.projectInfo <==> k in reg.keyOrder
  {
    forall k | k in reg.projectInfo
      ensures k in reg.keyOrder
    {
      assert reg.keyOrder[reg.projectInfo[k]] == k;
    }
  }

  // ---------------------------------------------------------------------
  // UnsafeImports
  // ---------------------------------------------------------------------

  /** The lower-case forms of some strings: what a case-insensitive set compares. */
  function LowerSet(xs: seq<string>): set<string> {
    set x | x in xs :: Lower(x)
  }

  /** Contains on a HashSet with an ignore-case comparer. */
  predicate HasIgnoringCase(xs: seq<string>, x: string) {
    Lower(x) in LowerSet(xs)
  }

  /** No two entries are equal ignoring case. */
  predicate CaseDistinct(xs: seq<string>) {
    forall i, j :: 0 <= i < j < |xs| ==> Lower(xs[i]) != Lower(xs[j])
  }

  /** The records of the accepted projects, in the order they were accepted. */
  function AcceptedInfos(records: seq<ProjectInfo>, actual: seq<nat>): (ps: seq<ProjectInfo>)
    requires forall k :: 0 <= k < |actual| ==> actual[k] < |records|
    ensures |ps| == |actual| && forall k :: 0 <= k < |actual| ==> ps[k] == records[actual[k]]
  {
    seq(|actual|, k requires 0 <= k < |actual| => records[actual[k]])
  }

  /** The imported files of the record at i, when its project was loaded. */
  function ImportsOf(records: seq<ProjectInfo>, i: nat): seq<string> {
    if i < |records| && records[i].project.Some? then records[i].project.value.importedFiles else []
  }

  /** The imported files of the accepted projects, project by project. */
  function AllImports(records: seq<ProjectInfo>, actual: seq<nat>): seq<string> {
    if actual == [] then []
    else AllImports(records, actual[..|actual| - 1]) + ImportsOf(records, actual[|actual| - 1])
  }

  /** The unsafe-import set after adding `imports` to `found`: Add is a no-op for a path already present in any case. */
  function UnsafeAmong(safe: seq<string>, found: seq<string>, imports: seq<string>): seq<string> {
    if imports == [] then found
    else
      var before := UnsafeAmong(safe, found, imports[..|imports| - 1]);
      var path := imports[|imports| - 1];
      if !HasIgnoringCase(safe, path) && !HasIgnoringCase(before, path) then before + [path] else before
  }

  /** One more import: it is added when neither the allow-list nor the set so far holds it in any case. */
  lemma UnsafeAmongSnoc(safe: seq<string>, found: seq<string>, imports: seq<string>, path: string)
    ensures var before := UnsafeAmong(safe, found, imports);
      UnsafeAmong(safe, found, imports + [path]) ==
        if !HasIgnoringCase(safe, path) && !HasIgnoringCase(before, path) then before + [path] else before
  {
    assert (imports + [path])[..|imports|] == imports;
  }

  /** Adding a run of imports and then another is adding them all. */
  lemma {:induction false} UnsafeAmongAppend(safe: seq<string>, found: seq<string>, a: seq<string>, b: seq<string>)
    ensures UnsafeAmong(safe, found, a + b) == UnsafeAmong(safe, UnsafeAmong(safe, found, a), b)
    decreases |b|
  {
    if b == [] {
      assert a + b == a;
    } else {
      var front := b[..|b| - 1];
      var path := b[|b| - 1];
      assert a + b == (a + front) + [path];
      assert b == front + [path];
      UnsafeAmongAppend(safe, found, a, front);
      UnsafeAmongSnoc(safe, found, a + front, path);
      UnsafeAmongSnoc(safe, UnsafeAmong(safe, found, a), front, path);
    }
  }

  /** The inner loop of UnsafeImports: each import of one project, in order. */
  method AddUnsafe(safe: seq<string>, found: seq<string>, imports: seq<string>) returns (r: seq<string>)
    ensures r == UnsafeAmong(safe, found, imports)
  {
    r := found;
    var j := 0;
    while j < |imports|
      invariant j <= |imports|
      invariant r == UnsafeAmong(safe, found, imports[..j])
    {
      var path := imports[j];
      UnsafeAmongSnoc(safe, found, imports[..j], path);
      if !HasIgnoringCase(safe, path) && !HasIgnoringCase(r, path) {
        r := r + [path];
      }
      assert imports[..j + 1] == imports[..j] + [path];
      j := j + 1;
    }
    assert imports[..j] == imports;
  }

  /** One more accepted project: its imports follow those of the projects before it. */
  lemma AllImportsStep(records: seq<ProjectInfo>, actual: seq<nat>, k: nat)
    requires k < |actual|
    ensures AllImports(records, actual[..k + 1]) == AllImports(records, actual[..k]) + ImportsOf(records, actual[k])
  {
    assert actual[..k + 1][..k] == actual[..k];
  }

  lemma LowerSetSnoc(xs: seq<string>, x: string)
    ensures LowerSet(xs + [x]) == LowerSet(xs) + {Lower(x)}
  {
    assert forall y :: y in xs + [x] <==> y in xs || y == x;
  }

  /**
    What UnsafeAmong collects: ignoring case, the paths of found and those
    of imports missing from safe; each once; every entry spelled as it was
    found or imported.
  */
  lemma {:induction false} UnsafeAmongMeaning(safe: seq<string>, found: seq<string>, imports: seq<string>)
    ensures var r := UnsafeAmong(safe, found, imports);
      && LowerSet(r) == LowerSet(found) + (LowerSet(imports) - LowerSet(safe))
      && (CaseDistinct(found) ==> CaseDistinct(r))
      && (forall x :: x in r ==> x in found || x in imports)
      && |found| <= |r| && r[..|found|] == found
  {
    if imports != [] {
      var front := imports[..|imports| - 1];
      var path := imports[|imports| - 1];
      var before := UnsafeAmong(safe, found, front);
      UnsafeAmongMeaning(safe, found, front);
      assert imports == front + [path];
      LowerSetSnoc(front, path);
      if !HasIgnoringCase(safe, path) && !HasIgnoringCase(before, path) {
        LowerSetSnoc(before, path);
        assert (before + [path])[..|found|] == before[..|found|];
      }
    }
  }

  /** Nothing is collected exactly when the allow-list holds every import, ignoring case. */
  lemma {:induction false} UnsafeAmongEmpty(safe: seq<string>, imports: seq<string>)
    ensures UnsafeAmong(safe, [], imports) == [] <==> forall x :: x in imports ==> HasIgnoringCase(safe, x)
  {
    if imports != [] {
      var front := imports[..|imports| - 1];
      var path := imports[|imports| - 1];
      UnsafeAmongEmpty(safe, front);
      assert imports == front + [path];
      var before := UnsafeAmong(safe, [], front);
      if before != [] {
        UnsafeAmongMeaning(safe, [], imports);
      }
    }
  }

  /** The imports of the accepted projects are those of each accepted project. */
  lemma {:induction false} AllImportsMeaning(records: seq<ProjectInfo>, actual: seq<nat>)
    ensures forall x :: x in AllImports(records, actual) <==>
      exists k :: 0 <= k < |actual| && x in ImportsOf(records, actual[k])
  {
    if actual != [] {
      var front := actual[..|actual| - 1];
      AllImportsMeaning(records, front);
      forall x | x in AllImports(records, actual)
        ensures exists k :: 0 <= k < |actual| && x in ImportsOf(records, actual[k])
      {
        if x in AllImports(records, front) {
          var k :| 0 <= k < |front| && x in ImportsOf(records, front[k]);
          assert actual[k] == front[k];
        } else {
          assert x in ImportsOf(records, actual[|actual| - 1]);
        }
      }
      forall x, k | 0 <= k < |actual| && x in ImportsOf(records, actual[k])
        ensures x in AllImports(records, actual)
      {
        if k < |front| {
          assert front[k] == actual[k];
        }
      }
    }
  }

  /**
    UnsafeImports as a whole: ignoring case, exactly the accepted projects'
    imports that the allow-list lacks, each once.
  */
  lemma UnsafeImportsMeaning(safe: seq<string>, records: seq<ProjectInfo>, actual: seq<nat>)
    ensures var r := UnsafeAmong(safe, [], AllImports(records, actual));
      && CaseDistinct(r)
      && (forall x :: HasIgnoringCase(r, x) <==>
            exists k, y :: 0 <= k < |actual| && y in ImportsOf(records, actual[k]) && Lower(y) == Lower(x)
                           && !HasIgnoringCase(safe, y))
  {
    var all := AllImports(records, actual);
    UnsafeAmongMeaning(safe, [], all);
    AllImportsMeaning(records, actual);
    var r := UnsafeAmong(safe, [], all);
    forall x | HasIgnoringCase(r, x)
      ensures exists k, y :: 0 <= k < |actual| && y in ImportsOf(records, actual[k]) && Lower(y) == Lower(x)
                             && !HasIgnoringCase(safe, y)
    {
      assert Lower(x) in LowerSet(all) - LowerSet(safe);
      var y :| y in all && Lower(y) == Lower(x);
      assert !HasIgnoringCase(safe, y);
      var k :| 0 <= k < |actual| && y in ImportsOf(records, actual[k]);
    }
    forall x, k, y | 0 <= k < |actual| && y in ImportsOf(records, actual[k]) && Lower(y) == Lower(x)
                     && !HasIgnoringCase(safe, y)
      ensures HasIgnoringCase(r, x)
    {
      assert y in all;
    }
  }

  /** Some path of the list is Bad. */
  predicate SomeBad(world: World, pathnames: seq<string>) {
    exists i :: 0 <= i < |pathnames| && GetFileType(world, pathnames[i]) == Bad
  }

  /** A directory's entries, as AddEntriesToParseFiles makes them: its project files, then its subdirectories'. */
  lemma DirectoryEntries(world: World, pathname: string, recurse: bool, pushed0: seq<string>,
                         errors0: seq<Diagnostic>, enabled: set<ErrorId>)
    requires world.Valid() && GetFileType(world, pathname) == FileType.Directory
    ensures var e := EntriesFor(world, pathname, recurse);
      var below := if recurse then EntriesUnder(world, world.subdirectories(pathname), world.height(pathname)) else NoEntries;
      && pushed0 + e.pushed == (pushed0 + world.projectFilesIn(pathname)) + below.pushed
      && errors0 + Kept(enabled, e.reports) == errors0 + Kept(enabled, below.reports)
  {
    var below := if recurse then EntriesUnder(world, world.subdirectories(pathname), world.height(pathname)) else NoEntries;
    assert [] + below.reports == below.reports;
  }

  /** Applying a then b to a stack and a report list is applying Then(a, b). */
  lemma ThenAccumulates(a: Entries, b: Entries, enabled: set<ErrorId>, pushed0: seq<string>, errors0: seq<Diagnostic>,
                        pushed1: seq<string>, errors1: seq<Diagnostic>, pushed2: seq<string>, errors2: seq<Diagnostic>)
    requires pushed1 == pushed0 + a.pushed && errors1 == errors0 + Kept(enabled, a.reports)
    requires pushed2 == pushed1 + b.pushed && errors2 == errors1 + Kept(enabled, b.reports)
    ensures pushed2 == pushed0 + Then(a, b).pushed && errors2 == errors0 + Kept(enabled, Then(a, b).reports)
  {
    KeptAppend(enabled, a.reports, b.reports);
    AppendInTwoSteps(pushed0, a.pushed, b.pushed, pushed1, pushed2);
    AppendInTwoSteps(errors0, Kept(enabled, a.reports), Kept(enabled, b.reports), errors1, errors2);
  }

  /** One step of AddSubdirectories's loop, as the queue and the error sink see it. */
  lemma UnderAccumulates(world: World, dirs: seq<string>, k: nat, bound: nat, enabled: set<ErrorId>,
                         pushed0: seq<string>, errors0: seq<Diagnostic>, pushed1: seq<string>, errors1: seq<Diagnostic>,
                         pushed2: seq<string>, errors2: seq<Diagnostic>)
    requires world.Valid() && k < |dirs|
    requires forall c :: c in dirs ==> world.height(c) < bound
    requires var u := EntriesUnder(world, dirs[..k], bound);
      pushed1 == pushed0 + u.pushed && errors1 == errors0 + Kept(enabled, u.reports)
    requires var b := EntriesFor(world, dirs[k], true);
      pushed2 == pushed1 + b.pushed && errors2 == errors1 + Kept(enabled, b.reports)
    ensures var u := EntriesUnder(world, dirs[..k + 1], bound);
      pushed2 == pushed0 + u.pushed && errors2 == errors0 + Kept(enabled, u.reports)
  {
    UnderStep(world, dirs, k, bound);
    ThenAccumulates(EntriesUnder(world, dirs[..k], bound), EntriesFor(world, dirs[k], true), enabled,
                    pushed0, errors0, pushed1, errors1, pushed2, errors2);
  }

  /** One step of AddAllEntriesToParseFiles's loop, as the queue and the error sink see it. */
  lemma AllAccumulates(world: World, pathnames: seq<string>, k: nat, recurse: bool, enabled: set<ErrorId>,
                       pushed0: seq<string>, errors0: seq<Diagnostic>, pushed1: seq<string>, errors1: seq<Diagnostic>,
                       pushed2: seq<string>, errors2: seq<Diagnostic>)
    requires world.Valid() && k < |pathnames|
    requires var u := EntriesOfAll(world, pathnames[..k], recurse);
      pushed1 == pushed0 + u.pushed && errors1 == errors0 + Kept(enabled, u.reports)
    requires var b := EntriesFor(world, pathnames[k], recurse);
      pushed2 == pushed1 + b.pushed && errors2 == errors1 + Kept(enabled, b.reports)
    ensures var u := EntriesOfAll(world, pathnames[..k + 1], recurse);
      pushed2 == pushed0 + u.pushed && errors2 == errors0 + Kept(enabled, u.reports)
    ensures SomeBad(world, pathnames[..k + 1]) <==>
      SomeBad(world, pathnames[..k]) || GetFileType(world, pathnames[k]) == Bad
  {
    AllStep(world, pathnames, k, recurse);
    ThenAccumulates(EntriesOfAll(world, pathnames[..k], recurse), EntriesFor(world, pathnames[k], recurse), enabled,
                    pushed0, errors0, pushed1, errors1, pushed2, errors2);
  }

  /** One step of AddSubdirectories's loop. */
  lemma UnderStep(world: World, dirs: seq<string>, k: nat, bound: nat)
    requires world.Valid() && k < |dirs|
    requires forall c :: c in dirs ==> world.height(c) < bound
    ensures EntriesUnder(world, dirs[..k + 1], bound) == Then(EntriesUnder(world, dirs[..k], bound), EntriesFor(world, dirs[k], true))
  {
    assert dirs[..k + 1][..k] == dirs[..k];
  }

  /** One step of AddAllEntriesToParseFiles's loop. */
  lemma AllStep(world: World, pathnames: seq<string>, k: nat, recurse: bool)
    requires world.Valid() && k < |pathnames|
    ensures EntriesOfAll(world, pathnames[..k + 1], recurse)
      == Then(EntriesOfAll(world, pathnames[..k], recurse), EntriesFor(world, pathnames[k], recurse))
    ensures SomeBad(world, pathnames[..k + 1]) <==>
      SomeBad(world, pathnames[..k]) || GetFileType(world, pathnames[k]) == Bad
  {
    assert pathnames[..k + 1][..k] == pathnames[..k];
    if GetFileType(world, pathnames[k]) == Bad {
      assert pathnames[..k + 1][k] == pathnames[k];
    }
  }

  /** The walk FindAllReferences makes over a loaded record. */
  function RecordWalk(world: World, info: ProjectInfo, slnFile: Option<string>, skipRefs: bool): Walked
    requires world.Valid() && info.project.Some?
  {
    WalkReferences(world, info.path.directoryName, ReferenceItems(info.project.value), slnFile, skipRefs)
  }

  /**
    How the registry changes while the closure is processed: records are only
    added, and an existing record changes only by being marked processed;
    a registered key keeps its record.
  */
  ghost predicate Grown(r0: Registry, r1: Registry) {
    && |r0.records| <= |r1.records|
    && (forall i :: 0 <= i < |r0.records| ==>
          && r1.records[i].path == r0.records[i].path
          && r1.records[i].project == r0.records[i].project
          && r1.records[i].valid == r0.records[i].valid
          && (r0.records[i].processed ==> r1.records[i].processed))
    && (forall k :: k in r0.projectInfo ==> k in r1.projectInfo && r1.projectInfo[k] == r0.projectInfo[k])
  }

  lemma GrownTransitive(r0: Registry, r1: Registry, r2: Registry)
    requires Grown(r0, r1) && Grown(r1, r2)
    ensures Grown(r0, r2)
  {
  }

  /** The valid records not yet processed. */
  ghost function Unprocessed(r: Registry): set<nat> {
    set i: nat | i < |r.records| && r.records[i].valid && !r.records[i].processed
  }

  /** Marking a valid, unprocessed record grows the registry and shrinks the unprocessed set. */
  lemma MarkProcessedShrinks(r: Registry, index: nat)
    requires index < |r.records| && r.records[index].valid && !r.records[index].processed
    ensures Grown(r, r.MarkProcessed(index))
    ensures Unprocessed(r.MarkProcessed(index)) <= Unprocessed(r)
    ensures index in Unprocessed(r) && index !in Unprocessed(r.MarkProcessed(index))
  {
  }

  /** Registering a new key grows the registry. */
  lemma AddGrows(r: Registry, key: PathKey, info: ProjectInfo)
    requires r.Valid() && key !in r.projectInfo
    ensures Grown(r, r.Add(key, info))
  {
  }

  /** What a visit keeps: the accepted records stay accepted and filed, and the visited one may join them. */
  lemma VisitKeepsAccepted(reg: Registry, actual: seq<nat>, before: seq<NestingDir>, after: seq<NestingDir>,
                           index: nat, accept: bool)
    requires WellFormed(after) && Extends(before, after) && Filed(reg, actual, before)
    requires index < |reg.records| && reg.records[index].valid && !reg.records[index].processed
    requires Walk(after, 0, Keys(reg.records[index].path)).Some?
    ensures Filed(reg.MarkProcessed(index), actual + (if accept then [index] else []), after)
  {
    var r, a := reg.MarkProcessed(index), actual + (if accept then [index] else []);
    AcceptedMark(reg, actual, index, accept);
    forall k | 0 <= k < |a|
      ensures Walk(after, 0, Keys(r.records[a[k]].path)).Some?
    {
      if k < |actual| {
        assert r.records[a[k]].path == reg.records[actual[k]].path;
        WalkKept(before, after, 0, Keys(reg.records[actual[k]].path));
      }
    }
  }

  lemma AcceptedMark(reg: Registry, actual: seq<nat>, index: nat, accept: bool)
    requires Accepted(reg, actual)
    requires index < |reg.records| && reg.records[index].valid && !reg.records[index].processed
    ensures Accepted(reg.MarkProcessed(index), actual + (if accept then [index] else []))
  {
    forall k | 0 <= k < |actual|
      ensures actual[k] != index
    {
    }
  }

  /** A record FindAllReferences ran on since r0: valid, processed now and not then. */
  ghost predicate ProcessedSince(r0: Registry, r1: Registry, i: nat) {
    && i < |r1.records| && r1.records[i].valid && r1.records[i].processed
    && !(i < |r0.records| && r0.records[i].processed)
  }

  /** A finite set of keys holding `keys` and the key of every path in `pool`: the measure's bound. */
  lemma KeyUniverse(world: World, keys: set<PathKey>, pool: set<string>) returns (universe: set<PathKey>)
    ensures keys <= universe && forall s :: s in pool ==> RegistryKey(world, s) in universe
  {
    universe := keys + (set s | s in pool :: RegistryKey(world, s));
  }

  /** A set holding the paths of `stack` and the files of the world. */
  lemma StackPool(world: World, stack: seq<string>) returns (pool: set<string>)
    ensures world.files <= pool && forall s :: s in stack ==> s in pool
  {
    pool := (set s | s in stack) + world.files;
  }

  /** The paths of `stack` as a set. */
  lemma StackSet(stack: seq<string>) returns (r: set<string>)
    ensures forall s :: s in r <==> s in stack
  {
    r := set s | s in stack;
  }

  lemma SmallerSet<T>(a: set<T>, b: set<T>, x: T)
    requires a <= b && x in b && x !in a
    ensures |a| < |b|
  {
    assert b == a + (b - a);
    assert |b - a| >= 1 by { assert x in b - a; }
  }

  /** Registering a key of the universe shrinks what is left of it. */
  lemma UniverseShrinks<T>(u: set<T>, keys: set<T>, key: T)
    requires key in u && key !in keys
    ensures |u - (keys + {key})| < |u - keys|
  {
    SmallerSet(u - (keys + {key}), u - keys, key);
  }

  /**
    The invariant of ProcessProjectFiles's loop, from the registry r0, the
    first new accepted position a0 and the stack stack0 it started with.
  */
  ghost predicate Progress(world: World, slnFile: Option<string>, skipRefs: bool, r0: Registry, a0: nat,
                           stack0: seq<string>, pool: set<string>,
                           reg: Registry, actual: seq<nat>, stack: seq<string>, seen: set<string>)
  {
    && world.Valid() && reg.RecordsLoaded() && Grown(r0, reg) && a0 <= |actual|
    && StackSeen(world, pool, stack0, reg, stack, seen)
    && NewProcessed(r0, reg)
    && AcceptedSince(world, slnFile, skipRefs, r0, a0, reg, actual)
    && ReferencesSeen(world, slnFile, skipRefs, a0, reg, actual, seen)
  }

  /**
    Everything on the stack is a path of `pool`, and every path seen on the
    stack (those of stack0 among them) is still there or registered.
  */
  ghost predicate StackSeen(world: World, pool: set<string>, stack0: seq<string>, reg: Registry,
                            stack: seq<string>, seen: set<string>)
  {
    && (forall s :: s in stack ==> s in pool)
    && (forall s :: s in stack0 ==> s in seen)
    && (forall s :: s in seen ==> s in stack || RegistryKey(world, s) in reg.projectInfo)
  }

  /** Every valid record added since r0 is processed. */
  ghost predicate NewProcessed(r0: Registry, reg: Registry) {
    forall i :: |r0.records| <= i < |reg.records| && reg.records[i].valid ==> reg.records[i].processed
  }

  /** The projects accepted from a0 on are those processed since r0 whose walk did not fail. */
  ghost predicate AcceptedSince(world: World, slnFile: Option<string>, skipRefs: bool, r0: Registry, a0: nat,
                                reg: Registry, actual: seq<nat>)
    requires world.Valid() && reg.RecordsLoaded() && a0 <= |actual|
  {
    && (forall k :: a0 <= k < |actual| ==> ProcessedSince(r0, reg, actual[k]))
    && (forall i: nat :: ProcessedSince(r0, reg, i) ==>
          (i in actual[a0..] <==> RecordWalk(world, reg.records[i], slnFile, skipRefs).failure.None?))
  }

  /** Every path pushed by the walk of a project accepted from a0 on has been seen. */
  ghost predicate ReferencesSeen(world: World, slnFile: Option<string>, skipRefs: bool, a0: nat,
                                 reg: Registry, actual: seq<nat>, seen: set<string>)
    requires world.Valid() && reg.RecordsLoaded()
  {
    forall k, p ::
      (&& a0 <= k < |actual| && actual[k] < |reg.records| && reg.records[actual[k]].valid
       && p in RecordWalk(world, reg.records[actual[k]], slnFile, skipRefs).entries.pushed)
      ==> p in seen
  }

  /**
    What StepRegistry implies, as the invariant's lemmas use it: the registry
    grew, only the popped path's record (index) changed, and only when it ran.
  */
  ghost predicate StepFrame(reg: Registry, index: nat, ran: bool, reg1: Registry) {
    && Grown(reg, reg1) && reg1.RecordsLoaded() && index < |reg1.records|
    && (forall j :: 0 <= j < |reg.records| && (j != index || !ran) ==> reg1.records[j] == reg.records[j])
    && |reg1.records| <= |reg.records| + 1 && (|reg.records| < |reg1.records| ==> index == |reg.records|)
    && (reg1.records[index].valid ==> reg1.records[index].processed)
    && ran == ProcessedSince(reg, reg1, index)
    && (ran ==> reg1.records[index].project.Some?)
  }

  /**
    What one iteration of ProcessProjectFiles does to the registry, from reg
    through mid (the popped path's record found or added) to reg1 (that
    record marked processed when it ran).
  */
  ghost predicate StepRegistry(world: World, pathname: string, reg: Registry, index: nat, ran: bool,
                               mid: Registry, reg1: Registry)
  {
    var key := RegistryKey(world, pathname);
    && reg.Valid() && mid.Valid()
    && key in mid.projectInfo && mid.projectInfo[key] == index && index < |mid.records|
    && (key in reg.projectInfo ==> mid == reg)
    && (key !in reg.projectInfo ==> mid == reg.Add(key, mid.records[index]) && !mid.records[index].processed)
    && ran == (mid.records[index].valid && !mid.records[index].processed)
    && reg1 == (if ran then mid.MarkProcessed(index) else mid)
  }

  /**
    One iteration of ProcessProjectFiles as a whole: the registry steps as
    StepRegistry says, and when the record ran its walk's pushed paths go on
    the stack and the record is accepted exactly when the walk did not fail.
  */
  ghost predicate Stepped(world: World, slnFile: Option<string>, skipRefs: bool, pathname: string,
                          reg: Registry, popped: seq<string>, actual: seq<nat>, index: nat, ran: bool,
                          mid: Registry, w: Walked, reg1: Registry, actual1: seq<nat>, stack1: seq<string>)
  {
    && world.Valid() && StepRegistry(world, pathname, reg, index, ran, mid, reg1)
    && (ran ==>
          && mid.records[index].project.Some?
          && w == RecordWalk(world, mid.records[index], slnFile, skipRefs)
          && stack1 == popped + w.entries.pushed
          && actual1 == actual + (if w.failure.None? then [index] else []))
    && (!ran ==> stack1 == popped && actual1 == actual)
  }

  /** The registry of one iteration grows and touches only the popped path's record. */
  lemma StepRegistryGrows(world: World, pathname: string, reg: Registry, index: nat, ran: bool, mid: Registry, reg1: Registry)
    requires StepRegistry(world, pathname, reg, index, ran, mid, reg1)
    ensures StepFrame(reg, index, ran, reg1)
  {
    var key := RegistryKey(world, pathname);
    if key !in reg.projectInfo {
      AddGrows(reg, key, mid.records[index]);
      assert index == |reg.records|;
    } else {
      assert mid == reg;
    }
    if ran {
      MarkProcessedShrinks(mid, index);
      GrownTransitive(reg, mid, reg1);
      MarkProcessedKeepsValid(mid, index);
    }
  }

  /** One iteration registers the popped path's key and no other. */
  lemma StepRegistryKeys(world: World, pathname: string, reg: Registry, index: nat, ran: bool, mid: Registry, reg1: Registry)
    requires StepRegistry(world, pathname, reg, index, ran, mid, reg1)
    ensures reg1.projectInfo.Keys == reg.projectInfo.Keys + {RegistryKey(world, pathname)}
  {
  }

  lemma PopSplit<T>(s: seq<T>)
    requires s != []
    ensures s == s[..|s| - 1] + [s[|s| - 1]]
  {
  }

  lemma AppendSlices<T>(a: seq<T>, e: seq<T>, n: nat)
    requires n <= |a|
    ensures (a + e)[..n] == a[..n] && (a + e)[n..] == a[n..] + e
  {
  }

  /** One iteration of ProcessProjectFiles keeps its invariant. */
  lemma StepKeepsProgress(world: World, slnFile: Option<string>, skipRefs: bool, r0: Registry, a0: nat,
                          stack0: seq<string>, pool: set<string>,
                          reg: Registry, actual: seq<nat>, stack: seq<string>, seen: set<string>,
                          index: nat, ran: bool, mid: Registry, w: Walked,
                          reg1: Registry, actual1: seq<nat>, stack1: seq<string>)
    returns (seen1: set<string>)
    requires Progress(world, slnFile, skipRefs, r0, a0, stack0, pool, reg, actual, stack, seen)
    requires world.files <= pool && stack != []
    requires Stepped(world, slnFile, skipRefs, stack[|stack| - 1], reg, stack[..|stack| - 1], actual, index, ran, mid, w,
                     reg1, actual1, stack1)
    ensures Progress(world, slnFile, skipRefs, r0, a0, stack0, pool, reg1, actual1, stack1, seen1)
    ensures actual1[..a0] == actual[..a0]
  {
    seen1 := seen + set s | s in stack1;
    var pathname := stack[|stack| - 1];
    StepRegistryGrows(world, pathname, reg, index, ran, mid, reg1);
    GrownTransitive(r0, reg, reg1);
    var pushed := if ran then w.entries.pushed else [];
    var extra := if ran && w.failure.None? then [index] else [];
    assert stack1 == stack[..|stack| - 1] + pushed;
    assert actual1 == actual + extra;
    AppendSlices(actual, extra, a0);
    if ran {
      var info := mid.records[index];
      WalkMeaning(world, info.path.directoryName, ReferenceItems(info.project.value), slnFile, skipRefs);
      assert reg1.records[index].path == info.path && reg1.records[index].project == info.project;
    }
    StepKeepsStack(world, pool, stack0, reg, stack, seen, reg1, pushed, stack1);
    StepKeepsAccepted(world, slnFile, skipRefs, r0, a0, reg, actual, index, ran, w, reg1, extra, actual1);
    StepKeepsReferences(world, slnFile, skipRefs, r0, a0, reg, actual, seen, index, ran, w, reg1, extra, actual1,
                        seen + (set s | s in stack1), pushed);
  }

  lemma StepKeepsStack(world: World, pool: set<string>, stack0: seq<string>, reg: Registry, stack: seq<string>,
                       seen: set<string>, reg1: Registry, pushed: seq<string>, stack1: seq<string>)
    requires StackSeen(world, pool, stack0, reg, stack, seen)
    requires stack != [] && stack1 == stack[..|stack| - 1] + pushed
    requires forall s :: s in pushed ==> s in pool
    requires Grown(reg, reg1) && RegistryKey(world, stack[|stack| - 1]) in reg1.projectInfo
    ensures StackSeen(world, pool, stack0, reg1, stack1, seen + set s | s in stack1)
  {
    var pathname := stack[|stack| - 1];
    var popped := stack[..|stack| - 1];
    PopSplit(stack);
    var seen1 := seen + set s | s in stack1;
    forall s | s in seen1
      ensures s in stack1 || RegistryKey(world, s) in reg1.projectInfo
    {
      if s in seen && s !in stack && s != pathname {
        assert RegistryKey(world, s) in reg.projectInfo;
      } else if s in stack && s != pathname {
        assert s in popped;
      }
    }
  }

  lemma StepKeepsAccepted(world: World, slnFile: Option<string>, skipRefs: bool, r0: Registry, a0: nat,
                          reg: Registry, actual: seq<nat>, index: nat, ran: bool, w: Walked,
                          reg1: Registry, extra: seq<nat>, actual1: seq<nat>)
    requires world.Valid() && reg.RecordsLoaded() && a0 <= |actual| && Grown(r0, reg) && Grown(r0, reg1)
    requires AcceptedSince(world, slnFile, skipRefs, r0, a0, reg, actual) && NewProcessed(r0, reg)
    requires StepFrame(reg, index, ran, reg1)
    requires ran ==> w == RecordWalk(world, reg1.records[index], slnFile, skipRefs)
    requires extra == (if ran && w.failure.None? then [index] else [])
    requires actual1 == actual + extra && actual1[a0..] == actual[a0..] + extra
    ensures AcceptedSince(world, slnFile, skipRefs, r0, a0, reg1, actual1)
    ensures NewProcessed(r0, reg1)
  {
    if ran {
      assert ProcessedSince(reg, reg1, index);
      assert ProcessedSince(r0, reg1, index);
    }
    forall k | a0 <= k < |actual1|
      ensures ProcessedSince(r0, reg1, actual1[k])
    {
      if k < |actual| {
        var j := actual[k];
        assert ProcessedSince(r0, reg, j);
        assert j < |reg.records| && reg.records[j].processed;
        assert !ProcessedSince(reg, reg1, j);
        assert reg1.records[j] == reg.records[j];
      }
    }
    forall i: nat | ProcessedSince(r0, reg1, i)
      ensures i in actual1[a0..] <==> RecordWalk(world, reg1.records[i], slnFile, skipRefs).failure.None?
    {
      if i == index && ran {
        forall k | a0 <= k < |actual| ensures actual[k] != index {
          assert ProcessedSince(r0, reg, actual[k]);
          assert reg.records[actual[k]].processed;
        }
        assert i !in actual[a0..];
      } else {
        if i >= |reg.records| {
          assert i == index && !ran;
          assert ProcessedSince(reg, reg1, i);
          assert false;
        }
        assert reg1.records[i] == reg.records[i];
        assert ProcessedSince(r0, reg, i);
      }
    }
    forall i | |r0.records| <= i < |reg1.records| && reg1.records[i].valid
      ensures reg1.records[i].processed
    {
      if i != index || !ran {
        if i < |reg.records| {
          assert reg1.records[i] == reg.records[i];
        }
      }
    }
  }

  lemma StepKeepsReferences(world: World, slnFile: Option<string>, skipRefs: bool, r0: Registry, a0: nat,
                            reg: Registry, actual: seq<nat>, seen: set<string>, index: nat, ran: bool, w: Walked,
                            reg1: Registry, extra: seq<nat>, actual1: seq<nat>, seen1: set<string>, pushed: seq<string>)
    requires world.Valid() && reg.RecordsLoaded() && a0 <= |actual|
    requires AcceptedSince(world, slnFile, skipRefs, r0, a0, reg, actual)
    requires ReferencesSeen(world, slnFile, skipRefs, a0, reg, actual, seen)
    requires StepFrame(reg, index, ran, reg1)
    requires ran ==> w == RecordWalk(world, reg1.records[index], slnFile, skipRefs) && pushed == w.entries.pushed
    requires extra == (if ran && w.failure.None? then [index] else [])
    requires actual1 == actual + extra
    requires seen <= seen1 && forall s :: s in pushed ==> s in seen1
    ensures ReferencesSeen(world, slnFile, skipRefs, a0, reg1, actual1, seen1)
  {
    forall k, p | a0 <= k < |actual1| && actual1[k] < |reg1.records| && reg1.records[actual1[k]].valid &&
                  p in RecordWalk(world, reg1.records[actual1[k]], slnFile, skipRefs).entries.pushed
      ensures p in seen1
    {
      if k < |actual| {
        assert ProcessedSince(r0, reg, actual[k]);
      }
    }
  }

  /**
    What ProcessProjectFiles leaves, from the registry r0, the first new
    accepted position a0 and the stack stack0 it started with: every path
    that was on the stack is registered; every new valid record is
    processed; a record processed since r0 is accepted exactly when its walk
    did not fail; and every file a new accepted project references (every
    path its walk pushed) is registered.
  */
  ghost predicate Closed(world: World, slnFile: Option<string>, skipRefs: bool, r0: Registry, a0: nat,
                         stack0: seq<string>, reg: Registry, actual: seq<nat>)
  {
    && world.Valid() && reg.RecordsLoaded() && Grown(r0, reg) && a0 <= |actual|
    && (forall s :: s in stack0 ==> RegistryKey(world, s) in reg.projectInfo)
    && (forall i :: |r0.records| <= i < |reg.records| && reg.records[i].valid ==> reg.records[i].processed)
    && (forall k :: a0 <= k < |actual| ==> ProcessedSince(r0, reg, actual[k]))
    && (forall i: nat :: ProcessedSince(r0, reg, i) ==>
          (i in actual[a0..] <==> RecordWalk(world, reg.records[i], slnFile, skipRefs).failure.None?))
    && (forall k, p :: a0 <= k < |actual| && p in RecordWalk(world, reg.records[actual[k]], slnFile, skipRefs).entries.pushed
          ==> RegistryKey(world, p) in reg.projectInfo)
  }

  /** Once the stack is empty, the loop's invariant is the closure's promise. */
  lemma ProgressCloses(world: World, slnFile: Option<string>, skipRefs: bool, r0: Registry, a0: nat,
                       stack0: seq<string>, pool: set<string>, reg: Registry, actual: seq<nat>, seen: set<string>)
    requires Progress(world, slnFile, skipRefs, r0, a0, stack0, pool, reg, actual, [], seen)
    ensures Closed(world, slnFile, skipRefs, r0, a0, stack0, reg, actual)
  {
  }

  /** ProcessProjectFiles's measure, compared lexicographically, went down from (reg, stack) to (reg1, stack1). */
  ghost predicate Decreased(universe: set<PathKey>, reg: Registry, reg1: Registry, stack: seq<string>, stack1: seq<string>) {
    var u0, u1 := |universe - reg.projectInfo.Keys|, |universe - reg1.projectInfo.Keys|;
    || u1 < u0
    || (u1 == u0 && |Unprocessed(reg1)| < |Unprocessed(reg)|)
    || (u1 == u0 && |Unprocessed(reg1)| == |Unprocessed(reg)| && |stack1| < |stack|)
  }

  lemma StepDecreases(universe: set<PathKey>, world: World, pathname: string, reg: Registry, index: nat, ran: bool,
                      mid: Registry, reg1: Registry, stack: seq<string>, stack1: seq<string>)
    requires stack != [] && RegistryKey(world, pathname) in universe
    requires StepRegistry(world, pathname, reg, index, ran, mid, reg1)
    requires !ran ==> stack1 == stack[..|stack| - 1]
    ensures Decreased(universe, reg, reg1, stack, stack1)
  {
    var key := RegistryKey(world, pathname);
    StepRegistryKeys(world, pathname, reg, index, ran, mid, reg1);
    StepRegistryGrows(world, pathname, reg, index, ran, mid, reg1);
    if key !in reg.projectInfo {
      UniverseShrinks(universe, reg.projectInfo.Keys, key);
    } else if ran {
      MarkProcessedShrinks(reg, index);
      SmallerSet(Unprocessed(reg1), Unprocessed(reg), index);
    }
  }

  /** A grown registry keeps the accepted records accepted, with their paths. */
  lemma GrownKeepsAccepted(r0: Registry, r1: Registry, actual: seq<nat>, nodes: seq<NestingDir>)
    requires Grown(r0, r1) && Filed(r0, actual, nodes)
    ensures Filed(r1, actual, nodes)
  {
  }

  /** The accepted records, each filed in the nesting tree under its directory. */
  ghost predicate Filed(reg: Registry, actual: seq<nat>, nodes: seq<NestingDir>) {
    && WellFormed(nodes)
    && Accepted(reg, actual)
    && forall k :: 0 <= k < |actual| ==> Walk(nodes, 0, Keys(reg.records[actual[k]].path)).Some?
  }

  ghost predicate Accepted(reg: Registry, actual: seq<nat>) {
    && (forall k :: 0 <= k < |actual| ==>
          actual[k] < |reg.records| && reg.records[actual[k]].valid && reg.records[actual[k]].processed)
    && (forall j, k :: 0 <= j < k < |actual| ==> actual[j] != actual[k])
  }
}
