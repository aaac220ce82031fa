/**
  MProjToCsProj (slngen/MProjToCsProj.cs): the rewrite that turns an M
  project (.mproj) into a generated C# project. The MSBuild object model is
  abstracted to its imports, item groups and property groups; loading the
  .mproj, deleting the old output and saving the result are I/O.
*/
module MProj {
  import opened Wrappers
  import opened Text
  import opened VSPaths

  const BuildSettings: string := "MICROSOFT.BUILD.SETTINGS"
  const CSharpTargets: string := "$(MSBuildBinPath)\\Microsoft.CSharp.targets"
  const MTargets: string := "MICROSOFT.M.TARGETS"
  const MTargetsPath: string := "$(MTargetsPath)"
  const MEmbeddedTargets: string := "$(MSBuildExtensionsPath32)\\Microsoft\\M\\v1.0\\Microsoft.M.Embedded.targets"
  const OsloCSharpTargets: string := "$(PkgMsBuild_Corext_3_5)\\Microsoft.Build.CSharp.targets"
  const OsloMTargets: string := "$(INETROOT)\\PRIVATE\\TOOLS\\BUILD\\MICROSOFT.OSLO.M.TARGETS"
  const OsloMEmbeddedTargets: string := "$(INETROOT)\\PRIVATE\\TOOLS\\BUILD\\Microsoft.Oslo.M.Embedded.targets"

  /** An Import element: the project path as written, and whether it comes from an imported file. */
  datatype Import = Import(projectPath: string, isImported: bool)

  /** A build item: its item name (type) and its Include, here `spec`. */
  datatype Item = Item(name: string, spec: string)

  datatype ItemGroup = ItemGroup(isImported: bool, items: seq<Item>)

  datatype Property = Property(name: string, value: string)

  datatype PropertyGroup = PropertyGroup(isImported: bool, properties: seq<Property>)

  /**
    A loaded project. evaluatedAssemblyName is what GetEvaluatedProperty
    ("AssemblyName") gives ("" standing for null, which concatenates the same);
    setProperties are the values SetProperty has assigned.
  */
  datatype MsProject = MsProject(
    imports: seq<Import>,
    itemGroups: seq<ItemGroup>,
    propertyGroups: seq<PropertyGroup>,
    evaluatedAssemblyName: string,
    setProperties: map<string, string>)

  // ---------------------------------------------------------------------
  // Imports
  // ---------------------------------------------------------------------

  /** The first test of the import loop: a local import of the M targets. */
  predicate IsMTargetsImport(i: Import) {
    var upper := Upper(i.projectPath);
    !i.isImported
    && (Contains(upper, MTargets) || Contains(upper, OsloMTargets) || Contains(i.projectPath, MTargetsPath))
  }

  /** The second test, reached only when the first fails. */
  predicate NamesBuildSettings(i: Import) {
    Contains(Upper(i.projectPath), BuildSettings)
  }

  /** importToRemove after the loop: the last import that passes the first test. */
  function LastMTargetsImport(imports: seq<Import>): (r: Option<nat>)
    ensures r.Some? ==> r.value < |imports| && IsMTargetsImport(imports[r.value])
    ensures r.Some? ==> forall j :: r.value < j < |imports| ==> !IsMTargetsImport(imports[j])
    ensures r.None? ==> forall j :: 0 <= j < |imports| ==> !IsMTargetsImport(imports[j])
  {
    if imports == [] then None
    else if IsMTargetsImport(imports[|imports| - 1]) then Some(|imports| - 1)
    else LastMTargetsImport(imports[..|imports| - 1])
  }

  /** isOslo after the loop: some import that fails the first test names the build settings. */
  predicate IsOsloProject(imports: seq<Import>) {
    exists j :: 0 <= j < |imports| && !IsMTargetsImport(imports[j]) && NamesBuildSettings(imports[j])
  }

  /** The two imports added after the removal. */
  function AddedImports(isOslo: bool): seq<Import> {
    if isOslo then [Import(OsloCSharpTargets, false), Import(OsloMEmbeddedTargets, false)]
    else [Import(CSharpTargets, false), Import(MEmbeddedTargets, false)]
  }

  function RemoveAt<T>(s: seq<T>, k: nat): seq<T>
    requires k < |s|
  {
    s[..k] + s[k + 1..]
  }

  lemma RemoveAtShape<T>(s: seq<T>, k: nat)
    requires k < |s|
    ensures |RemoveAt(s, k)| == |s| - 1
    ensures forall j :: 0 <= j < k ==> RemoveAt(s, k)[j] == s[j]
    ensures forall j :: k < j < |s| ==> RemoveAt(s, k)[j - 1] == s[j]
  {
  }

  /** The imports after the first step of the conversion. */
  function ConvertedImports(imports: seq<Import>): seq<Import> {
    var kept := match LastMTargetsImport(imports)
      case None => imports
      case Some(k) => RemoveAt(imports, k);
    kept + AddedImports(IsOsloProject(imports))
  }

  lemma LastMTargetsSnoc(imports: seq<Import>, i: nat)
    requires i < |imports|
    ensures LastMTargetsImport(imports[..i + 1])
      == if IsMTargetsImport(imports[i]) then Some(i) else LastMTargetsImport(imports[..i])
  {
    assert imports[..i + 1][..i] == imports[..i];
  }

  lemma IsOsloSnoc(imports: seq<Import>, i: nat)
    requires i < |imports|
    ensures IsOsloProject(imports[..i + 1])
      == (IsOsloProject(imports[..i]) || (!IsMTargetsImport(imports[i]) && NamesBuildSettings(imports[i])))
  {
    var p := imports[..i + 1];
    assert forall j :: 0 <= j < i ==> p[j] == imports[..i][j];
    assert p[i] == imports[i];
  }

  /** Only the last local M-targets import goes; every other import stays, in order. */
  lemma OnlyLastMTargetsRemoved(imports: seq<Import>)
    ensures var r := ConvertedImports(imports);
      match LastMTargetsImport(imports)
      case None => |r| == |imports| + 2 && r[..|imports|] == imports
      case Some(k) =>
        && |r| == |imports| + 1
        && (forall j :: 0 <= j < k ==> r[j] == imports[j])
        && (forall j :: k < j < |imports| ==> r[j - 1] == imports[j] && !IsMTargetsImport(r[j - 1]))
  {
    var r := ConvertedImports(imports);
    match LastMTargetsImport(imports)
    case None =>
      assert r[..|imports|] == imports;
    case Some(k) =>
      RemoveAtShape(imports, k);
      assert r[..|imports| - 1] == RemoveAt(imports, k);
  }

  /** The added pair ends the list. */
  lemma AddedImportsLast(imports: seq<Import>)
    ensures var r := ConvertedImports(imports);
      |r| >= 2 && r[|r| - 2..] == AddedImports(IsOsloProject(imports))
  {
    var r := ConvertedImports(imports);
    var kept := r[..|r| - 2];
    assert r == kept + AddedImports(IsOsloProject(imports));
  }

  /** An M-targets import never makes the project an Oslo one, even when it names the build settings. */
  lemma MTargetsImportsNeverSelectOslo(imports: seq<Import>)
    requires forall j :: 0 <= j < |imports| && NamesBuildSettings(imports[j]) ==> IsMTargetsImport(imports[j])
    ensures AddedImports(IsOsloProject(imports)) == [Import(CSharpTargets, false), Import(MEmbeddedTargets, false)]
  {
  }

  // ---------------------------------------------------------------------
  // Items
  // ---------------------------------------------------------------------

  /** The item switch of the second step. */
  function RenamedItem(item: Item): Item {
    if item.name == "Compile" then item.(name := "MCompile")
    else if item.name == "Reference" then item.(name := "MReference")
    else if item.name == "EmbeddedResource" then
      if EndsWith(item.spec, "preInstall.sql") then item.(name := "MPreInstallSql")
      else if EndsWith(item.spec, "postInstall.sql") then item.(name := "MPostInstallSql")
      else item.(name := "MResource")
    else if item.name == "PreInstallSql" then item.(name := "MPreInstallSql")
    else if item.name == "PostInstallSql" then item.(name := "MPostInstallSql")
    else if item.name == "ProjectReference" then item.(spec := Replace(item.spec, ".mproj", "_generated.csproj"))
    else item
  }

  function RenamedItems(items: seq<Item>): (r: seq<Item>)
    ensures |r| == |items| && forall k :: 0 <= k < |items| ==> r[k] == RenamedItem(items[k])
  {
    if items == [] then [] else [RenamedItem(items[0])] + RenamedItems(items[1..])
  }

  /** Imported groups are skipped. */
  function ConvertedItemGroup(g: ItemGroup): ItemGroup {
    if g.isImported then g else g.(items := RenamedItems(g.items))
  }

  /** The C# item names the rewrite turns into M ones. */
  predicate IsCSharpItemName(name: string) {
    name == "Compile" || name == "Reference" || name == "EmbeddedResource"
    || name == "PreInstallSql" || name == "PostInstallSql"
  }

  /** After the rewrite no local item keeps a C# item name, and every other name is kept. */
  lemma RenamedItemNames(item: Item)
    ensures !IsCSharpItemName(RenamedItem(item).name)
    ensures !IsCSharpItemName(item.name) ==> RenamedItem(item).name == item.name
    ensures item.name != "ProjectReference" ==> RenamedItem(item).spec == item.spec
  {
  }

  /** ProjectReference: an Include ending in its only ".mproj" names the generated C# project. */
  lemma ProjectReferenceToGenerated(stem: string)
    requires forall i :: 0 <= i < |stem| ==> !OccursAt(stem + ".mproj", ".mproj", i)
    ensures RenamedItem(Item("ProjectReference", stem + ".mproj")).spec == stem + "_generated.csproj"
  {
    ReplaceAtEnd(stem, ".mproj", "_generated.csproj");
  }

  lemma {:induction false} ReplaceAtEnd(a: string, t: string, rep: string)
    requires t != ""
    requires forall i :: 0 <= i < |a| ==> !OccursAt(a + t, t, i)
    ensures Replace(a + t, t, rep) == a + rep
    decreases |a|
  {
    if a == [] {
      assert a + t == t;
      assert t[|t|..] == [];
    } else {
      assert !OccursAt(a + t, t, 0);
      assert (a + t)[1..] == a[1..] + t;
      forall i | 0 <= i < |a[1..]|
        ensures !OccursAt(a[1..] + t, t, i)
      {
        assert !OccursAt(a + t, t, i + 1);
        assert (a + t)[i + 1..i + 1 + |t|] == (a[1..] + t)[i..i + |t|];
      }
      ReplaceAtEnd(a[1..], t, rep);
      assert [a[0]] + (a[1..] + rep) == a + rep;
    }
  }

  // ---------------------------------------------------------------------
  // Properties
  // ---------------------------------------------------------------------

  /** The properties the third step renames, with their new names. */
  const PropertyRenames: seq<(string, string)> := [
    ("Codepage", "MCodepage"),
    ("ConflictLogFile", "MConflictLog"),
    ("DefineConstants", "MDefineConstants"),
    ("FeatureVersion", "MFeatureVersion"),
    ("IncludeStandardLibrary", "MIncludeStandardLibrary"),
    ("NoCatalog", "MNoCatalog"),
    ("NoDeprecationWarnings", "MNoDeprecationWarnings"),
    ("NoWarn", "MNoWarn"),
    ("PrintReport", "MPrintReport"),
    ("ReportConflicts", "MReportConflicts"),
    ("SemanticAnalysisThreshold", "MSemanticAnalysisThreshold"),
    ("ServicingVersion", "MServicingVersion"),
    ("Verbose", "MVerbose"),
    ("WarningsAsError", "MWarningsAsError"),
    ("WarningAsErrors", "MWarningAsErrors")]

  /** The new name of the first entry for `name`, if any. */
  function Lookup(table: seq<(string, string)>, name: string): (r: Option<string>)
    ensures r.Some? ==> exists k :: 0 <= k < |table| && table[k] == (name, r.value)
    ensures r.None? ==> forall k :: 0 <= k < |table| ==> table[k].0 != name
  {
    if table == [] then None
    else if table[0].0 == name then Some(table[0].1)
    else Lookup(table[1..], name)
  }

  function RenameOf(name: string): Option<string> {
    Lookup(PropertyRenames, name)
  }

  /** The properties the third step drops without a replacement. */
  predicate IsDropped(name: string) {
    name == "MPackageScript" || name == "MPackageImage" || name == "MTargetsPath"
  }

  /** Every property the third step puts on its removal list. */
  predicate IsRemoved(name: string) {
    IsDropped(name) || RenameOf(name).Some?
  }

  /** What the removal pass leaves of one property. */
  function KeptCopy(p: Property): seq<Property> {
    if IsRemoved(p.name) then [] else [p]
  }

  /** What the addition pass contributes for one property. */
  function RenamedCopy(p: Property): seq<Property> {
    match RenameOf(p.name)
    case Some(newName) => [Property(newName, p.value)]
    case None => []
  }

  function FlatMap<A, B>(s: seq<A>, f: A -> seq<B>): seq<B> {
    if s == [] then [] else f(s[0]) + FlatMap(s[1..], f)
  }

  lemma {:induction false} FlatMapAppend<A, B>(a: seq<A>, b: seq<A>, f: A -> seq<B>)
    ensures FlatMap(a + b, f) == FlatMap(a, f) + FlatMap(b, f)
    decreases |a|
  {
    if a == [] {
      assert a + b == b;
    } else {
      assert (a + b)[1..] == a[1..] + b;
      FlatMapAppend(a[1..], b, f);
    }
  }

  lemma FlatMapSnoc<A, B>(s: seq<A>, i: nat, f: A -> seq<B>)
    requires i < |s|
    ensures FlatMap(s[..i + 1], f) == FlatMap(s[..i], f) + f(s[i])
  {
    assert s[..i + 1] == s[..i] + [s[i]];
    FlatMapAppend(s[..i], [s[i]], f);
    assert FlatMap([s[i]], f) == f(s[i]) + FlatMap([], f);
  }

  lemma {:induction false} FlatMapMember<A, B>(s: seq<A>, f: A -> seq<B>, q: B)
    requires q in FlatMap(s, f)
    ensures exists k :: 0 <= k < |s| && q in f(s[k])
  {
    if q !in f(s[0]) {
      FlatMapMember(s[1..], f, q);
      var k :| 0 <= k < |s[1..]| && q in f(s[1..][k]);
      assert s[k + 1] == s[1..][k];
    }
  }

  lemma {:induction false} FlatMapComplete<A, B>(s: seq<A>, f: A -> seq<B>, k: nat, q: B)
    requires k < |s| && q in f(s[k])
    ensures q in FlatMap(s, f)
  {
    if k > 0 {
      FlatMapComplete(s[1..], f, k - 1, q);
      assert s[1..][k - 1] == s[k];
    }
  }

  /** The group's properties left after the removals, in order. */
  function KeptProperties(ps: seq<Property>): seq<Property> {
    FlatMap(ps, KeptCopy)
  }

  /** The renamed copies, in the order of the originals. */
  function AddedProperties(ps: seq<Property>): seq<Property> {
    FlatMap(ps, RenamedCopy)
  }

  /** Removals first, then the additions appended to the group. */
  function ConvertedProperties(ps: seq<Property>): seq<Property> {
    KeptProperties(ps) + AddedProperties(ps)
  }

  function ConvertedPropertyGroup(g: PropertyGroup): PropertyGroup {
    if g.isImported then g else g.(properties := ConvertedProperties(g.properties))
  }

  /** The renaming table: old names never start with 'M'; new names do, and differ from the dropped ones. */
  lemma RenameTableShape()
    ensures forall k :: 0 <= k < |PropertyRenames| ==>
      var (from, to) := PropertyRenames[k];
      |from| > 0 && from[0] != 'M' && |to| > 1 && to[0] == 'M' && to[1] != 'T' && |to| != 13 && |to| != 14
  {
  }

  lemma RenameShape(name: string)
    requires RenameOf(name).Some?
    ensures |name| > 0 && name[0] != 'M'
    ensures var v := RenameOf(name).value; |v| > 1 && v[0] == 'M' && v[1] != 'T' && |v| != 13 && |v| != 14
  {
    RenameTableShape();
  }

  /** A new name is never itself one of the names the step removes. */
  lemma RenamedNameNotRemoved(name: string)
    requires RenameOf(name).Some?
    ensures !IsRemoved(RenameOf(name).value)
  {
    RenameShape(name);
    var v := RenameOf(name).value;
    if RenameOf(v).Some? {
      RenameShape(v);
    }
  }

  lemma RenamedCopyMeaning(p: Property, q: Property)
    ensures q in RenamedCopy(p) <==> RenameOf(p.name) == Some(q.name) && q.value == p.value
    ensures q in RenamedCopy(p) ==> !IsRemoved(q.name)
  {
    if q in RenamedCopy(p) {
      RenamedNameNotRemoved(p.name);
    }
  }

  /**
    The rewritten group: no property it removes survives, every renamed
    property reappears under its new name with its value, every other
    property is kept, and nothing else appears.
  */
  lemma ConvertedPropertiesMeaning(ps: seq<Property>)
    ensures forall q :: q in ConvertedProperties(ps) ==> !IsRemoved(q.name)
    ensures forall k :: 0 <= k < |ps| && RenameOf(ps[k].name).Some? ==>
      Property(RenameOf(ps[k].name).value, ps[k].value) in ConvertedProperties(ps)
    ensures forall k :: 0 <= k < |ps| && !IsRemoved(ps[k].name) ==> ps[k] in ConvertedProperties(ps)
    ensures forall q :: q in ConvertedProperties(ps) ==>
      q in ps || exists k :: 0 <= k < |ps| && RenameOf(ps[k].name) == Some(q.name) && ps[k].value == q.value
  {
    forall q | q in ConvertedProperties(ps)
      ensures !IsRemoved(q.name)
      ensures q in ps || exists k :: 0 <= k < |ps| && RenameOf(ps[k].name) == Some(q.name) && ps[k].value == q.value
    {
      if q in KeptProperties(ps) {
        FlatMapMember(ps, KeptCopy, q);
      } else {
        FlatMapMember(ps, RenamedCopy, q);
        var k :| 0 <= k < |ps| && q in RenamedCopy(ps[k]);
        RenamedCopyMeaning(ps[k], q);
      }
    }
    forall k | 0 <= k < |ps| && RenameOf(ps[k].name).Some?
      ensures Property(RenameOf(ps[k].name).value, ps[k].value) in ConvertedProperties(ps)
    {
      RenamedCopyMeaning(ps[k], Property(RenameOf(ps[k].name).value, ps[k].value));
      FlatMapComplete(ps, RenamedCopy, k, Property(RenameOf(ps[k].name).value, ps[k].value));
    }
    forall k | 0 <= k < |ps| && !IsRemoved(ps[k].name)
      ensures ps[k] in ConvertedProperties(ps)
    {
      FlatMapComplete(ps, KeptCopy, k, ps[k]);
    }
  }

  // ---------------------------------------------------------------------
  // The whole conversion
  // ---------------------------------------------------------------------

  function ConvertedItemGroups(gs: seq<ItemGroup>): (r: seq<ItemGroup>)
    ensures |r| == |gs| && forall k :: 0 <= k < |gs| ==> r[k] == ConvertedItemGroup(gs[k])
  {
    if gs == [] then [] else [ConvertedItemGroup(gs[0])] + ConvertedItemGroups(gs[1..])
  }

  function ConvertedPropertyGroups(gs: seq<PropertyGroup>): (r: seq<PropertyGroup>)
    ensures |r| == |gs| && forall k :: 0 <= k < |gs| ==> r[k] == ConvertedPropertyGroup(gs[k])
  {
    if gs == [] then [] else [ConvertedPropertyGroup(gs[0])] + ConvertedPropertyGroups(gs[1..])
  }

  /** The fourth step's three SetProperty calls. */
  function CsProjProperties(evaluatedAssemblyName: string, props: map<string, string>): map<string, string> {
    props["AssemblyName" := evaluatedAssemblyName + "_generated"]
      ["OutputType" := "Library"]
      ["MxOutputFileName" := evaluatedAssemblyName + ".mx"]
  }

  /** The project that is saved as the generated .csproj. */
  function ConvertedProject(m: MsProject): MsProject {
    MsProject(
      ConvertedImports(m.imports),
      ConvertedItemGroups(m.itemGroups),
      ConvertedPropertyGroups(m.propertyGroups),
      m.evaluatedAssemblyName,
      CsProjProperties(m.evaluatedAssemblyName, m.setProperties))
  }

  /** The generated project builds a library named after the M assembly, with its .mx output. */
  lemma ConvertedProjectSettings(m: MsProject)
    ensures var s := ConvertedProject(m).setProperties;
      && s["AssemblyName"] == m.evaluatedAssemblyName + "_generated"
      && s["OutputType"] == "Library"
      && s["MxOutputFileName"] == m.evaluatedAssemblyName + ".mx"
      && forall n :: n in m.setProperties && n != "AssemblyName" && n != "OutputType" && n != "MxOutputFileName" ==>
           n in s && s[n] == m.setProperties[n]
  {
  }

  /** The import loop: the position of the import to remove, and whether the project is an Oslo one. */
  method ScanImports(imports: seq<Import>) returns (importToRemove: Option<nat>, isOsloProj: bool)
    ensures importToRemove == LastMTargetsImport(imports)
    ensures isOsloProj == IsOsloProject(imports)
  {
    isOsloProj := false;
    importToRemove := None;
    for i := 0 to |imports|
      invariant importToRemove == LastMTargetsImport(imports[..i])
      invariant isOsloProj == IsOsloProject(imports[..i])
    {
      LastMTargetsSnoc(imports, i);
      IsOsloSnoc(imports, i);
      var importedProject := Upper(imports[i].projectPath);
      if !imports[i].isImported
         && (Contains(importedProject, MTargets) || Contains(importedProject, OsloMTargets)
             || Contains(imports[i].projectPath, MTargetsPath)) {
        importToRemove := Some(i);
      } else if Contains(importedProject, BuildSettings) {
        isOsloProj := true;
      }
    }
    assert imports[..|imports|] == imports;
  }

  /** The item loops: every item of every local group goes through the switch. */
  method RenameGroupItems(groups: seq<ItemGroup>) returns (r: seq<ItemGroup>)
    ensures r == ConvertedItemGroups(groups)
  {
    r := groups;
    for g := 0 to |r|
      invariant |r| == |groups|
      invariant forall k :: 0 <= k < g ==> r[k] == ConvertedItemGroup(groups[k])
      invariant forall k :: g <= k < |r| ==> r[k] == groups[k]
    {
      if r[g].isImported {
        continue;
      }
      var items := r[g].items;
      for j := 0 to |items|
        invariant |items| == |groups[g].items|
        invariant forall k :: 0 <= k < j ==> items[k] == RenamedItem(groups[g].items[k])
        invariant forall k :: j <= k < |items| ==> items[k] == groups[g].items[k]
      {
        items := items[j := RenamedItem(items[j])];
      }
      r := r[g := r[g].(items := items)];
    }
  }

  /** The property loops: every local group is rewritten. */
  method RewriteGroups(groups: seq<PropertyGroup>) returns (r: seq<PropertyGroup>)
    ensures r == ConvertedPropertyGroups(groups)
  {
    r := groups;
    for g := 0 to |r|
      invariant |r| == |groups|
      invariant forall k :: 0 <= k < g ==> r[k] == ConvertedPropertyGroup(groups[k])
      invariant forall k :: g <= k < |r| ==> r[k] == groups[k]
    {
      var group := r[g];
      assert group == groups[g];
      if group.isImported {
        continue;
      }
      var ps := RewriteGroup(group.properties);
      assert group.(properties := ps) == ConvertedPropertyGroup(group);
      r := r[g := group.(properties := ps)];
    }
  }

  /** The loaded project, changed in place by the four steps. */
  class BuildProject {
    var imports: seq<Import>
    var itemGroups: seq<ItemGroup>
    var propertyGroups: seq<PropertyGroup>
    const evaluatedAssemblyName: string
    var setProperties: map<string, string>

    constructor Load(m: MsProject)
      ensures Value() == m
    {
      imports := m.imports;
      itemGroups := m.itemGroups;
      propertyGroups := m.propertyGroups;
      evaluatedAssemblyName := m.evaluatedAssemblyName;
      setProperties := m.setProperties;
    }

    function Value(): MsProject
      reads this
    {
      MsProject(imports, itemGroups, propertyGroups, evaluatedAssemblyName, setProperties)
    }

    /** First step: drop the last local M-targets import, then add the C# pair. */
    method ReplaceImports()
      modifies this
      ensures Value() == old(Value()).(imports := ConvertedImports(old(imports)))
    {
      var importToRemove, isOsloProj := ScanImports(imports);
      if importToRemove.Some? {
        imports := RemoveAt(imports, importToRemove.value);
      }
      if isOsloProj {
        imports := imports + [Import(OsloCSharpTargets, false)];
        imports := imports + [Import(OsloMEmbeddedTargets, false)];
      } else {
        imports := imports + [Import(CSharpTargets, false)];
        imports := imports + [Import(MEmbeddedTargets, false)];
      }
    }

    /** Second step: rename the items of every local item group. */
    method RenameItems()
      modifies this
      ensures Value() == old(Value()).(itemGroups := ConvertedItemGroups(old(itemGroups)))
    {
      itemGroups := RenameGroupItems(itemGroups);
    }

    /** Third step: in every local property group, collect, remove, then add. */
    method RewriteProperties()
      modifies this
      ensures Value() == old(Value()).(propertyGroups := ConvertedPropertyGroups(old(propertyGroups)))
    {
      propertyGroups := RewriteGroups(propertyGroups);
    }

    /** Fourth step: the three csproj properties. */
    method SetCsProjProperties()
      modifies this
      ensures Value() == old(Value()).(setProperties := CsProjProperties(evaluatedAssemblyName, old(setProperties)))
    {
      var oldAssemblyName := evaluatedAssemblyName;
      setProperties := setProperties["AssemblyName" := oldAssemblyName + "_generated"];
      setProperties := setProperties["OutputType" := "Library"];
      setProperties := setProperties["MxOutputFileName" := oldAssemblyName + ".mx"];
    }
  }

  /** A dropped name is never also renamed. */
  lemma DroppedNotRenamed(name: string)
    requires IsDropped(name)
    ensures RenameOf(name).None?
  {
    if RenameOf(name).Some? {
      RenameShape(name);
    }
  }

  /** The positions, below i, of the properties the group's removal list holds. */
  function RemovedPositions(ps: seq<Property>, i: nat): (r: set<nat>)
    requires i <= |ps|
    ensures forall k: nat :: k in r <==> k < i && IsRemoved(ps[k].name)
  {
    set k: nat | k < i && IsRemoved(ps[k].name)
  }

  lemma RemovedSnoc(ps: seq<Property>, i: nat)
    requires i < |ps|
    ensures RemovedPositions(ps, i + 1) == RemovedPositions(ps, i) + (if IsRemoved(ps[i].name) then {i} else {})
  {
  }

  /** The first loop of a property group: which properties to add and which to remove. */
  method CollectChanges(properties: seq<Property>) returns (propertiesToAdd: seq<Property>, propertiesToRemove: set<nat>)
    ensures propertiesToAdd == AddedProperties(properties)
    ensures propertiesToRemove == RemovedPositions(properties, |properties|)
  {
    propertiesToAdd := [];
    propertiesToRemove := {};
    for i := 0 to |properties|
      invariant propertiesToAdd == AddedProperties(properties[..i])
      invariant propertiesToRemove == RemovedPositions(properties, i)
    {
      var property := properties[i];
      var newProp: Option<Property> := None;
      var oldProp := false;
      if IsDropped(property.name) {
        DroppedNotRenamed(property.name);
        oldProp := true;
      } else {
        var rename := RenameOf(property.name);
        if rename.Some? {
          newProp := Some(Property(rename.value, property.value));
          oldProp := true;
        }
      }
      assert oldProp == IsRemoved(property.name);
      FlatMapSnoc(properties, i, RenamedCopy);
      RemovedSnoc(properties, i);
      if newProp.Some? {
        propertiesToAdd := propertiesToAdd + [newProp.value];
      }
      if oldProp {
        propertiesToRemove := propertiesToRemove + {i};
      }
    }
    assert properties[..|properties|] == properties;
  }

  lemma TakeNext<T>(s: seq<T>, i: nat)
    requires i < |s|
    ensures s[..i + 1] == s[..i] + [s[i]]
  {
  }

  /** One property group: collect, remove, then add. */
  method RewriteGroup(properties: seq<Property>) returns (r: seq<Property>)
    ensures r == ConvertedProperties(properties)
  {
    var propertiesToAdd, propertiesToRemove := CollectChanges(properties);
    var kept: seq<Property> := [];
    for i := 0 to |properties|
      invariant kept == KeptProperties(properties[..i])
    {
      FlatMapSnoc(properties, i, KeptCopy);
      if i !in propertiesToRemove {
        kept := kept + [properties[i]];
      }
    }
    assert properties[..|properties|] == properties;
    r := kept;
    for i := 0 to |propertiesToAdd|
      invariant r == kept + propertiesToAdd[..i]
    {
      TakeNext(propertiesToAdd, i);
      r := r + [propertiesToAdd[i]];
    }
    assert propertiesToAdd[..|propertiesToAdd|] == propertiesToAdd;
  }

  /** What ConvertIfIsMProj hands on: the path to build the record from, and the project it saved. */
  datatype Conversion = Unchanged(path: string) | Converted(path: string, saved: MsProject)

  /**
    ConvertIfIsMProj: anything but an .mproj is left alone and its record is
    built from its own path; an .mproj (loaded as `loaded`) is rewritten and
    saved under csProjPath, from which the record is built.
  */
  method ConvertIfIsMProj(vsPath: VSPath, csProjPath: VSPath, loaded: MsProject) returns (r: Conversion)
    ensures Lower(vsPath.extension) != ".mproj" ==> r == Unchanged(vsPath.fullName)
    ensures Lower(vsPath.extension) == ".mproj" ==> r == Converted(csProjPath.fullName, ConvertedProject(loaded))
  {
    if Lower(vsPath.extension) != ".mproj" {
      return Unchanged(vsPath.fullName);
    }
    var csProj := new BuildProject.Load(loaded);
    csProj.ReplaceImports();
    csProj.RenameItems();
    csProj.RewriteProperties();
    csProj.SetCsProjProperties();
    return Converted(csProjPath.fullName, csProj.Value());
  }
}
