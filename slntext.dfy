/**
  The text of the temporary solution file.

  The file is modelled as its content. The loop over the accepted projects
  rewrites the whole file on every pass, so when a project makes the loop
  throw, the file keeps what the pass before wrote; the configuration
  section is appended once the loop is done. WriteLine ends a line with
  "\r\n"; the line breaks inside the verbatim templates are "\n".
*/
module SlnText {
  import opened Wrappers
  import opened Text
  import opened VSPaths
  import opened Nesting
  import opened ProjectInfos
  import opened Configs

  const CloudServiceProjectGuid: string := "{CC5FD16D-436D-48AD-A40C-5A424C6E3E79}"
  const CSharpProjectGuid: string := "{FAE04EC0-301F-11D3-BF4B-00C04F79EFBC}"
  const DatabaseProjectGuid: string := "{C8D11400-126E-41CD-887F-60BD40844F9E}"
  const VbProjectGuid: string := "{F184B08F-C81C-45F6-A57F-5ABD9991F28F}"
  const VcxProjectGuid: string := "{C33DA1E7-35A1-4C8C-86DA-3FE0A4A73B00}"
  const CosmosScopeProjectGuid: string := "{4A077C08-FBAA-4D03-AD18-518272689CD1}"

  const CrLf: string := "\r\n"
  /** The indentation the verbatim solution-items template carries: twenty spaces. */
  const Indent: string := "                    "

  const UnconvertedMProj: string := "mproj should have been converted to csproj"

  /** What makes the project loop throw. */
  datatype SlnFailure =
    | InvalidProgram(message: string)
    | NullReference

  /** The project-type switch: a type GUID, nothing to list, or an mproj left unconverted. */
  datatype ProjectType = Typed(guid: string) | Ignored | Unconverted

  /** The switch on the lower-case extension; ".proj" and unknown extensions list nothing. */
  function ProjectTypeOf(extension: string): ProjectType {
    var ext := Lower(extension);
    if ext == ".scopeproj" then Typed(CosmosScopeProjectGuid)
    else if ext == ".ccproj" then Typed(CloudServiceProjectGuid)
    else if ext == ".csproj" || ext == ".boot" then Typed(CSharpProjectGuid)
    else if ext == ".dbproj" then Typed(DatabaseProjectGuid)
    else if ext == ".vbproj" then Typed(VbProjectGuid)
    else if ext == ".vcxproj" then Typed(VcxProjectGuid)
    else if ext == ".qproj" || ext == ".xadproj" then Typed(CSharpProjectGuid)
    else if ext == ".mproj" then Unconverted
    else Ignored
  }

  /** The switch reads the extension in lower case only: the case it is written in does not matter. */
  lemma ProjectTypeIgnoresCase(extension: string)
    ensures ProjectTypeOf(Lower(extension)) == ProjectTypeOf(extension)
  {
    LowerIdempotent(extension);
  }

  /**
    Which extensions are listed as C# projects, and that no project is ever
    listed with the folder type or as the solution-items entry.
  */
  lemma ProjectTypeTable(extension: string)
    ensures ProjectTypeOf(extension) == Typed(CSharpProjectGuid) <==>
      Lower(extension) in {".csproj", ".boot", ".qproj", ".xadproj"}
    ensures ProjectTypeOf(extension) == Unconverted <==> Lower(extension) == ".mproj"
    ensures ProjectTypeOf(extension).Typed? ==>
      ProjectTypeOf(extension).guid != TypeGuid && ProjectTypeOf(extension).guid != SolutionItemsGuid
    ensures Lower(extension) == ".proj" ==> ProjectTypeOf(extension) == Ignored
  {
  }

  /** The version switch: the format version and the Visual Studio version of the header. */
  function FormatVersion(v: VisualStudioVersion): string {
    match v
    case VS10 => "11.00"
    case VS11 => "12.0"
    case VS12 => "12.0"
    case VS14 => "14.0"
  }

  function VsVersion(v: VisualStudioVersion): string {
    match v
    case VS10 => "10"
    case VS11 => "11"
    case VS12 => "12"
    case VS14 => "14"
  }

  /**
    The "# Visual Studio" line names the version as the command line spells
    it; VS11 and VS12 share the format version and differ only there.
  */
  lemma HeaderNamesVersion(v: VisualStudioVersion, w: VisualStudioVersion)
    ensures VsVersion(v) == VersionNumber(v)
    ensures VsVersion(v) == VsVersion(w) ==> v == w
    ensures FormatVersion(v) == FormatVersion(w) && v != w ==> {v, w} == {VS11, VS12}
  {
  }

  // ----- Solution items -----

  const ItemsHead: string :=
    "\n" + Indent + "Project(\"" + TypeGuid + "\") = \"Solution Items\", \"Solution Items\", \"" + SolutionItemsGuid + "\"" +
    "\n\t" + Indent + "ProjectSection(SolutionItems) = preProject"
  const ItemsTail: string := "EndProjectSection\n" + Indent + "EndProject"

  function ItemLine(item: string): string {
    item + " = " + item
  }

  /** solutionItemsSection: empty when there are no items; the item lines follow one another with no separator. */
  function ItemsSection(items: seq<string>): string {
    if items == [] then "" else ItemsHead + Concat(MapTo(items, ItemLine)) + ItemsTail
  }

  /** Each element's text, in order. */
  function MapTo<T>(xs: seq<T>, f: T -> string): (r: seq<string>)
    ensures |r| == |xs| && forall i :: 0 <= i < |xs| ==> r[i] == f(xs[i])
  {
    seq(|xs|, i requires 0 <= i < |xs| => f(xs[i]))
  }

  lemma MapToSnoc<T>(xs: seq<T>, f: T -> string)
    requires xs != []
    ensures MapTo(xs, f) == MapTo(xs[..|xs| - 1], f) + [f(xs[|xs| - 1])]
  {
  }

  lemma MapToSplit<T>(xs: seq<T>, f: T -> string, k: nat)
    requires k < |xs|
    ensures MapTo(xs, f) == MapTo(xs[..k], f) + [f(xs[k])] + MapTo(xs[k + 1..], f)
  {
  }

  /** Concatenation grows at the back as the sequence does. */
  lemma {:induction false} ConcatSnoc(parts: seq<string>, last: string)
    ensures Concat(parts + [last]) == Concat(parts) + last
    decreases |parts|
  {
    ConcatAppend(parts, [last]);
  }

  lemma {:induction false} ConcatAppend(a: seq<string>, b: seq<string>)
    ensures Concat(a + b) == Concat(a) + Concat(b)
    decreases |a|
  {
    if a == [] {
      assert a + b == b;
    } else {
      assert (a + b)[1..] == a[1..] + b;
      ConcatAppend(a[1..], b);
    }
  }

  /**
    In the concatenated texts of a sequence, the k-th element's text sits
    right after the texts of the elements before it.
  */
  lemma ConcatMapPlaces<T>(xs: seq<T>, f: T -> string, k: nat)
    requires k < |xs|
    ensures OccursAt(Concat(MapTo(xs, f)), f(xs[k]), |Concat(MapTo(xs[..k], f))|)
  {
    var a, b, rest := MapTo(xs[..k], f), f(xs[k]), MapTo(xs[k + 1..], f);
    MapToSplit(xs, f, k);
    ConcatAppend(a + [b], rest);
    ConcatSnoc(a, b);
    var s := Concat(a) + b + Concat(rest);
    assert Concat(MapTo(xs, f)) == s;
    assert s[|Concat(a)|..] == b + Concat(rest);
    assert (b + Concat(rest))[..|b|] == b;
  }

  /**
    The section is empty exactly when there are no items; otherwise it opens
    with the solution-items header, closes with its end lines, and lists
    each item's line after the lines of the items before it.
  */
  lemma ItemsSectionMeaning(items: seq<string>)
    ensures ItemsSection(items) == "" <==> items == []
    ensures items != [] ==>
      StartsWith(ItemsSection(items), ItemsHead) && EndsWith(ItemsSection(items), ItemsTail)
    ensures forall k :: 0 <= k < |items| ==>
      OccursAt(ItemsSection(items), ItemLine(items[k]), |ItemsHead| + |Concat(MapTo(items[..k], ItemLine))|)
  {
    if items != [] {
      var body := Concat(MapTo(items, ItemLine));
      StartsWithAppend(ItemsHead, body, ItemsHead);
      StartsWithAppend(ItemsHead + body, ItemsTail, ItemsHead);
      EndsWithAppend(ItemsHead + body, ItemsTail);
      forall k | 0 <= k < |items|
        ensures OccursAt(ItemsSection(items), ItemLine(items[k]), |ItemsHead| + |Concat(MapTo(items[..k], ItemLine))|)
      {
        ConcatMapPlaces(items, ItemLine, k);
        OccursAtAppend(ItemsHead, body, ItemsTail, ItemLine(items[k]), |Concat(MapTo(items[..k], ItemLine))|);
      }
    }
  }

  /** The solution-items loop. */
  method BuildItemsSection(items: seq<string>) returns (section: string)
    ensures section == ItemsSection(items)
  {
    section := "";
    if |items| > 0 {
      var lines := "";
      var i := 0;
      while i < |items|
        invariant i <= |items|
        invariant lines == Concat(MapTo(items[..i], ItemLine))
      {
        assert items[..i + 1][..i] == items[..i];
        MapToSnoc(items[..i + 1], ItemLine);
        ConcatSnoc(MapTo(items[..i], ItemLine), ItemLine(items[i]));
        lines := lines + ItemLine(items[i]);
        i := i + 1;
      }
      assert items[..i] == items;
      section := ItemsHead + lines + ItemsTail;
    }
  }

  // ----- Projects and their nesting -----

  /** A project's entry in the project section. */
  function ProjectBlock(typeGuid: string, info: ProjectInfo): string {
    "Project(\"" + typeGuid + "\") = \"" + info.path.projectName + "\", \"" + info.path.fullName + "\", \"" +
    info.GuidText() + "\"" + CrLf + "EndProject" + CrLf
  }

  /** A line of the NestedProjects section: child GUID = parent folder GUID. */
  function NestLine(child: string, parent: string): string {
    "\t\t" + child + " = " + parent + CrLf
  }

  /** Every accepted project's directory is in the tree (GetDir then finds it without growing the tree). */
  predicate FiledIn(ns: seq<NestingDir>, ps: seq<ProjectInfo>)
    requires WellFormed(ns)
  {
    forall i :: 0 <= i < |ps| ==> Walk(ns, 0, Keys(ps[i].path)).Some?
  }

  /**
    The folder a project is nested in: its directory's node, or the node
    above when that folder holds only the self-named project; None where
    that is the parent of the real root, which is null.
  */
  function AttachDir(ns: seq<NestingDir>, path: VSPath): (r: Option<nat>)
    requires WellFormed(ns) && Walk(ns, 0, Keys(path)).Some?
    ensures r.Some? ==> r.value < |ns|
  {
    var d := Walk(ns, 0, Keys(path)).value;
    if HasOnlySelfNamedProject(ns[d]) then
      (if ns[d].parent < 0 then None else Some(ns[d].parent as nat))
    else Some(d)
  }

  /** The node a walk of one key fewer reaches is the parent of the node the full walk reaches. */
  lemma WalkParent(ns: seq<NestingDir>, keys: seq<string>)
    requires WellFormed(ns) && Walk(ns, 0, keys).Some?
    ensures keys == [] <==> ns[Walk(ns, 0, keys).value].parent < 0
    ensures keys != [] ==> Walk(ns, 0, keys[..|keys| - 1]) == Some(ns[Walk(ns, 0, keys).value].parent as nat)
  {
    if keys != [] {
      var m := |keys| - 1;
      WalkPrefix(ns, keys, m);
      SliceSteps(keys, m);
      assert keys[..m + 1] == keys;
      WalkAppend(ns, 0, keys[..m], keys[m]);
      var q := Walk(ns, 0, keys[..m]).value;
      var c := FindChild(ns[q].children, keys[m]).value;
      var j :| 0 <= j < |ns[q].children| && ns[q].children[j] == Child(keys[m], c);
      assert ns[c].parent == q;
    }
  }

  /**
    Where a project is nested: in the folder of its own directory, or, when
    that folder holds only the self-named project, in the folder of the
    directory above; never in a self-named-only folder. There is no folder
    (the source dereferences null) exactly when the project sits directly
    in the real root and the root holds only that project.
  */
  lemma AttachDirMeaning(ns: seq<NestingDir>, path: VSPath)
    requires WellFormed(ns) && Walk(ns, 0, Keys(path)).Some?
    ensures var d := Walk(ns, 0, Keys(path)).value;
      && (AttachDir(ns, path).None? <==> |path.components| == 0 && HasOnlySelfNamedProject(ns[0]))
      && (!HasOnlySelfNamedProject(ns[d]) ==> AttachDir(ns, path) == Some(d))
      && (HasOnlySelfNamedProject(ns[d]) && |path.components| > 0 ==>
            AttachDir(ns, path) == Walk(ns, 0, Keys(path)[..|path.components| - 1]))
      && (AttachDir(ns, path).Some? ==> !HasOnlySelfNamedProject(ns[AttachDir(ns, path).value]))
  {
    var keys := Keys(path);
    var d := Walk(ns, 0, keys).value;
    WalkParent(ns, keys);
    if keys == [] {
      assert d == 0;
    }
    if HasOnlySelfNamedProject(ns[d]) && keys != [] {
      var p := ns[d].parent as nat;
      assert 0 < d;
      var j :| 0 <= j < |ns[p].children| && ns[p].children[j].node == d by {
        ChildListed(ns, keys);
      }
    }
  }

  /** A node reached by a non-empty walk is listed among its parent's children. */
  lemma ChildListed(ns: seq<NestingDir>, keys: seq<string>)
    requires WellFormed(ns) && keys != [] && Walk(ns, 0, keys).Some?
    ensures var d := Walk(ns, 0, keys).value;
      0 <= ns[d].parent < |ns| && exists j :: 0 <= j < |ns[ns[d].parent].children| && ns[ns[d].parent].children[j].node == d
  {
    var m := |keys| - 1;
    WalkPrefix(ns, keys, m);
    SliceSteps(keys, m);
    assert keys[..m + 1] == keys;
    WalkAppend(ns, 0, keys[..m], keys[m]);
    var q := Walk(ns, 0, keys[..m]).value;
    var c := FindChild(ns[q].children, keys[m]).value;
    var j :| 0 <= j < |ns[q].children| && ns[q].children[j] == Child(keys[m], c);
    assert ns[c].parent == q;
  }

  /** What one pass adds: the project's block and its NestedProjects line, either possibly empty. */
  datatype Piece = Piece(block: string, line: string)

  /**
    One pass of the project loop, up to the writing of the file: the switch
    on the project type and, when nesting, the folder the project is
    attached to; an unconverted mproj, or the null folder above the real
    root, makes the pass throw.
  */
  function EntryOf(info: ProjectInfo, ns: seq<NestingDir>, root: nat, nest: bool): Result<Piece, SlnFailure>
    requires WellFormed(ns) && (nest ==> Walk(ns, 0, Keys(info.path)).Some?)
  {
    EntryFor(ProjectTypeOf(info.path.extension), info, ns, root, nest)
  }

  /** The pass for a project whose extension the switch mapped to t. */
  function EntryFor(t: ProjectType, info: ProjectInfo, ns: seq<NestingDir>, root: nat, nest: bool): Result<Piece, SlnFailure>
    requires WellFormed(ns) && (nest ==> Walk(ns, 0, Keys(info.path)).Some?)
  {
    match t
    case Unconverted => Err(InvalidProgram(UnconvertedMProj))
    case Ignored => Ok(Piece("", ""))
    case Typed(g) =>
      if !nest then Ok(Piece(ProjectBlock(g, info), ""))
      else match AttachDir(ns, info.path)
        case None => Err(NullReference)
        case Some(a) =>
          Ok(Piece(ProjectBlock(g, info), if a != root then NestLine(info.GuidText(), ns[a].GuidText()) else ""))
  }

  /**
    When a pass throws: on an unconverted mproj, and, when nesting, on a
    listed project that sits directly in the real root where the root holds
    only that project, so that the folder above it is null.
  */
  lemma EntryFails(t: ProjectType, info: ProjectInfo, ns: seq<NestingDir>, root: nat, nest: bool)
    requires WellFormed(ns) && root < |ns| && (nest ==> Walk(ns, 0, Keys(info.path)).Some?)
    ensures EntryFor(t, info, ns, root, nest) == Err(InvalidProgram(UnconvertedMProj)) <==> t == Unconverted
    ensures EntryFor(t, info, ns, root, nest) == Err(NullReference) <==>
              t.Typed? && nest && |info.path.components| == 0 && HasOnlySelfNamedProject(ns[0])
  {
    if nest {
      AttachDirMeaning(ns, info.path);
    }
  }

  /**
    What a pass that does not throw adds: a block exactly for a project of
    a listed type, and a nesting line exactly when nesting and the
    project's folder is not the display root.
  */
  lemma EntryPieces(t: ProjectType, info: ProjectInfo, ns: seq<NestingDir>, root: nat, nest: bool)
    requires WellFormed(ns) && root < |ns| && (nest ==> Walk(ns, 0, Keys(info.path)).Some?)
    requires EntryFor(t, info, ns, root, nest).Ok?
    ensures EntryFor(t, info, ns, root, nest).value.block != "" <==> t.Typed?
    ensures EntryFor(t, info, ns, root, nest).value.line != "" <==> t.Typed? && nest && AttachDir(ns, info.path) != Some(root)
  {
    if t.Typed? {
      assert |ProjectBlock(t.guid, info)| > 0;
      if nest {
        var a := AttachDir(ns, info.path).value;
        if a != root {
          assert |NestLine(info.GuidText(), ns[a].GuidText())| > 0;
        }
      }
    }
  }

  /** Every project's pass, in order. */
  function Entries(ps: seq<ProjectInfo>, ns: seq<NestingDir>, root: nat, nest: bool): (r: seq<Result<Piece, SlnFailure>>)
    requires WellFormed(ns) && (nest ==> FiledIn(ns, ps))
    ensures |r| == |ps| && forall i :: 0 <= i < |ps| ==> r[i] == EntryOf(ps[i], ns, root, nest)
  {
    seq(|ps|, i requires 0 <= i < |ps| => EntryOf(ps[i], ns, root, nest))
  }

  function BlockText(r: Result<Piece, SlnFailure>): string {
    if r.Ok? then r.value.block else ""
  }

  function LineText(r: Result<Piece, SlnFailure>): string {
    if r.Ok? then r.value.line else ""
  }

  /** projectSection and projectHierarchy, or dirSection and dirHierarchy. */
  datatype Listing = Listing(projects: string, hierarchy: string)

  /** The start of every pass's file: the two header lines and the solution items. */
  function Head(v: VisualStudioVersion, items: seq<string>): string {
    "Microsoft Visual Studio Solution File, Format Version " + FormatVersion(v) + CrLf +
    "# Visual Studio " + VsVersion(v) + CrLf +
    ItemsSection(items) + CrLf
  }

  /** The NestedProjects part of a pass's file, written only when nesting. */
  function Nested(l: Listing, folders: Listing, nest: bool): string {
    if nest then
      folders.projects + "Global" + CrLf + "\tGlobalSection(NestedProjects) = preSolution" + CrLf +
      l.hierarchy + folders.hierarchy + "\tEndGlobalSection" + CrLf + "EndGlobal" + CrLf
    else ""
  }

  /** The file one pass writes; folders are the folder blocks and their nesting lines. */
  function FileText(head: string, l: Listing, folders: Listing, nest: bool): string {
    head + l.projects + Nested(l, folders, nest) + CrLf
  }

  /** The state after a run of the project loop: the sections, the file, and the failure that ended it. */
  datatype Emission = Emission(listing: Listing, file: string, failure: Option<SlnFailure>)

  /** The project loop over the passes, from a file holding prior. */
  function Emit(entries: seq<Result<Piece, SlnFailure>>, head: string, folders: Listing, nest: bool,
                prior: string): Emission
  {
    if entries == [] then Emission(Listing("", ""), prior, None)
    else Step(Emit(entries[..|entries| - 1], head, folders, nest, prior), entries[|entries| - 1], head, folders, nest)
  }

  /** One pass of the loop: nothing once it has thrown; otherwise throw, or append and rewrite the file. */
  function Step(e: Emission, r: Result<Piece, SlnFailure>, head: string, folders: Listing, nest: bool): Emission {
    if e.failure.Some? then e
    else match r
      case Err(f) => e.(failure := Some(f))
      case Ok(p) =>
        var l := Listing(e.listing.projects + p.block, e.listing.hierarchy + p.line);
        Emission(l, FileText(head, l, folders, nest), None)
  }

  /** Once the loop has thrown, the later projects change nothing. */
  lemma {:induction false} EmitStops(entries: seq<Result<Piece, SlnFailure>>, k: nat, head: string, folders: Listing,
                                     nest: bool, prior: string)
    requires k <= |entries|
    requires Emit(entries[..k], head, folders, nest, prior).failure.Some?
    ensures Emit(entries, head, folders, nest, prior) == Emit(entries[..k], head, folders, nest, prior)
    decreases |entries| - k
  {
    if k < |entries| {
      assert entries[..k + 1][..k] == entries[..k];
      EmitStops(entries, k + 1, head, folders, nest, prior);
    } else {
      assert entries[..k] == entries;
    }
  }

  /** The loop throws exactly when some pass throws. */
  lemma {:induction false} EmitFails(entries: seq<Result<Piece, SlnFailure>>, head: string, folders: Listing,
                                     nest: bool, prior: string)
    ensures Emit(entries, head, folders, nest, prior).failure.None? <==> forall i :: 0 <= i < |entries| ==> entries[i].Ok?
    decreases |entries|
  {
    if entries != [] {
      var n := |entries| - 1;
      EmitFails(entries[..n], head, folders, nest, prior);
      assert forall i :: 0 <= i < n ==> entries[..n][i] == entries[i];
    }
  }

  /**
    Without a throw, the sections hold every pass's block and line in
    order, and the file is the last pass's text (what it held before, when
    there are no projects).
  */
  lemma {:induction false} EmitListing(entries: seq<Result<Piece, SlnFailure>>, head: string, folders: Listing,
                                       nest: bool, prior: string)
    ensures var e := Emit(entries, head, folders, nest, prior);
      e.failure.None? ==>
        && e.listing == Listing(Concat(MapTo(entries, BlockText)), Concat(MapTo(entries, LineText)))
        && e.file == (if entries == [] then prior else FileText(head, e.listing, folders, nest))
    decreases |entries|
  {
    if entries != [] {
      var n := |entries| - 1;
      var front := entries[..n];
      EmitListing(front, head, folders, nest, prior);
      var e := Emit(front, head, folders, nest, prior);
      if e.failure.None? && entries[n].Ok? {
        MapToSnoc(entries, BlockText);
        ConcatSnoc(MapTo(front, BlockText), BlockText(entries[n]));
        MapToSnoc(entries, LineText);
        ConcatSnoc(MapTo(front, LineText), LineText(entries[n]));
      }
    }
  }

  /**
    The position of the throw: when the loop fails, it is at the first
    pass that throws, and the file is what the passes before it wrote.
  */
  lemma {:induction false} EmitFailsAtFirst(entries: seq<Result<Piece, SlnFailure>>, k: nat, head: string,
                                            folders: Listing, nest: bool, prior: string)
    requires k < |entries| && entries[k].Err? && forall j :: 0 <= j < k ==> entries[j].Ok?
    ensures var e := Emit(entries, head, folders, nest, prior);
      var before := Emit(entries[..k], head, folders, nest, prior);
      && e.failure == Some(entries[k].error)
      && e.file == before.file
      && before.file == (if k == 0 then prior else FileText(head, before.listing, folders, nest))
  {
    var front := entries[..k];
    EmitFails(front, head, folders, nest, prior);
    EmitListing(front, head, folders, nest, prior);
    assert forall j :: 0 <= j < k ==> front[j] == entries[j];
    assert entries[..k + 1][..k] == front;
    EmitStops(entries, k + 1, head, folders, nest, prior);
  }

  // ----- Folders -----

  /** A folder's entry in the folder section. */
  function FolderBlock(d: NestingDir): string {
    "Project(\"" + TypeGuid + "\") = \"_" + VsName(d.path) + "\", \"_" + VsName(d.path) + "\", \"" + d.GuidText() + "\"" +
    CrLf + "EndProject" + CrLf
  }

  /** A node's block and nesting line: none for a self-named-only folder, no line directly under the display root. */
  function FolderEntry(ns: seq<NestingDir>, root: nat, n: nat): Listing
    requires WellFormed(ns) && 0 < n < |ns|
  {
    if HasOnlySelfNamedProject(ns[n]) then Listing("", "")
    else
      Listing(FolderBlock(ns[n]),
              if ns[n].parent != root then NestLine(ns[n].GuidText(), ns[ns[n].parent].GuidText()) else "")
  }

  /** dirSection and dirHierarchy, over a list of nodes. */
  function FolderListing(ns: seq<NestingDir>, root: nat, nodes: seq<nat>): Listing
    requires WellFormed(ns) && forall k :: 0 <= k < |nodes| ==> 0 < nodes[k] < |ns|
  {
    if nodes == [] then Listing("", "")
    else
      var l := FolderListing(ns, root, nodes[..|nodes| - 1]);
      var e := FolderEntry(ns, root, nodes[|nodes| - 1]);
      Listing(l.projects + e.projects, l.hierarchy + e.hierarchy)
  }

  /** The folder sections, over every node under the display root. */
  function Folders(ns: seq<NestingDir>, root: nat): Listing
    requires WellFormed(ns) && root < |ns|
  {
    AllChildrenIndexed(ns, root);
    FolderListing(ns, root, AllChildren(ns, root))
  }

  lemma AllChildrenIndexed(ns: seq<NestingDir>, i: nat)
    requires WellFormed(ns) && i < |ns|
    ensures forall k :: 0 <= k < |AllChildren(ns, i)| ==> i < AllChildren(ns, i)[k] < |ns|
  {
    AllChildrenBelow(ns, i);
    var all := AllChildren(ns, i);
    forall k | 0 <= k < |all|
      ensures i < all[k] < |ns|
    {
      assert all[k] in all;
    }
  }

  /** The folder loop over root.allChildren. */
  method BuildFolders(ns: seq<NestingDir>, root: nat) returns (folders: Listing)
    requires WellFormed(ns) && root < |ns|
    ensures folders == Folders(ns, root)
  {
    AllChildrenIndexed(ns, root);
    var nodes := AllChildren(ns, root);
    var dirSection, dirHierarchy := "", "";
    var i := 0;
    while i < |nodes|
      invariant i <= |nodes|
      invariant Listing(dirSection, dirHierarchy) == FolderListing(ns, root, nodes[..i])
    {
      assert nodes[..i + 1][..i] == nodes[..i];
      var node := nodes[i];
      if !HasOnlySelfNamedProject(ns[node]) {
        dirSection := dirSection + FolderBlock(ns[node]);
        if ns[node].parent != root {
          dirHierarchy := dirHierarchy + NestLine(ns[node].GuidText(), ns[ns[node].parent].GuidText());
        }
      }
      i := i + 1;
    }
    assert nodes[..i] == nodes;
    folders := Listing(dirSection, dirHierarchy);
  }

  /**
    The parent of every node under i is i itself or another node under i,
    and it has children, so it is never a self-named-only folder: every
    nesting line of the folder section names a folder the file also lists,
    or the display root.
  */
  lemma {:induction false} ListedParents(ns: seq<NestingDir>, i: nat)
    requires WellFormed(ns) && i < |ns|
    ensures forall n :: n in AllChildren(ns, i) ==>
      && n < |ns| && 0 <= ns[n].parent < |ns|
      && !HasOnlySelfNamedProject(ns[ns[n].parent])
      && (ns[n].parent == i || ns[n].parent in AllChildren(ns, i))
    decreases |ns| - i, 1
  {
    AllChildrenBelow(ns, i);
    ListedParentsFrom(ns, i, 0);
  }

  lemma {:induction false} ListedParentsFrom(ns: seq<NestingDir>, i: nat, k: nat)
    requires WellFormed(ns) && i < |ns| && k <= |ns[i].children|
    ensures forall n :: n in ChildrenFrom(ns, i, k) ==>
      && n < |ns| && 0 <= ns[n].parent < |ns|
      && !HasOnlySelfNamedProject(ns[ns[n].parent])
      && (ns[n].parent == i || ns[n].parent in ChildrenFrom(ns, i, k))
    decreases |ns| - i, 0, |ns[i].children| - k
  {
    if k < |ns[i].children| {
      var c := ns[i].children[k].node;
      assert ns[c].parent == i;
      var sub, rest := AllChildren(ns, c), ChildrenFrom(ns, i, k + 1);
      var all := ChildrenFrom(ns, i, k);
      assert all == [c] + sub + rest;
      assert |ns[i].children| > 0;
      ListedParents(ns, c);
      ListedParentsFrom(ns, i, k + 1);
      ParentsOfJoined(ns, i, c, sub, rest);
    }
  }

  /** ListedParentsFrom's step: a child, the nodes under it, then the later children's nodes. */
  lemma ParentsOfJoined(ns: seq<NestingDir>, i: nat, c: nat, sub: seq<nat>, rest: seq<nat>)
    requires i < |ns| && c < |ns| && ns[c].parent == i && !HasOnlySelfNamedProject(ns[i])
    requires forall n :: n in sub ==>
      && n < |ns| && 0 <= ns[n].parent < |ns|
      && !HasOnlySelfNamedProject(ns[ns[n].parent])
      && (ns[n].parent == c || ns[n].parent in sub)
    requires forall n :: n in rest ==>
      && n < |ns| && 0 <= ns[n].parent < |ns|
      && !HasOnlySelfNamedProject(ns[ns[n].parent])
      && (ns[n].parent == i || ns[n].parent in rest)
    ensures forall n :: n in [c] + sub + rest ==>
      && n < |ns| && 0 <= ns[n].parent < |ns|
      && !HasOnlySelfNamedProject(ns[ns[n].parent])
      && (ns[n].parent == i || ns[n].parent in [c] + sub + rest)
  {
    var all := [c] + sub + rest;
    forall n | n in all
      ensures n < |ns| && 0 <= ns[n].parent < |ns| && !HasOnlySelfNamedProject(ns[ns[n].parent])
      ensures ns[n].parent == i || ns[n].parent in all
    {
      if n == c {
      } else if n in sub {
        assert ns[n].parent == c || ns[n].parent in sub;
      } else {
        assert n in rest;
      }
    }
  }

  /** No folder block at all exactly when every node under the display root is a self-named-only folder. */
  lemma {:induction false} FolderListingEmpty(ns: seq<NestingDir>, root: nat, nodes: seq<nat>)
    requires WellFormed(ns) && forall k :: 0 <= k < |nodes| ==> 0 < nodes[k] < |ns|
    ensures FolderListing(ns, root, nodes).projects == "" <==>
      forall k :: 0 <= k < |nodes| ==> HasOnlySelfNamedProject(ns[nodes[k]])
    ensures FolderListing(ns, root, nodes).hierarchy == "" <==>
      forall k :: 0 <= k < |nodes| ==> HasOnlySelfNamedProject(ns[nodes[k]]) || ns[nodes[k]].parent == root
    decreases |nodes|
  {
    if nodes != [] {
      var n := |nodes| - 1;
      FolderListingEmpty(ns, root, nodes[..n]);
      assert forall k :: 0 <= k < n ==> nodes[..n][k] == nodes[k];
    }
  }

  // ----- The configuration section -----

  const GlobalHead: string :=
    "\nGlobal" +
    "\n\tGlobalSection(SolutionConfigurationPlatforms) = preSolution" +
    "\n\t\tDebug|Mixed Platforms = Debug|Mixed Platforms" +
    "\n\t\tRelease|Mixed Platforms = Release|Mixed Platforms" +
    "\n\tEndGlobalSection" +
    "\n\tGlobalSection(ProjectConfigurationPlatforms) = postSolution"

  const GlobalTail: string :=
    "\n\tEndGlobalSection" +
    "\n\tGlobalSection(SolutionProperties) = preSolution" +
    "\n\t\tHideSolutionNode = FALSE" +
    "\n\tEndGlobalSection" +
    "\nEndGlobal"

  /** A C++ project builds for x64 when its file name ends in "64.vcxproj", else for Win32. */
  function Platform(fullName: string): string {
    if EndsWith(fullName, "64.vcxproj") then "x64" else "Win32"
  }

  /**
    A project's configuration rows: four for a C# or C++ project, none for
    any other. The third C# row is indented with a tab and four spaces, and
    both Release rows of a C++ project map to its Debug configuration.
  */
  function ConfigRows(info: ProjectInfo): string {
    var ext := Lower(info.path.extension);
    var g := info.GuidText();
    if ext == ".csproj" then
      "\n\t\t" + g + ".Debug|Mixed Platforms.ActiveCfg = Debug|Any CPU" +
      "\n\t\t" + g + ".Debug|Mixed Platforms.Build.0 = Debug|Any CPU" +
      "\n\t    " + g + ".Release|Mixed Platforms.ActiveCfg = Release|Any CPU" +
      "\n\t\t" + g + ".Release|Mixed Platforms.Build.0 = Release|Any CPU"
    else if ext == ".vcxproj" then
      var platform := Platform(info.path.fullName);
      "\n\t\t" + g + ".Debug|Mixed Platforms.ActiveCfg = Debug|" + platform +
      "\n\t\t" + g + ".Debug|Mixed Platforms.Build.0 = Debug|" + platform +
      "\n\t\t" + g + ".Release|Mixed Platforms.ActiveCfg = Debug|" + platform +
      "\n\t\t" + g + ".Release|Mixed Platforms.Build.0 = Debug|" + platform
    else ""
  }

  /**
    Only C# and C++ project files get configuration rows, and each of those
    is a listed project: its block is in the project section.
  */
  lemma ConfigRowsOnlyForListed(info: ProjectInfo)
    ensures ConfigRows(info) != "" <==> Lower(info.path.extension) in {".csproj", ".vcxproj"}
    ensures ConfigRows(info) != "" ==>
      ProjectTypeOf(info.path.extension) in {Typed(CSharpProjectGuid), Typed(VcxProjectGuid)}
  {
  }

  /** globalSection: the fixed head and tail around every project's rows, in project order. */
  function GlobalSection(ps: seq<ProjectInfo>): string {
    GlobalHead + Concat(MapTo(ps, ConfigRows)) + GlobalTail
  }

  /** The configuration loop. */
  method BuildGlobalSection(ps: seq<ProjectInfo>) returns (section: string)
    ensures section == GlobalSection(ps)
  {
    var rows := "";
    var i := 0;
    while i < |ps|
      invariant i <= |ps|
      invariant rows == Concat(MapTo(ps[..i], ConfigRows))
    {
      assert ps[..i + 1][..i] == ps[..i];
      MapToSnoc(ps[..i + 1], ConfigRows);
      ConcatSnoc(MapTo(ps[..i], ConfigRows), ConfigRows(ps[i]));
      var ext := Lower(ps[i].path.extension);
      if ext == ".csproj" || ext == ".vcxproj" {
        rows := rows + ConfigRows(ps[i]);
      }
      i := i + 1;
    }
    assert ps[..i] == ps;
    section := GlobalHead + rows + GlobalTail;
  }

  // ----- The whole file -----

  /** The outcome: the content the file is left with, and the exception, if any. */
  datatype SlnWrite = SlnWrite(file: string, failure: Option<SlnFailure>)

  /** After the loop: the configuration section is appended only when no pass threw. */
  function Finish(e: Emission, tail: string): SlnWrite {
    if e.failure.Some? then SlnWrite(e.file, e.failure) else SlnWrite(e.file + tail, None)
  }

  /**
    CreateTempSlnFile: the project loop, and, when it did not throw, the
    configuration section appended with a line break. Without projects the
    loop writes nothing and the section is appended to what the file held.
  */
  function TempSln(ps: seq<ProjectInfo>, items: seq<string>, ns: seq<NestingDir>, root: nat, nest: bool,
                   v: VisualStudioVersion, prior: string): SlnWrite
    requires WellFormed(ns) && root < |ns| && (nest ==> FiledIn(ns, ps))
  {
    var folders := if nest then Folders(ns, root) else Listing("", "");
    Finish(Emit(Entries(ps, ns, root, nest), Head(v, items), folders, nest, prior), GlobalSection(ps) + CrLf)
  }

  /**
    The finished file, for any header and appended section: the section is
    appended exactly when no pass threw, and then the header opens the file
    unless there were no passes.
  */
  lemma FinishShape(entries: seq<Result<Piece, SlnFailure>>, head: string, folders: Listing, nest: bool,
                    prior: string, tail: string)
    ensures var w := Finish(Emit(entries, head, folders, nest, prior), tail);
      && (w.failure.None? <==> forall i :: 0 <= i < |entries| ==> entries[i].Ok?)
      && (w.failure.None? ==> EndsWith(w.file, tail))
      && (w.failure.None? && entries != [] ==> StartsWith(w.file, head))
  {
    EmitFails(entries, head, folders, nest, prior);
    EmitListing(entries, head, folders, nest, prior);
    var e := Emit(entries, head, folders, nest, prior);
    if e.failure.None? {
      EndsWithAppend(e.file, tail);
      if entries != [] {
        var l := e.listing;
        var nested := Nested(l, folders, nest);
        StartsWithAppend(head, l.projects, head);
        StartsWithAppend(head + l.projects, nested, head);
        StartsWithAppend(head + l.projects + nested, CrLf, head);
        StartsWithAppend(e.file, tail, head);
      }
    }
  }

  /**
    The finished file: the configuration section is appended exactly when
    no project's pass threw, and then every pass's header opens the file.
  */
  lemma TempSlnShape(ps: seq<ProjectInfo>, items: seq<string>, ns: seq<NestingDir>, root: nat, nest: bool,
                     v: VisualStudioVersion, prior: string)
    requires WellFormed(ns) && root < |ns| && (nest ==> FiledIn(ns, ps))
    ensures var w := TempSln(ps, items, ns, root, nest, v, prior);
      && (w.failure.None? <==> forall i :: 0 <= i < |ps| ==> EntryOf(ps[i], ns, root, nest).Ok?)
      && (w.failure.None? ==> EndsWith(w.file, GlobalSection(ps) + CrLf))
      && (w.failure.None? && ps != [] ==> StartsWith(w.file, Head(v, items)))
  {
    var folders := if nest then Folders(ns, root) else Listing("", "");
    FinishShape(Entries(ps, ns, root, nest), Head(v, items), folders, nest, prior, GlobalSection(ps) + CrLf);
  }

  /**
    One pass's switch on the project type and its nesting: the project's
    block and NestedProjects line are appended, or the pass throws.
  */
  method ListProject(project: ProjectInfo, ns: seq<NestingDir>, root: nat, nest: bool,
                     projectSection: string, projectHierarchy: string)
    returns (section: string, hierarchy: string, failure: Option<SlnFailure>)
    requires WellFormed(ns) && root < |ns| && (nest ==> Walk(ns, 0, Keys(project.path)).Some?)
    ensures failure.None? <==> EntryOf(project, ns, root, nest).Ok?
    ensures failure.Some? ==> EntryOf(project, ns, root, nest) == Err(failure.value)
    ensures failure.None? ==>
      section == projectSection + EntryOf(project, ns, root, nest).value.block &&
      hierarchy == projectHierarchy + EntryOf(project, ns, root, nest).value.line
  {
    section, hierarchy, failure := projectSection, projectHierarchy, None;
    match ProjectTypeOf(project.path.extension) {
      case Unconverted =>
        failure := Some(InvalidProgram(UnconvertedMProj));
      case Ignored =>
      case Typed(g) =>
        section := section + ProjectBlock(g, project);
        if nest {
          var dir: int := Walk(ns, 0, Keys(project.path)).value;
          if HasOnlySelfNamedProject(ns[dir]) {
            dir := ns[dir].parent;
          }
          if dir != root {
            if dir < 0 {
              failure := Some(NullReference);
            } else {
              hierarchy := hierarchy + NestLine(project.GuidText(), ns[dir].GuidText());
            }
          }
        }
    }
  }

  /** One more pass of the loop, in terms of the passes before it. */
  lemma EmitStep(entries: seq<Result<Piece, SlnFailure>>, i: nat, head: string, folders: Listing, nest: bool,
                 prior: string)
    requires i < |entries|
    ensures Emit(entries[..i + 1], head, folders, nest, prior) ==
              Step(Emit(entries[..i], head, folders, nest, prior), entries[i], head, folders, nest)
  {
    assert entries[..i + 1][..i] == entries[..i];
  }

  /** A pass after the passes before it: the loop's state afterwards, and its result when the pass throws. */
  lemma EmitAdvance(entries: seq<Result<Piece, SlnFailure>>, i: nat, head: string, folders: Listing, nest: bool,
                    prior: string, before: Emission, after: Emission)
    requires i < |entries| && Emit(entries[..i], head, folders, nest, prior) == before && before.failure.None?
    requires after == Step(before, entries[i], head, folders, nest)
    ensures Emit(entries[..i + 1], head, folders, nest, prior) == after
    ensures after.failure.Some? ==> Emit(entries, head, folders, nest, prior) == after
  {
    EmitStep(entries, i, head, folders, nest, prior);
    if after.failure.Some? {
      EmitStops(entries, i + 1, head, folders, nest, prior);
    }
  }

  /**
    The body of the project loop for one project: its switch, then the
    whole file rewritten from the header written before the loop, the
    sections so far and, when nesting, the folder blocks and the
    NestedProjects section.
  */
  method Pass(project: ProjectInfo, ns: seq<NestingDir>, root: nat, nest: bool, head: string, folders: Listing,
              projectSection: string, projectHierarchy: string, file: string)
    returns (section: string, hierarchy: string, file': string, failure: Option<SlnFailure>)
    requires WellFormed(ns) && root < |ns| && (nest ==> Walk(ns, 0, Keys(project.path)).Some?)
    ensures Emission(Listing(section, hierarchy), file', failure) ==
              Step(Emission(Listing(projectSection, projectHierarchy), file, None), EntryOf(project, ns, root, nest),
                   head, folders, nest)
  {
    section, hierarchy, failure := ListProject(project, ns, root, nest, projectSection, projectHierarchy);
    if failure.Some? {
      return projectSection, projectHierarchy, file, failure;
    }
    var nested := "";
    if nest {
      nested := folders.projects + "Global" + CrLf + "\tGlobalSection(NestedProjects) = preSolution" + CrLf +
                hierarchy + folders.hierarchy + "\tEndGlobalSection" + CrLf + "EndGlobal" + CrLf;
    }
    file' := head + section + nested + CrLf;
  }

  /**
    The project loop: each pass adds the project's block and nesting line
    and rewrites the whole file; a pass that throws leaves the file as the
    pass before wrote it.
  */
  method ProjectLoop(ps: seq<ProjectInfo>, ns: seq<NestingDir>, root: nat, nest: bool, head: string,
                     folders: Listing, prior: string) returns (e: Emission)
    requires WellFormed(ns) && root < |ns| && (nest ==> FiledIn(ns, ps))
    ensures e == Emit(Entries(ps, ns, root, nest), head, folders, nest, prior)
  {
    ghost var entries := Entries(ps, ns, root, nest);
    var projectSection, projectHierarchy := "", "";
    var file := prior;
    var i := 0;
    while i < |ps|
      invariant i <= |ps|
      invariant Emit(entries[..i], head, folders, nest, prior) ==
        Emission(Listing(projectSection, projectHierarchy), file, None)
    {
      var section, hierarchy, file', failure :=
        Pass(ps[i], ns, root, nest, head, folders, projectSection, projectHierarchy, file);
      EmitAdvance(entries, i, head, folders, nest, prior, Emission(Listing(projectSection, projectHierarchy), file, None),
                  Emission(Listing(section, hierarchy), file', failure));
      if failure.Some? {
        return Emission(Listing(section, hierarchy), file', failure);
      }
      projectSection, projectHierarchy, file := section, hierarchy, file';
      i := i + 1;
    }
    assert entries[..i] == entries;
    e := Emission(Listing(projectSection, projectHierarchy), file, None);
  }

  /** CreateTempSlnFile: the sections, the project loop, and the configuration section appended after it. */
  method WriteTempSln(ps: seq<ProjectInfo>, items: seq<string>, ns: seq<NestingDir>, root: nat, nest: bool,
                      targetVersion: VisualStudioVersion, prior: string) returns (w: SlnWrite)
    requires WellFormed(ns) && root < |ns| && (nest ==> FiledIn(ns, ps))
    ensures w == TempSln(ps, items, ns, root, nest, targetVersion, prior)
  {
    var solutionItemsSection := BuildItemsSection(items);
    var folders := Listing("", "");
    if nest {
      folders := BuildFolders(ns, root);
    }
    var formatVer, vsVer := FormatVersion(targetVersion), VsVersion(targetVersion);
    var head := "Microsoft Visual Studio Solution File, Format Version " + formatVer + CrLf +
                "# Visual Studio " + vsVer + CrLf + solutionItemsSection + CrLf;
    var e := ProjectLoop(ps, ns, root, nest, head, folders, prior);
    if e.failure.Some? {
      return SlnWrite(e.file, e.failure);
    }
    var globalSection := BuildGlobalSection(ps);
    w := SlnWrite(e.file + (globalSection + CrLf), None);
  }
}
