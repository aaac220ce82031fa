/**
  What the closure engine asks of the outside world, as plain values: the
  file system (Path.GetFullPath, File.Exists, File.GetAttributes,
  Directory.GetFiles and Directory.GetDirectories), MSBuild's evaluation of a
  project file, GUID parsing and the URI arithmetic that makes solution items
  relative to the solution file.
*/
module Environment {
  import opened Wrappers
  import opened Text
  import opened Guids
  import MProj

  /**
    An evaluated item: its item type, its unevaluated Include and its
    metadata. MSBuild compares metadata names ignoring case, so `metadata`
    is keyed by the lower-case name.
  */
  datatype ProjectItem = ProjectItem(itemType: string, unevaluatedInclude: string, metadata: map<string, string>)

  /**
    A project as MSBuild evaluates it: properties, items in order, and the
    files it imported. Property names ignore case, so `properties` is keyed
    by the lower-case name.
  */
  datatype EvaluatedProject = EvaluatedProject(
    properties: map<string, string>,
    items: seq<ProjectItem>,
    importedFiles: seq<string>)

  /** Project.GetPropertyValue: the property's value under any casing of its name, or "" when it is not defined (never null). */
  function PropertyValue(p: EvaluatedProject, name: string): (r: string)
    ensures Lower(name) !in p.properties ==> r == ""
    ensures Lower(name) in p.properties ==> r == p.properties[Lower(name)]
  {
    if Lower(name) in p.properties then p.properties[Lower(name)] else ""
  }

  /** ProjectItem.GetMetadataValue: the metadata value under any casing of its name, or "" when it is not defined. */
  function MetadataValue(item: ProjectItem, name: string): (r: string)
    ensures Lower(name) !in item.metadata ==> r == ""
    ensures Lower(name) in item.metadata ==> r == item.metadata[Lower(name)]
  {
    if Lower(name) in item.metadata then item.metadata[Lower(name)] else ""
  }

  /** Names that differ only in case read the same property and the same metadata. */
  lemma LookupIgnoresCase(p: EvaluatedProject, item: ProjectItem, a: string, b: string)
    requires EqualsIgnoreCase(a, b)
    ensures PropertyValue(p, a) == PropertyValue(p, b)
    ensures MetadataValue(item, a) == MetadataValue(item, b)
  {
  }

  /** Project.GetItems(type): the items of that type, in evaluation order (item types ignore case). */
  function ItemsOfType(items: seq<ProjectItem>, itemType: string): (r: seq<ProjectItem>)
    ensures |r| <= |items|
    ensures forall k :: 0 <= k < |r| ==> r[k] in items && EqualsIgnoreCase(r[k].itemType, itemType)
    ensures forall k :: 0 <= k < |items| && EqualsIgnoreCase(items[k].itemType, itemType) ==> items[k] in r
  {
    if items == [] then []
    else
      var rest := ItemsOfType(items[1..], itemType);
      assert forall k :: 1 <= k < |items| ==> items[k] == items[1..][k - 1];
      if EqualsIgnoreCase(items[0].itemType, itemType) then [items[0]] + rest else rest
  }

  /** The FileAttributes flags the source tests, and the rest. */
  datatype FileAttribute = ReadOnly | Hidden | System | Directory | Archive | Normal | Offline | OtherAttribute

  /**
    The world the program runs in. A failing call is an Err carrying the
    exception's Message. Directory heights stand for the finiteness of the
    directory tree: a subdirectory is lower than its parent.
  */
  datatype World = World(
    fullPath: string -> Result<string, string>,
    files: set<string>,
    attributes: string -> Option<set<FileAttribute>>,
    projectFilesIn: string -> seq<string>,
    subdirectories: string -> seq<string>,
    height: string -> nat,
    evaluate: string -> Result<EvaluatedProject, string>,
    loadMProj: string -> MProj.MsProject,
    parseGuid: string -> Option<Guid>,
    relativeUri: (string, string) -> Result<string, string>)
  {
    /**
      What the file system guarantees: the directory tree is finite (every
      subdirectory is lower than the directory it is in), Directory.GetDirectories
      lists directories, Directory.GetFiles lists only existing files, and
      File.Exists holds of no directory.
    */
    ghost predicate Valid() {
      && (forall d, c :: c in subdirectories(d) ==>
            height(c) < height(d) && (attributes(c).None? || Directory in attributes(c).value))
      && (forall d, f :: f in projectFilesIn(d) ==> f in files)
      && (forall f :: f in files ==> attributes(f).Some? && Directory !in attributes(f).value)
    }

    /** Path.GetFullPath as VSPath's factories see it: a failure is caught and reads as null. */
    function FullPathOrNull(p: string): (r: Option<string>)
      ensures fullPath(p).Ok? ==> r == Some(fullPath(p).value)
      ensures fullPath(p).Err? ==> r == None
    {
      match fullPath(p)
      case Ok(f) => Some(f)
      case Err(_) => None
    }
  }
}
