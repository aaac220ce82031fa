/**
  VSPath: a file or directory path together with its "virtual" Visual Studio
  folder path, in which the volume becomes a first component "drive_C" or
  "network_server" and the remaining directories follow it.
*/
module VSPaths {
  import opened Wrappers
  import opened Text
  import opened PathLib

  const DrivePrefix: string := "drive_"
  const NetworkPrefix: string := "network_"

  /** projectName and extension are "" where the source leaves them null. */
  datatype VSPath = VSPath(
    fullName: string,
    directoryName: string,
    projectName: string,
    extension: string,
    vsPath: string,
    components: seq<string>)

  /** Rewrites the first directory segment into its virtual form. */
  function TagVolume(volume: string): (r: string)
    ensures EndsWith(volume, ":") ==> r == DrivePrefix + volume[..|volume| - 1]
    ensures !EndsWith(volume, ":") ==> r == NetworkPrefix + volume
  {
    if EndsWith(volume, [VolumeSeparator]) then DrivePrefix + volume[..|volume| - 1]
    else NetworkPrefix + volume
  }

  /** The virtual components of a directory: its non-empty '\' segments, volume tagged. */
  function DirectoryComponents(directory: string): (r: seq<string>)
    ensures directory == "" ==> r == []
  {
    if directory == "" then []
    else
      var segments := RemoveEmpty(Split(directory, DirectorySeparator));
      if segments == [] then []
      else [TagVolume(segments[0])] + segments[1..]
  }

  /** The first constructor: a file (or directory, with empty name) in a directory. */
  function FromParts(directory: string, project: string, extension: string): (r: VSPath)
    ensures r.fullName == Combine(directory, project + extension)
    ensures r.directoryName == directory
    ensures r.components == DirectoryComponents(directory)
    ensures r.vsPath == Join([DirectorySeparator], r.components)
  {
    var components := DirectoryComponents(directory);
    VSPath(Combine(directory, project + extension), directory, project, extension,
           Join([DirectorySeparator], components), components)
  }

  /** emptyPath: every part empty, as new VSPath("", "", "") builds it. */
  const EmptyPath: VSPath := VSPath("", "", "", "", "", [])

  lemma EmptyPathFromParts()
    ensures FromParts("", "", "") == EmptyPath
  {
    assert DirectoryComponents("") == [];
  }

  /**
    The directory segments that a list of virtual components stands for: a
    "drive_C" head becomes "C:", a "network_server" head becomes "", "",
    "server", and a lone volume gets an empty segment after it.
  */
  function FileComponents(kept: seq<string>): (r: seq<string>)
    requires |kept| >= 1
    ensures |r| >= 1
  {
    var afterDrive :=
      if StartsWith(kept[0], DrivePrefix) then
        var first := kept[0][|DrivePrefix|..] + [VolumeSeparator];
        if |kept| == 1 then [first, ""] else [first] + kept[1..]
      else kept;
    if StartsWith(afterDrive[0], NetworkPrefix) then
      var first := afterDrive[0][|NetworkPrefix|..];
      ["", ""] + (if |afterDrive| == 1 then [first, ""] else [first] + afterDrive[1..])
    else afterDrive
  }

  /**
    The second constructor: the directory levelsDown levels above the one the
    components name. vsPath keeps the join of ALL the given components.
  */
  function FromComponents(components: seq<string>, levelsDown: nat): (r: VSPath)
    requires levelsDown < |components|
    ensures r.components == components[..|components| - levelsDown]
    ensures r.vsPath == Join([DirectorySeparator], components)
    ensures r.fullName == r.directoryName
    ensures r.directoryName == Join([DirectorySeparator], FileComponents(r.components))
  {
    var kept := components[..|components| - levelsDown];
    var directory := Join([DirectorySeparator], FileComponents(kept));
    VSPath(directory, directory, "", "", Join([DirectorySeparator], components), kept)
  }

  /** GetFromDir, given the result of Path.GetFullPath (None when it throws). */
  function GetFromDir(fullPath: Option<string>): (r: VSPath)
    ensures fullPath.None? || fullPath.value == "" ==> r == EmptyPath
    ensures fullPath.Some? && fullPath.value != "" ==>
      r.fullName == fullPath.value && r.directoryName == fullPath.value
      && r.components == DirectoryComponents(fullPath.value)
  {
    if fullPath.None? || fullPath.value == "" then EmptyPath
    else FromParts(fullPath.value, "", "")
  }

  /** GetFromFile, given the result of Path.GetFullPath (None when it throws). */
  function GetFromFile(fullPath: Option<string>): (r: VSPath)
    ensures fullPath.None? || fullPath.value == "" ==> r == EmptyPath
    ensures fullPath.Some? && fullPath.value != "" ==>
      var full := fullPath.value;
      r.directoryName == DirectoryName(full).GetOr("")
      && r.projectName == FileNameWithoutExtension(full)
      && r.extension == Extension(full)
      && r.components == DirectoryComponents(r.directoryName)
  {
    if fullPath.None? || fullPath.value == "" then EmptyPath
    else
      var full := fullPath.value;
      FromParts(DirectoryName(full).GetOr(""), FileNameWithoutExtension(full), Extension(full))
  }

  /** GetFromComponents: the directory named by a list of virtual components. */
  function GetFromComponents(components: seq<string>): (r: VSPath)
    ensures components == [] ==> r == EmptyPath
    ensures components != [] ==> r.components == components
  {
    if components == [] then EmptyPath else FromComponents(components, 0)
  }

  /** GetAncestorDirectory: levelsDown directories up; a negative count means none. */
  function GetAncestorDirectory(p: VSPath, levelsDown: int): (r: VSPath)
    ensures |p.components| == 0 || levelsDown >= |p.components| ==> r == EmptyPath
    ensures 0 < |p.components| && levelsDown < |p.components| ==>
      var up := if levelsDown <= 0 then 0 else levelsDown;
      r.components == p.components[..|p.components| - up]
      && r.vsPath == Join([DirectorySeparator], p.components)
  {
    if |p.components| == 0 || levelsDown >= |p.components| then EmptyPath
    else FromComponents(p.components, if levelsDown <= 0 then 0 else levelsDown)
  }

  /** vsName: the last virtual component, or "" when there is none. */
  function VsName(p: VSPath): (r: string)
    ensures |p.components| == 0 ==> r == ""
    ensures |p.components| > 0 ==> r == p.components[|p.components| - 1]
  {
    if |p.components| == 0 then "" else p.components[|p.components| - 1]
  }

  /** lowerFullName, which is also what ToString returns. */
  function LowerFullName(p: VSPath): string {
    Lower(p.fullName)
  }

  /** Equals: the full names and the virtual paths agree ignoring case. */
  predicate Equals(a: VSPath, b: VSPath) {
    Lower(a.fullName) == Lower(b.fullName) && Lower(a.vsPath) == Lower(b.vsPath)
  }

  /** The value a dictionary keyed by VSPath effectively compares. */
  datatype PathKey = PathKey(lowerFullName: string, lowerVsPath: string)

  function Key(p: VSPath): (r: PathKey)
    ensures r.lowerFullName == LowerFullName(p)
    ensures r.lowerVsPath == Lower(p.vsPath)
  {
    PathKey(Lower(p.fullName), Lower(p.vsPath))
  }

  /** GetHashCode hashes the lower-case full name. */
  function HashInput(p: VSPath): string {
    Lower(p.fullName)
  }

  /** Keying by PathKey is the same as comparing with Equals. */
  lemma EqualsIsKeyEquality(a: VSPath, b: VSPath)
    ensures Equals(a, b) <==> Key(a) == Key(b)
  {
  }

  /** GetHashCode is consistent with Equals. */
  lemma EqualPathsHashEqually(a: VSPath, b: VSPath)
    requires Equals(a, b)
    ensures HashInput(a) == HashInput(b)
  {
  }

  /** Components that FileComponents turns back into a directory that parses to them. */
  predicate WellFormedComponents(c: seq<string>) {
    && |c| >= 1
    && (forall i :: 0 <= i < |c| ==> c[i] != "" && !HasChar(c[i], DirectorySeparator))
    && (|| (StartsWith(c[0], DrivePrefix) && !StartsWith(c[0][|DrivePrefix|..], NetworkPrefix))
        || (StartsWith(c[0], NetworkPrefix) && |c[0]| > |NetworkPrefix| && !EndsWith(c[0], ":")))
  }

  /** A directory rebuilt from well-formed components parses back to the same components. */
  lemma ComponentsRoundTrip(c: seq<string>)
    requires WellFormedComponents(c)
    ensures DirectoryComponents(FromComponents(c, 0).directoryName) == c
  {
    assert c[..|c|] == c;
    var f := FileComponents(c);
    var rest := if |c| == 1 then [] else c[1..];
    assert c == [c[0]] + rest;
    var volume: string;
    if StartsWith(c[0], DrivePrefix) {
      volume := DriveRoundTrip(c);
    } else {
      volume := NetworkRoundTrip(c);
    }
    var directory := Join([DirectorySeparator], f);
    assert DirectoryComponents(directory) == [TagVolume(volume)] + rest;
  }

  /** The drive case: "drive_X" is rebuilt as "X:" and tagged back. */
  lemma DriveRoundTrip(c: seq<string>) returns (volume: string)
    requires WellFormedComponents(c) && StartsWith(c[0], DrivePrefix)
    ensures var f := FileComponents(c);
      Split(Join([DirectorySeparator], f), DirectorySeparator) == f
      && RemoveEmpty(f) == [volume] + (if |c| == 1 then [] else c[1..])
      && TagVolume(volume) == c[0]
      && Join([DirectorySeparator], f) != ""
  {
    var f := FileComponents(c);
    var rest := c[1..];
    var head := c[0];
    assert !HasChar(head, DirectorySeparator);
    assert !StartsWith(head, NetworkPrefix) by {
      assert head[0] == DrivePrefix[0];
    }
    volume := DriveVolume(head);
    var tail := if |c| == 1 then [""] else rest;
    assert f == [volume] + tail;
    NoSeparatorInAll(f, head, volume, tail);
    SplitJoin(f, DirectorySeparator);
    RemoveEmptyAppend([volume], tail);
    if |c| > 1 {
      RemoveEmptyKeeps(rest);
    }
  }

  /** "drive_X" becomes the volume "X:", which is not mistaken for a server and tags back. */
  lemma DriveVolume(head: string) returns (volume: string)
    requires StartsWith(head, DrivePrefix) && !StartsWith(head[|DrivePrefix|..], NetworkPrefix)
    ensures volume == head[|DrivePrefix|..] + [VolumeSeparator]
    ensures !StartsWith(volume, NetworkPrefix)
    ensures TagVolume(volume) == head
  {
    volume := head[|DrivePrefix|..] + [VolumeSeparator];
    assert !StartsWith(volume, NetworkPrefix) by {
      if |head[|DrivePrefix|..]| < |NetworkPrefix| {
        assert |volume| <= |NetworkPrefix|;
        if |volume| == |NetworkPrefix| {
          assert volume[|volume| - 1] == ':';
          assert volume[..|NetworkPrefix|] != NetworkPrefix by {
            assert volume[..|NetworkPrefix|][7] != NetworkPrefix[7];
          }
        }
      } else {
        assert volume[..|NetworkPrefix|] == head[|DrivePrefix|..][..|NetworkPrefix|];
      }
    }
    assert volume[..|volume| - 1] == head[|DrivePrefix|..];
    assert EndsWith(volume, [VolumeSeparator]);
    assert DrivePrefix + head[|DrivePrefix|..] == head;
  }

  /** The network case: "network_S" is rebuilt as "\\S" and tagged back. */
  lemma NetworkRoundTrip(c: seq<string>) returns (server: string)
    requires WellFormedComponents(c) && !StartsWith(c[0], DrivePrefix)
    ensures var f := FileComponents(c);
      Split(Join([DirectorySeparator], f), DirectorySeparator) == f
      && RemoveEmpty(f) == [server] + (if |c| == 1 then [] else c[1..])
      && TagVolume(server) == c[0]
      && Join([DirectorySeparator], f) != ""
  {
    var f := FileComponents(c);
    var rest := c[1..];
    var head := c[0];
    assert !HasChar(head, DirectorySeparator);
    server := NetworkServer(head);
    var tail := if |c| == 1 then [""] else rest;
    assert f == ["", ""] + ([server] + tail);
    NoSeparatorInAll(f, head, server, tail);
    SplitJoin(f, DirectorySeparator);
    RemoveEmptyAppend(["", ""], [server] + tail);
    RemoveEmptyAppend([server], tail);
    if |c| > 1 {
      RemoveEmptyKeeps(rest);
    }
  }

  /** "network_S" becomes the server name "S", which tags back. */
  lemma NetworkServer(head: string) returns (server: string)
    requires StartsWith(head, NetworkPrefix) && |head| > |NetworkPrefix| && !EndsWith(head, ":")
    ensures server == head[|NetworkPrefix|..]
    ensures TagVolume(server) == head
  {
    server := head[|NetworkPrefix|..];
    assert !EndsWith(server, [VolumeSeparator]) by {
      assert server[|server| - 1] == head[|head| - 1];
    }
    assert NetworkPrefix + server == head;
  }

  /** No element of head-replaced components contains the directory separator. */
  lemma NoSeparatorInAll(f: seq<string>, head: string, first: string, tail: seq<string>)
    requires !HasChar(head, DirectorySeparator)
    requires forall j :: 0 <= j < |first| ==> first[j] == VolumeSeparator || first[j] in head
    requires forall i :: 0 <= i < |tail| ==> !HasChar(tail[i], DirectorySeparator)
    requires f == [first] + tail || f == ["", ""] + ([first] + tail)
    ensures forall i, j :: 0 <= i < |f| && 0 <= j < |f[i]| ==> f[i][j] != DirectorySeparator
  {
  }

  /** The directory of an ancestor parses to the leading components of the path. */
  lemma AncestorComponents(p: VSPath, levelsDown: nat)
    requires WellFormedComponents(p.components)
    requires levelsDown < |p.components|
    ensures DirectoryComponents(GetAncestorDirectory(p, levelsDown).directoryName)
            == p.components[..|p.components| - levelsDown]
  {
    var kept := p.components[..|p.components| - levelsDown];
    PrefixWellFormed(p.components, |p.components| - levelsDown);
    ComponentsRoundTrip(kept);
    WholeSlice(kept);
  }

  /** A non-empty prefix of well-formed components is well formed. */
  lemma PrefixWellFormed(c: seq<string>, n: nat)
    requires WellFormedComponents(c) && 1 <= n <= |c|
    ensures WellFormedComponents(c[..n])
  {
    assert c[..n][0] == c[0];
  }

  lemma WholeSlice<T>(s: seq<T>)
    ensures s[..|s|] == s
  {
  }

  /** The components of any directory whose volume is not itself "drive_network_..." are well formed. */
  lemma ParsedComponentsWellFormed(directory: string)
    requires DirectoryComponents(directory) != []
    requires !StartsWith(DirectoryComponents(directory)[0], DrivePrefix + NetworkPrefix)
    ensures WellFormedComponents(DirectoryComponents(directory))
  {
    var pieces := Split(directory, DirectorySeparator);
    var segments := RemoveEmpty(pieces);
    var c := DirectoryComponents(directory);
    assert c == [TagVolume(segments[0])] + segments[1..];
    RemoveEmptyFrom(pieces);
    forall i | 0 <= i < |segments|
      ensures !HasChar(segments[i], DirectorySeparator)
    {
      assert segments[i] in pieces;
    }
    TaggedVolumeClean(segments[0]);
  }

  /** The tagged volume of a segment without separators has none either. */
  lemma TaggedVolumeClean(v: string)
    requires v != "" && !HasChar(v, DirectorySeparator)
    requires !StartsWith(TagVolume(v), DrivePrefix + NetworkPrefix)
    ensures var t := TagVolume(v);
      && t != "" && !HasChar(t, DirectorySeparator)
      && (|| (StartsWith(t, DrivePrefix) && !StartsWith(t[|DrivePrefix|..], NetworkPrefix))
          || (StartsWith(t, NetworkPrefix) && |t| > |NetworkPrefix| && !EndsWith(t, ":")))
  {
    var t := TagVolume(v);
    if EndsWith(v, [VolumeSeparator]) {
      var x := v[..|v| - 1];
      assert t == DrivePrefix + x;
      assert t[|DrivePrefix|..] == x;
      assert StartsWith(x, NetworkPrefix) ==> StartsWith(t, DrivePrefix + NetworkPrefix);
      assert !HasChar(t, DirectorySeparator) by {
        assert forall j :: 0 <= j < |x| ==> x[j] == v[j];
      }
    } else {
      assert t == NetworkPrefix + v;
      assert t[|NetworkPrefix|..] == v;
      assert t[|t| - 1] == v[|v| - 1];
      assert !HasChar(t, DirectorySeparator) by {
        assert forall j :: |NetworkPrefix| <= j < |t| ==> t[j] == v[j - |NetworkPrefix|];
      }
    }
  }

  /**
    An ancestor of a path built from a directory names the directory whose
    virtual components are the leading components of that path.
  */
  lemma AncestorOfParsedPath(directory: string, project: string, extension: string, levelsDown: nat)
    requires DirectoryComponents(directory) != []
    requires !StartsWith(DirectoryComponents(directory)[0], DrivePrefix + NetworkPrefix)
    requires levelsDown < |DirectoryComponents(directory)|
    ensures var p := FromParts(directory, project, extension);
      DirectoryComponents(GetAncestorDirectory(p, levelsDown).directoryName)
        == p.components[..|p.components| - levelsDown]
  {
    ParsedComponentsWellFormed(directory);
    AncestorComponents(FromParts(directory, project, extension), levelsDown);
  }
}
