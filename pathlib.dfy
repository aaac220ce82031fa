/**
  The string operations of System.IO.Path that the modelled code uses, for
  Windows paths: '\' is the directory separator, '/' the alternative one and
  ':' the volume separator. Path.GetFullPath touches the file system and is
  not here: callers receive its result as an argument.
*/
module PathLib {
  import opened Wrappers
  import opened Text

  const DirectorySeparator: char := '\\'
  const VolumeSeparator: char := ':'

  predicate IsSeparator(c: char) {
    c == '\\' || c == '/'
  }

  /** Path.IsPathRooted: a leading separator or a drive letter. */
  predicate IsPathRooted(p: string) {
    (|p| >= 1 && IsSeparator(p[0])) || (|p| >= 2 && p[1] == ':')
  }

  /** Path.Combine(a, b). */
  function Combine(a: string, b: string): string {
    if b == "" then a
    else if a == "" then b
    else if IsPathRooted(b) then b
    else if IsSeparator(a[|a| - 1]) || a[|a| - 1] == ':' then a + b
    else a + [DirectorySeparator] + b
  }

  /** End of the share name of a UNC root "\\server\share", scanning from i. */
  function UncRootEnd(p: string, i: nat, separatorsLeft: nat): (r: nat)
    requires i <= |p|
    ensures i <= r <= |p|
    decreases |p| - i
  {
    if i == |p| then i
    else if !IsSeparator(p[i]) then UncRootEnd(p, i + 1, separatorsLeft)
    else if separatorsLeft > 1 then UncRootEnd(p, i + 1, separatorsLeft - 1)
    else i
  }

  /** Length of the root of p (GetRootLength): "C:\", "C:", "\", or "\\server\share". */
  function RootLength(p: string): (r: nat)
    ensures r <= |p|
  {
    if |p| >= 1 && IsSeparator(p[0]) then
      if |p| >= 2 && IsSeparator(p[1]) then UncRootEnd(p, 2, 2) else 1
    else if |p| >= 2 && p[1] == ':' then
      if |p| >= 3 && IsSeparator(p[2]) then 3 else 2
    else 0
  }

  /**
    Path.GetDirectoryName: everything before the last separator that is not
    part of the root, or the root itself; None (null) when p is only a root.
  */
  function DirectoryName(p: string): (r: Option<string>)
    ensures r.Some? ==> StartsWith(p, r.value) && |r.value| < |p|
  {
    var root := RootLength(p);
    if |p| <= root then None
    else
      var k := LastIndexWhere(p[root..], IsSeparator);
      Some(p[..if k == -1 then root else root + k])
  }

  predicate EndsName(c: char) {
    IsSeparator(c) || c == ':'
  }

  /** Path.GetFileName: what follows the last separator or volume separator. */
  function FileName(p: string): (r: string)
    ensures EndsWith(p, r)
    ensures forall i :: 0 <= i < |r| ==> !EndsName(r[i])
  {
    var k := LastIndexWhere(p, EndsName);
    assert forall i :: k < i < |p| ==> !EndsName(p[i]);
    p[k + 1..]
  }

  predicate IsDot(c: char) {
    c == '.'
  }

  /** Path.GetFileNameWithoutExtension: the file name up to its last '.'. */
  function FileNameWithoutExtension(p: string): string {
    var name := FileName(p);
    var k := LastIndexWhere(name, IsDot);
    if k == -1 then name else name[..k]
  }

  /** Path.GetExtension: the file name from its last '.', or "" when that dot ends it. */
  function Extension(p: string): string {
    var name := FileName(p);
    var k := LastIndexWhere(name, IsDot);
    if k == -1 || k == |name| - 1 then "" else name[k..]
  }

  /** The extension and the base name depend only on the file name. */
  lemma SameFileName(p: string, q: string)
    requires FileName(p) == FileName(q)
    ensures Extension(p) == Extension(q)
    ensures FileNameWithoutExtension(p) == FileNameWithoutExtension(q)
  {
  }
}
