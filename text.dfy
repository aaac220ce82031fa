/**
  String operations of the .NET base library that the modelled code relies on:
  invariant case mapping (restricted to ASCII letters), Char.IsWhiteSpace,
  ordinal StartsWith/EndsWith/Contains, String.Split and String.Join,
  TrimStart/TrimEnd and String.Replace.
*/
module Text {

  /** Char.IsWhiteSpace: the Unicode white-space characters. */
  predicate IsWhiteSpace(c: char) {
    var n := c as int;
    (9 <= n <= 13) || n == 0x20 || n == 0x85 || n == 0xA0 || n == 0x1680
    || (0x2000 <= n <= 0x200A) || n == 0x2028 || n == 0x2029 || n == 0x202F
    || n == 0x205F || n == 0x3000
  }

  function LowerChar(c: char): char {
    if 'A' <= c <= 'Z' then (c as int + 32) as char else c
  }

  function UpperChar(c: char): char {
    if 'a' <= c <= 'z' then (c as int - 32) as char else c
  }

  /** ToLowerInvariant, on ASCII letters. */
  function Lower(s: string): (r: string)
    ensures |r| == |s|
  {
    seq(|s|, i requires 0 <= i < |s| => LowerChar(s[i]))
  }

  /** ToUpperInvariant, on ASCII letters. */
  function Upper(s: string): (r: string)
    ensures |r| == |s|
  {
    seq(|s|, i requires 0 <= i < |s| => UpperChar(s[i]))
  }

  lemma LowerIdempotent(s: string)
    ensures Lower(Lower(s)) == Lower(s)
  {
  }

  lemma LowerAppend(a: string, b: string)
    ensures Lower(a + b) == Lower(a) + Lower(b)
  {
  }

  /** String comparison that ignores case (StringComparison.InvariantCultureIgnoreCase). */
  predicate EqualsIgnoreCase(a: string, b: string) {
    Lower(a) == Lower(b)
  }

  predicate StartsWith(s: string, prefix: string) {
    |prefix| <= |s| && s[..|prefix|] == prefix
  }

  predicate EndsWith(s: string, suffix: string) {
    |suffix| <= |s| && s[|s| - |suffix|..] == suffix
  }

  /** True when `part` occurs in `s` starting at position i. */
  predicate OccursAt(s: string, part: string, i: nat) {
    i + |part| <= |s| && s[i..i + |part|] == part
  }

  predicate Contains(s: string, part: string) {
    exists i: nat | i <= |s| :: OccursAt(s, part, i)
  }

  predicate HasChar(s: string, c: char) {
    exists i :: 0 <= i < |s| && s[i] == c
  }

  /** String.Split on the characters selected by `isSep`, keeping empty pieces. */
  function SplitWhere(s: string, isSep: char -> bool): (r: seq<string>)
    ensures |r| >= 1
    ensures forall k, j :: 0 <= k < |r| && 0 <= j < |r[k]| ==> !isSep(r[k][j])
  {
    if s == [] then [""]
    else
      var rest := SplitWhere(s[1..], isSep);
      if isSep(s[0]) then [""] + rest
      else [[s[0]] + rest[0]] + rest[1..]
  }

  /** String.Split(c): every piece between two occurrences of c, empty ones included. */
  function Split(s: string, c: char): seq<string> {
    SplitWhere(s, CharIs(c))
  }

  /** The separator test of String.Split(c). */
  function CharIs(c: char): char -> bool {
    x => x == c
  }

  function RemoveEmpty(parts: seq<string>): (r: seq<string>)
    ensures forall i :: 0 <= i < |r| ==> r[i] != ""
  {
    if parts == [] then []
    else (if parts[0] == "" then [] else [parts[0]]) + RemoveEmpty(parts[1..])
  }

  /** String.Split((char[])null, RemoveEmptyEntries): the white-space separated words. */
  function Words(s: string): seq<string> {
    RemoveEmpty(SplitWhere(s, IsWhiteSpace))
  }

  function Join(sep: string, parts: seq<string>): string {
    if parts == [] then ""
    else if |parts| == 1 then parts[0]
    else parts[0] + sep + Join(sep, parts[1..])
  }

  /** Concatenation of a sequence of strings. */
  function Concat(parts: seq<string>): string {
    if parts == [] then "" else parts[0] + Concat(parts[1..])
  }

  function TrimStart(s: string): (r: string)
    ensures r == "" || !IsWhiteSpace(r[0])
    ensures |r| <= |s| && r == s[|s| - |r|..]
  {
    if s != [] && IsWhiteSpace(s[0]) then
      var r := TrimStart(s[1..]);
      assert s[1..][|s| - 1 - |r|..] == s[|s| - |r|..];
      r
    else s
  }

  function TrimEnd(s: string): (r: string)
    ensures r == "" || !IsWhiteSpace(r[|r| - 1])
    ensures |r| <= |s| && r == s[..|r|]
  {
    if s != [] && IsWhiteSpace(s[|s| - 1]) then
      var r := TrimEnd(s[..|s| - 1]);
      assert s[..|s| - 1][..|r|] == s[..|r|];
      r
    else s
  }

  function Trim(s: string): string {
    TrimEnd(TrimStart(s))
  }

  /** String.Replace(target, replacement): every non-overlapping occurrence, scanning left to right. */
  function Replace(s: string, target: string, replacement: string): string
    requires target != ""
  {
    if |s| < |target| then s
    else if s[..|target|] == target then replacement + Replace(s[|target|..], target, replacement)
    else [s[0]] + Replace(s[1..], target, replacement)
  }

  /** Index of the first character of s that satisfies p, or -1. */
  function IndexWhere(s: string, p: char -> bool): (r: int)
    ensures -1 <= r < |s|
    ensures r == -1 ==> forall i :: 0 <= i < |s| ==> !p(s[i])
    ensures r >= 0 ==> p(s[r]) && forall i :: 0 <= i < r ==> !p(s[i])
  {
    if s == [] then -1
    else if p(s[0]) then 0
    else
      var k := IndexWhere(s[1..], p);
      if k == -1 then -1 else k + 1
  }

  /** Index of the last character of s that satisfies p, or -1. */
  function LastIndexWhere(s: string, p: char -> bool): (r: int)
    ensures -1 <= r < |s|
    ensures r == -1 ==> forall i :: 0 <= i < |s| ==> !p(s[i])
    ensures r >= 0 ==> p(s[r]) && forall i :: r < i < |s| ==> !p(s[i])
  {
    if s == [] then -1
    else if p(s[|s| - 1]) then |s| - 1
    else LastIndexWhere(s[..|s| - 1], p)
  }

  // ---------------------------------------------------------------------
  // Facts about Split and Join
  // ---------------------------------------------------------------------

  /** A separator splits the string into the pieces of its two sides. */
  lemma {:induction false} SplitAround(a: string, c: char, b: string, isSep: char -> bool)
    requires isSep(c)
    ensures SplitWhere(a + [c] + b, isSep) == SplitWhere(a, isSep) + SplitWhere(b, isSep)
  {
    if a == [] {
      assert a + [c] + b == [c] + b;
      assert ([c] + b)[1..] == b;
    } else {
      assert (a + [c] + b)[1..] == a[1..] + [c] + b;
      SplitAround(a[1..], c, b, isSep);
    }
  }

  /** A string without separators is a single piece. */
  lemma {:induction false} SplitNoSeparator(s: string, isSep: char -> bool)
    requires forall i :: 0 <= i < |s| ==> !isSep(s[i])
    ensures SplitWhere(s, isSep) == [s]
  {
    if s != [] {
      SplitNoSeparator(s[1..], isSep);
      assert [s[0]] + s[1..] == s;
    }
  }

  lemma {:induction false} RemoveEmptyAppend(a: seq<string>, b: seq<string>)
    ensures RemoveEmpty(a + b) == RemoveEmpty(a) + RemoveEmpty(b)
  {
    if a == [] {
      assert a + b == b;
    } else {
      assert (a + b)[1..] == a[1..] + b;
      RemoveEmptyAppend(a[1..], b);
    }
  }

  lemma {:induction false} RemoveEmptyFrom(parts: seq<string>)
    ensures forall i :: 0 <= i < |RemoveEmpty(parts)| ==> RemoveEmpty(parts)[i] in parts
  {
    if parts != [] {
      RemoveEmptyFrom(parts[1..]);
      assert RemoveEmpty(parts) == (if parts[0] == "" then [] else [parts[0]]) + RemoveEmpty(parts[1..]);
    }
  }

  lemma {:induction false} RemoveEmptyKeeps(parts: seq<string>)
    requires forall i :: 0 <= i < |parts| ==> parts[i] != ""
    ensures RemoveEmpty(parts) == parts
  {
    if parts != [] {
      RemoveEmptyKeeps(parts[1..]);
    }
  }

  /**
    Splitting a join undoes it, provided no part contains the separator:
    the parts come back in order.
  */
  lemma {:induction false} SplitJoin(parts: seq<string>, c: char)
    requires |parts| >= 1
    requires forall i, j :: 0 <= i < |parts| && 0 <= j < |parts[i]| ==> parts[i][j] != c
    ensures Split(Join([c], parts), c) == parts
  {
    var isSep := CharIs(c);
    if |parts| == 1 {
      SplitNoSeparator(parts[0], isSep);
    } else {
      SplitJoin(parts[1..], c);
      SplitAround(parts[0], c, Join([c], parts[1..]), isSep);
      assert parts[0] + [c] + Join([c], parts[1..]) == Join([c], parts);
      SplitNoSeparator(parts[0], isSep);
      assert [parts[0]] + parts[1..] == parts;
    }
  }

  /** A string starts with what was put in front of it, and keeps doing so as it grows at the back. */
  lemma StartsWithAppend(a: string, b: string, c: string)
    ensures StartsWith(a + b, a)
    ensures StartsWith(a, c) ==> StartsWith(a + b, c)
  {
    assert (a + b)[..|a|] == a;
    if StartsWith(a, c) {
      assert (a + b)[..|c|] == a[..|c|];
    }
  }

  /** A string ends with what was appended to it. */
  lemma EndsWithAppend(a: string, b: string)
    ensures EndsWith(a + b, b)
  {
    assert (a + b)[|a + b| - |b|..] == b;
  }

  /** Text found in the middle part is found in the whole, shifted by the length of the front. */
  lemma OccursAtAppend(a: string, b: string, c: string, part: string, i: nat)
    requires OccursAt(b, part, i)
    ensures OccursAt(a + b + c, part, |a| + i)
  {
    assert (a + b + c)[|a| + i..|a| + i + |part|] == b[i..i + |part|];
  }

  /** Concatenation is associative. */
  lemma AppendThree<T>(a: seq<T>, b: seq<T>, c: seq<T>)
    ensures (a + b) + c == a + (b + c)
  {
  }

  /** Appending x and then y is appending x + y. */
  lemma AppendInTwoSteps<T>(s0: seq<T>, x: seq<T>, y: seq<T>, s1: seq<T>, s2: seq<T>)
    requires s1 == s0 + x && s2 == s1 + y
    ensures s2 == s0 + (x + y)
  {
    AppendThree(s0, x, y);
  }
}
