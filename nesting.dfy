/**
  The solution-folder tree. Every node stands for one directory level of the
  virtual paths of the projects added to it; children are kept in a list
  sorted by their lower-case names, and each node records the projects that
  live directly in its directory.

  The nodes live in one sequence owned by the tree: index 0 is the real root,
  and a node refers to its parent and children by index. All nodes share the
  same real root, which is index 0.
*/
module Nesting {
  import opened Wrappers
  import opened Text
  import opened Guids
  import opened VSPaths

  const TypeGuid: string := "{2150E333-8FDC-42A3-9474-1A3956D46DE8}"
  const SolutionItemsGuid: string := "{DBD159B4-D86B-4268-97A0-0C2B44FDB374}"

  /** An entry of a node's sorted child list: the child's key and its index. */
  datatype Child = Child(key: string, node: nat)

  /**
    One folder node. The root has parent -1; projects maps a lower-case
    project name to the name as it was added.
  */
  datatype NestingDir = NestingDir(
    realGuid: Guid,
    path: VSPath,
    parent: int,
    children: seq<Child>,
    projects: map<string, string>)
  {
    /** The guid property: the "B" rendering, in lower case. */
    function GuidText(): string {
      FormatB(realGuid)
    }
  }

  /** The key a node is filed under in its parent: its lower-case vsName. */
  function KeyOf(p: VSPath): string {
    Lower(VsName(p))
  }

  /** The keys GetDir follows from the root for a path: its lower-case components. */
  function Keys(p: VSPath): (r: seq<string>)
    ensures |r| == |p.components|
    ensures forall k :: 0 <= k < |r| ==> r[k] == Lower(p.components[k])
  {
    LowerAll(p.components)
  }

  /** Each name in lower case. */
  function LowerAll(names: seq<string>): (r: seq<string>)
    ensures |r| == |names|
    ensures forall k :: 0 <= k < |r| ==> r[k] == Lower(names[k])
  {
    if names == [] then [] else [Lower(names[0])] + LowerAll(names[1..])
  }

  /** Ordinal string order. */
  predicate Less(a: string, b: string)
    decreases |a|
  {
    if a == [] then b != []
    else if b == [] then false
    else if a[0] != b[0] then a[0] < b[0]
    else Less(a[1..], b[1..])
  }

  lemma {:induction false} LessTotal(a: string, b: string)
    requires a != b
    ensures Less(a, b) || Less(b, a)
    decreases |a|
  {
    if a != [] && b != [] && a[0] == b[0] {
      assert a[1..] != b[1..] by {
        assert a == [a[0]] + a[1..] && b == [b[0]] + b[1..];
      }
      LessTotal(a[1..], b[1..]);
    }
  }

  predicate KeysOrdered(cs: seq<Child>) {
    forall j :: 0 < j < |cs| ==> Less(cs[j - 1].key, cs[j].key)
  }

  predicate KeysDistinct(cs: seq<Child>) {
    forall j, k :: 0 <= j < k < |cs| ==> cs[j].key != cs[k].key
  }

  /**
    The shape of the node sequence: a root at index 0 with the empty path;
    every other node's parent comes before it; child lists have distinct keys,
    and each entry names a later node whose parent is this node and whose key
    is that node's lower-case vsName.
  */
  predicate WellFormed(ns: seq<NestingDir>) {
    && |ns| >= 1
    && ns[0].parent == -1
    && ns[0].path == EmptyPath
    && (forall i :: 0 < i < |ns| ==> 0 <= ns[i].parent < i)
    && (forall i :: 0 <= i < |ns| ==> KeysDistinct(ns[i].children))
    && (forall i, j :: 0 <= i < |ns| && 0 <= j < |ns[i].children| ==>
          i < ns[i].children[j].node < |ns|
          && ns[ns[i].children[j].node].parent == i
          && ns[i].children[j].key == KeyOf(ns[ns[i].children[j].node].path))
  }

  /** Every child list is in key order, as a SortedList keeps it. */
  predicate ChildrenSorted(ns: seq<NestingDir>) {
    forall i :: 0 <= i < |ns| ==> KeysOrdered(ns[i].children)
  }

  /** SortedList.ContainsKey / the indexer: the child filed under key, if any. */
  function FindChild(cs: seq<Child>, key: string): (r: Option<nat>)
    ensures r.Some? ==> exists j :: 0 <= j < |cs| && cs[j] == Child(key, r.value)
    ensures r.None? ==> forall j :: 0 <= j < |cs| ==> cs[j].key != key
  {
    if cs == [] then None
    else if cs[0].key == key then Some(cs[0].node)
    else FindChild(cs[1..], key)
  }

  /** With distinct keys, the child filed under a key is the one listed with it. */
  lemma FindListedChild(cs: seq<Child>, j: nat)
    requires KeysDistinct(cs) && j < |cs|
    ensures FindChild(cs, cs[j].key) == Some(cs[j].node)
  {
    var r := FindChild(cs, cs[j].key);
    assert r.Some?;
    var k :| 0 <= k < |cs| && cs[k] == Child(cs[j].key, r.value);
    assert k == j;
  }

  /** The node reached from node i by following the keys, creating nothing. */
  function Walk(ns: seq<NestingDir>, i: nat, keys: seq<string>): (r: Option<nat>)
    requires WellFormed(ns) && i < |ns|
    ensures r.Some? ==> r.value < |ns|
    decreases |keys|
  {
    if keys == [] then Some(i)
    else match FindChild(ns[i].children, keys[0])
      case None => None
      case Some(c) => Walk(ns, c, keys[1..])
  }

  /** Depth of a node: the number of parent links up to the root. */
  function Depth(ns: seq<NestingDir>, i: nat): nat
    requires WellFormed(ns) && i < |ns|
  {
    if i == 0 then 0 else Depth(ns, ns[i].parent as nat) + 1
  }

  /** Walking one more key is one more FindChild from where the shorter walk ended. */
  lemma {:induction false} WalkAppend(ns: seq<NestingDir>, i: nat, keys: seq<string>, key: string)
    requires WellFormed(ns) && i < |ns|
    ensures Walk(ns, i, keys).None? ==> Walk(ns, i, keys + [key]).None?
    ensures Walk(ns, i, keys).Some? ==>
      Walk(ns, i, keys + [key]) == FindChild(ns[Walk(ns, i, keys).value].children, key)
    decreases |keys|
  {
    if keys == [] {
      assert keys + [key] == [key];
      assert Walk(ns, i, []) == Some(i);
      var found := FindChild(ns[i].children, key);
      if found.Some? {
        assert Walk(ns, found.value, []) == Some(found.value);
      }
    } else {
      assert (keys + [key])[1..] == keys[1..] + [key];
      assert (keys + [key])[0] == keys[0];
      var found := FindChild(ns[i].children, keys[0]);
      if found.Some? {
        WalkAppend(ns, found.value, keys[1..], key);
      }
    }
  }

  /** The node a walk reaches is as deep as the walk is long. */
  lemma {:induction false} WalkDepth(ns: seq<NestingDir>, i: nat, keys: seq<string>)
    requires WellFormed(ns) && i < |ns|
    requires Walk(ns, i, keys).Some?
    ensures Depth(ns, Walk(ns, i, keys).value) == Depth(ns, i) + |keys|
    decreases |keys|
  {
    if keys != [] {
      var c := FindChild(ns[i].children, keys[0]).value;
      var j :| 0 <= j < |ns[i].children| && ns[i].children[j] == Child(keys[0], c);
      assert ns[c].parent == i;
      WalkDepth(ns, c, keys[1..]);
    }
  }

  /** Where SortedList.Add puts a new key: before the first larger key. */
  function InsertPosition(cs: seq<Child>, key: string): (p: nat)
    ensures p <= |cs|
    ensures forall j :: 0 <= j < p ==> !Less(key, cs[j].key)
    ensures p < |cs| ==> Less(key, cs[p].key)
  {
    if cs == [] then 0
    else if Less(key, cs[0].key) then 0
    else 1 + InsertPosition(cs[1..], key)
  }

  /** SortedList.Add of a key that is not yet present. */
  function InsertChild(cs: seq<Child>, ch: Child): (r: seq<Child>)
    requires KeysDistinct(cs)
    requires forall j :: 0 <= j < |cs| ==> cs[j].key != ch.key
    ensures KeysOrdered(cs) ==> KeysOrdered(r)
    ensures KeysDistinct(r)
    ensures |r| == |cs| + 1
    ensures forall x :: x in r <==> x in cs || x == ch
  {
    var p := InsertPosition(cs, ch.key);
    InsertAtPosition(cs, ch, p);
    cs[..p] + [ch] + cs[p..]
  }

  lemma InsertAtPosition(cs: seq<Child>, ch: Child, p: nat)
    requires KeysDistinct(cs)
    requires forall j :: 0 <= j < |cs| ==> cs[j].key != ch.key
    requires p == InsertPosition(cs, ch.key)
    ensures var r := cs[..p] + [ch] + cs[p..];
      (KeysOrdered(cs) ==> KeysOrdered(r)) && KeysDistinct(r) && forall x :: x in r <==> x in cs || x == ch
  {
    InsertOrdered(cs, ch, p);
    InsertDistinct(cs, ch, p);
    InsertMembers(cs, ch, p);
  }

  lemma InsertMembers(cs: seq<Child>, ch: Child, p: nat)
    requires p <= |cs|
    ensures forall x :: x in cs[..p] + [ch] + cs[p..] <==> x in cs || x == ch
  {
    assert cs == cs[..p] + cs[p..];
  }

  lemma InsertOrdered(cs: seq<Child>, ch: Child, p: nat)
    requires forall j :: 0 <= j < |cs| ==> cs[j].key != ch.key
    requires p == InsertPosition(cs, ch.key)
    ensures KeysOrdered(cs) ==> KeysOrdered(cs[..p] + [ch] + cs[p..])
  {
    if KeysOrdered(cs) {
      InsertOrderedStep(cs, ch, p);
    }
  }

  lemma InsertOrderedStep(cs: seq<Child>, ch: Child, p: nat)
    requires KeysOrdered(cs)
    requires forall j :: 0 <= j < |cs| ==> cs[j].key != ch.key
    requires p == InsertPosition(cs, ch.key)
    ensures KeysOrdered(cs[..p] + [ch] + cs[p..])
  {
    var r := cs[..p] + [ch] + cs[p..];
    forall j | 0 < j < |r|
      ensures Less(r[j - 1].key, r[j].key)
    {
      if j < p {
        assert r[j - 1] == cs[j - 1] && r[j] == cs[j];
      } else if j == p {
        assert r[j - 1] == cs[p - 1] && r[j] == ch;
        LessTotal(cs[p - 1].key, ch.key);
      } else if j == p + 1 {
        assert r[j - 1] == ch && r[j] == cs[p];
      } else {
        assert r[j - 1] == cs[j - 2] && r[j] == cs[j - 1];
      }
    }
  }

  lemma InsertDistinct(cs: seq<Child>, ch: Child, p: nat)
    requires KeysDistinct(cs)
    requires forall j :: 0 <= j < |cs| ==> cs[j].key != ch.key
    requires p <= |cs|
    ensures KeysDistinct(cs[..p] + [ch] + cs[p..])
  {
    var r := cs[..p] + [ch] + cs[p..];
    assert forall j :: 0 <= j < |r| ==> r[j] == (if j < p then cs[j] else if j == p then ch else cs[j - 1]);
  }

  /** The sequence after adding node under parent, as GetDir builds it. */
  function WithChild(ns: seq<NestingDir>, parent: nat, node: NestingDir): (r: seq<NestingDir>)
    requires WellFormed(ns) && parent < |ns|
    requires FindChild(ns[parent].children, KeyOf(node.path)).None?
    ensures |r| == |ns| + 1 && r[|ns|] == node
    ensures forall i :: 0 <= i < |ns| && i != parent ==> r[i] == ns[i]
    ensures r[parent] == ns[parent].(children := InsertChild(ns[parent].children, Child(KeyOf(node.path), |ns|)))
    ensures forall i :: 0 <= i < |ns| ==> r[i].projects == ns[i].projects
  {
    var grown := ns + [node];
    grown[parent := ns[parent].(children := InsertChild(ns[parent].children, Child(KeyOf(node.path), |ns|)))]
  }

  /** A new node, filed under its parent, keeps the tree well formed. */
  lemma AddNodeKeepsShape(ns: seq<NestingDir>, parent: nat, node: NestingDir)
    requires WellFormed(ns) && parent < |ns|
    requires node.parent == parent && node.children == []
    requires FindChild(ns[parent].children, KeyOf(node.path)).None?
    ensures WellFormed(WithChild(ns, parent, node))
  {
    AddNodeKeepsDistinct(ns, parent, node);
    AddNodeKeepsLinks(ns, parent, node);
  }

  lemma AddNodeKeepsDistinct(ns: seq<NestingDir>, parent: nat, node: NestingDir)
    requires WellFormed(ns) && parent < |ns|
    requires node.children == []
    requires FindChild(ns[parent].children, KeyOf(node.path)).None?
    ensures var r := WithChild(ns, parent, node);
      forall i :: 0 <= i < |r| ==> KeysDistinct(r[i].children)
  {
    var r := WithChild(ns, parent, node);
    forall i | 0 <= i < |r|
      ensures KeysDistinct(r[i].children)
    {
      if i == |ns| {
        assert r[i].children == [];
      }
    }
  }

  lemma AddNodeKeepsLinks(ns: seq<NestingDir>, parent: nat, node: NestingDir)
    requires WellFormed(ns) && parent < |ns|
    requires node.parent == parent && node.children == []
    requires FindChild(ns[parent].children, KeyOf(node.path)).None?
    ensures var r := WithChild(ns, parent, node);
      forall i, j :: 0 <= i < |r| && 0 <= j < |r[i].children| ==>
        && i < r[i].children[j].node < |r|
        && r[r[i].children[j].node].parent == i
        && r[i].children[j].key == KeyOf(r[r[i].children[j].node].path)
  {
    var r := WithChild(ns, parent, node);
    forall i, j | 0 <= i < |r| && 0 <= j < |r[i].children|
      ensures i < r[i].children[j].node < |r|
      ensures r[r[i].children[j].node].parent == i
      ensures r[i].children[j].key == KeyOf(r[r[i].children[j].node].path)
    {
      ChildOfGrown(ns, parent, node, i, j);
    }
  }

  lemma ChildOfGrown(ns: seq<NestingDir>, parent: nat, node: NestingDir, i: nat, j: nat)
    requires WellFormed(ns) && parent < |ns|
    requires node.parent == parent && node.children == []
    requires FindChild(ns[parent].children, KeyOf(node.path)).None?
    requires var r := WithChild(ns, parent, node); i < |r| && j < |r[i].children|
    ensures var r := WithChild(ns, parent, node);
      && i < r[i].children[j].node < |r|
      && r[r[i].children[j].node].parent == i
      && r[i].children[j].key == KeyOf(r[r[i].children[j].node].path)
  {
    var r := WithChild(ns, parent, node);
    if i == |ns| {
      assert false;
    } else if i == parent {
      ChildOfGrownParent(ns, parent, node, r[i].children[j]);
    } else {
      var x := r[i].children[j];
      assert x == ns[i].children[j];
      assert r[x.node].path == ns[x.node].path && r[x.node].parent == ns[x.node].parent;
    }
  }

  /** ChildOfGrown for an entry of the parent's grown child list. */
  lemma ChildOfGrownParent(ns: seq<NestingDir>, parent: nat, node: NestingDir, x: Child)
    requires WellFormed(ns) && parent < |ns|
    requires node.parent == parent && node.children == []
    requires FindChild(ns[parent].children, KeyOf(node.path)).None?
    requires x in WithChild(ns, parent, node)[parent].children
    ensures var r := WithChild(ns, parent, node);
      && parent < x.node < |r|
      && r[x.node].parent == parent
      && x.key == KeyOf(r[x.node].path)
  {
    var r := WithChild(ns, parent, node);
    var entry := Child(KeyOf(node.path), |ns|);
    assert x in InsertChild(ns[parent].children, entry);
    if x != entry {
      assert x in ns[parent].children;
      var k :| 0 <= k < |ns[parent].children| && ns[parent].children[k] == x;
      assert r[x.node].path == ns[x.node].path && r[x.node].parent == ns[x.node].parent;
    }
  }

  /**
    What GetDir and AddProjectFile leave alone: earlier nodes keep their GUID,
    path, parent and projects, and keep every child they had; nodes added
    since hold no projects.
  */
  predicate Extends(before: seq<NestingDir>, after: seq<NestingDir>) {
    && |before| <= |after|
    && (forall i :: 0 <= i < |before| ==>
          && after[i].realGuid == before[i].realGuid
          && after[i].path == before[i].path
          && after[i].parent == before[i].parent
          && (forall x :: x in before[i].children ==> x in after[i].children))
  }

  /** Extends, with the projects of earlier nodes unchanged and none in the new ones. */
  predicate Grows(before: seq<NestingDir>, after: seq<NestingDir>) {
    && Extends(before, after)
    && (forall i :: 0 <= i < |before| ==> after[i].projects == before[i].projects)
    && (forall i :: |before| <= i < |after| ==> after[i].projects == map[])
  }

  lemma GrowsReflexive(a: seq<NestingDir>)
    ensures Grows(a, a)
  {
  }

  lemma GrowsTransitive(a: seq<NestingDir>, b: seq<NestingDir>, c: seq<NestingDir>)
    requires Grows(a, b) && Grows(b, c)
    ensures Grows(a, c)
  {
  }

  lemma ExtendsTransitive(a: seq<NestingDir>, b: seq<NestingDir>, c: seq<NestingDir>)
    requires Extends(a, b) && Extends(b, c)
    ensures Extends(a, c)
  {
  }

  /** Growing the tree never loses a node that a walk reached. */
  lemma {:induction false} WalkKept(before: seq<NestingDir>, after: seq<NestingDir>, i: nat, keys: seq<string>)
    requires WellFormed(before) && WellFormed(after) && Extends(before, after) && i < |before|
    requires Walk(before, i, keys).Some?
    ensures Walk(after, i, keys) == Walk(before, i, keys)
    decreases |keys|
  {
    if keys != [] {
      var c := FindChild(before[i].children, keys[0]).value;
      var j :| 0 <= j < |before[i].children| && before[i].children[j] == Child(keys[0], c);
      assert Child(keys[0], c) in after[i].children;
      var k :| 0 <= k < |after[i].children| && after[i].children[k] == Child(keys[0], c);
      FindListedChild(after[i].children, k);
      WalkKept(before, after, c, keys[1..]);
    }
  }

  /** A walk that gets through a + b gets through a. */
  lemma {:induction false} WalkOfPrefix(ns: seq<NestingDir>, i: nat, a: seq<string>, b: seq<string>)
    requires WellFormed(ns) && i < |ns|
    requires Walk(ns, i, a + b).Some?
    ensures Walk(ns, i, a).Some?
    decreases |a|
  {
    if a != [] {
      assert (a + b)[0] == a[0] && (a + b)[1..] == a[1..] + b;
      var c := FindChild(ns[i].children, a[0]).value;
      WalkOfPrefix(ns, c, a[1..], b);
    }
  }

  lemma SliceSteps<T>(s: seq<T>, m: nat)
    requires m < |s|
    ensures s[..m] + [s[m]] == s[..m + 1]
    ensures s[..m + 1] + s[m + 1..] == s
  {
  }

  /** A walk that gets through all keys gets through each of its prefixes and the next step. */
  lemma WalkPrefix(ns: seq<NestingDir>, keys: seq<string>, m: nat)
    requires WellFormed(ns) && m < |keys|
    requires Walk(ns, 0, keys).Some?
    ensures Walk(ns, 0, keys[..m]).Some?
    ensures FindChild(ns[Walk(ns, 0, keys[..m]).value].children, keys[m]).Some?
  {
    SliceSteps(keys, m);
    WalkOfPrefix(ns, 0, keys[..m + 1], keys[m + 1..]);
    WalkAppend(ns, 0, keys[..m], keys[m]);
  }

  /** hasOnlySelfNamedProject: a leaf holding one project, named like the folder itself. */
  predicate HasOnlySelfNamedProject(d: NestingDir) {
    |d.children| == 0 && |d.projects| == 1 && KeyOf(d.path) in d.projects
  }

  /** displayRoot, from node i: descend while a node has one child and no projects. */
  function DisplayRootFrom(ns: seq<NestingDir>, i: nat): (r: nat)
    requires WellFormed(ns) && i < |ns|
    ensures i <= r < |ns|
    decreases |ns| - i
  {
    if |ns[i].children| == 1 && |ns[i].projects| == 0 then DisplayRootFrom(ns, ns[i].children[0].node)
    else i
  }

  /** The display root is where the descent stops: not a lone child without projects. */
  lemma {:induction false} DisplayRootStops(ns: seq<NestingDir>, i: nat)
    requires WellFormed(ns) && i < |ns|
    ensures var r := DisplayRootFrom(ns, i);
      |ns[r].children| != 1 || |ns[r].projects| > 0
    decreases |ns| - i
  {
    if |ns[i].children| == 1 && |ns[i].projects| == 0 {
      DisplayRootStops(ns, ns[i].children[0].node);
    }
  }

  /** The display root lies on the chain of first children that starts at i. */
  lemma {:induction false} DisplayRootOnDescent(ns: seq<NestingDir>, i: nat)
    requires WellFormed(ns) && i < |ns|
    ensures IsOnDescent(ns, i, DisplayRootFrom(ns, i))
    decreases |ns| - i
  {
    if |ns[i].children| == 1 && |ns[i].projects| == 0 {
      DisplayRootOnDescent(ns, ns[i].children[0].node);
    }
  }

  /** n lies on the chain of first children that starts at i. */
  predicate IsOnDescent(ns: seq<NestingDir>, i: nat, n: nat)
    requires WellFormed(ns) && i < |ns|
    decreases |ns| - i
  {
    n == i || (|ns[i].children| >= 1 && IsOnDescent(ns, ns[i].children[0].node, n))
  }

  /** allChildren: every node under i, in pre-order, children in key order. */
  function AllChildren(ns: seq<NestingDir>, i: nat): seq<nat>
    requires WellFormed(ns) && i < |ns|
    decreases |ns| - i, 1
  {
    ChildrenFrom(ns, i, 0)
  }

  /** The pre-order listing of the children of i from the k-th on, with their subtrees. */
  function ChildrenFrom(ns: seq<NestingDir>, i: nat, k: nat): seq<nat>
    requires WellFormed(ns) && i < |ns| && k <= |ns[i].children|
    decreases |ns| - i, 0, |ns[i].children| - k
  {
    if k == |ns[i].children| then []
    else
      var c := ns[i].children[k].node;
      [c] + AllChildren(ns, c) + ChildrenFrom(ns, i, k + 1)
  }

  /** countAllUnder: the node itself plus the count under each child. */
  function CountAllUnder(ns: seq<NestingDir>, i: nat): nat
    requires WellFormed(ns) && i < |ns|
    decreases |ns| - i, 1
  {
    1 + CountFrom(ns, i, 0)
  }

  function CountFrom(ns: seq<NestingDir>, i: nat, k: nat): nat
    requires WellFormed(ns) && i < |ns| && k <= |ns[i].children|
    decreases |ns| - i, 0, |ns[i].children| - k
  {
    if k == |ns[i].children| then 0
    else CountAllUnder(ns, ns[i].children[k].node) + CountFrom(ns, i, k + 1)
  }

  /** countAllUnder is one more than the length of allChildren. */
  lemma {:induction false} CountIsOnePlusAllChildren(ns: seq<NestingDir>, i: nat)
    requires WellFormed(ns) && i < |ns|
    ensures CountAllUnder(ns, i) == 1 + |AllChildren(ns, i)|
    decreases |ns| - i, 1
  {
    CountFromIsLength(ns, i, 0);
  }

  lemma {:induction false} CountFromIsLength(ns: seq<NestingDir>, i: nat, k: nat)
    requires WellFormed(ns) && i < |ns| && k <= |ns[i].children|
    ensures CountFrom(ns, i, k) == |ChildrenFrom(ns, i, k)|
    decreases |ns| - i, 0, |ns[i].children| - k
  {
    if k < |ns[i].children| {
      CountIsOnePlusAllChildren(ns, ns[i].children[k].node);
      CountFromIsLength(ns, i, k + 1);
    }
  }

  /** allChildren lists only nodes created after i, each of them at least one level deeper. */
  lemma {:induction false} AllChildrenBelow(ns: seq<NestingDir>, i: nat)
    requires WellFormed(ns) && i < |ns|
    ensures forall n :: n in AllChildren(ns, i) ==> i < n < |ns| && Depth(ns, n) > Depth(ns, i)
    decreases |ns| - i, 1
  {
    ChildrenFromBelow(ns, i, 0);
  }

  lemma {:induction false} ChildrenFromBelow(ns: seq<NestingDir>, i: nat, k: nat)
    requires WellFormed(ns) && i < |ns| && k <= |ns[i].children|
    ensures forall n :: n in ChildrenFrom(ns, i, k) ==> i < n < |ns| && Depth(ns, n) > Depth(ns, i)
    decreases |ns| - i, 0, |ns[i].children| - k
  {
    if k < |ns[i].children| {
      var c := ns[i].children[k].node;
      assert ns[c].parent == i;
      AllChildrenBelow(ns, c);
      ChildrenFromBelow(ns, i, k + 1);
    }
  }

  /** The tree: the node sequence the real root owns. */
  class NestingTree {
    var nodes: seq<NestingDir>

    ghost predicate Valid()
      reads this
    {
      WellFormed(nodes) && ChildrenSorted(nodes)
    }

    /** The public constructor: the real root, with a new GUID and the empty path. */
    constructor(guids: GuidSource)
      modifies guids`issued
      ensures Valid()
      ensures |nodes| == 1 && nodes[0].realGuid == guids.generate(old(guids.issued))
      ensures nodes[0].children == [] && nodes[0].projects == map[]
      ensures guids.issued == old(guids.issued) + 1
    {
      var g := guids.NewGuid();
      nodes := [NestingDir(g, EmptyPath, -1, [], map[])];
    }

    /**
      GetDir: walks from the real root through the lower-case names of the
      path's ancestors, outermost first, creating each missing node under the
      current one; returns the node of the path's own directory.
    */
    method GetDir(path: VSPath, guids: GuidSource) returns (node: nat)
      requires Valid()
      modifies this`nodes, guids`issued
      ensures Valid()
      ensures Walk(nodes, 0, Keys(path)) == Some(node)
      ensures Depth(nodes, node) == |path.components|
      ensures Walk(old(nodes), 0, Keys(path)).Some? ==> nodes == old(nodes)
      ensures |nodes| <= |old(nodes)| + |path.components|
      ensures Grows(old(nodes), nodes)
      ensures guids.issued == old(guids.issued) + (|nodes| - |old(nodes)|)
      ensures GuidsInOrder(old(nodes), nodes, guids.generate, old(guids.issued))
      ensures CreatedAreAncestors(old(nodes), nodes, path)
      ensures |old(nodes)| < |nodes| ==> node == |nodes| - 1
    {
      var after, issued;
      after, node, issued := DescendAll(nodes, path, guids.generate, guids.issued);
      guids.issued := issued;
      nodes := after;
    }

    /** AddProjectFile: files the project's name, under its lower-case key, in its directory's node. */
    method AddProjectFile(path: VSPath, guids: GuidSource)
      requires Valid()
      modifies this`nodes, guids`issued
      ensures Valid()
      ensures Walk(nodes, 0, Keys(path)).Some?
      ensures var n := Walk(nodes, 0, Keys(path)).value;
        var previous := if n < |old(nodes)| then old(nodes)[n].projects else map[];
        nodes[n].projects == previous[Lower(path.projectName) := path.projectName]
      ensures Extends(old(nodes), nodes)
      ensures forall i :: 0 <= i < |old(nodes)| && i != Walk(nodes, 0, Keys(path)).value ==>
        nodes[i].projects == old(nodes)[i].projects
      ensures guids.issued == old(guids.issued) + (|nodes| - |old(nodes)|)
      ensures GuidsInOrder(old(nodes), nodes, guids.generate, old(guids.issued))
      ensures CreatedAreAncestors(old(nodes), nodes, path)
    {
      var node := GetDir(path, guids);
      ghost var before := nodes;
      WithProjectKeepsShape(nodes, node, Lower(path.projectName), path.projectName, Keys(path));
      assert ChildrenSorted(WithProject(nodes, node, Lower(path.projectName), path.projectName));
      nodes := WithProject(nodes, node, Lower(path.projectName), path.projectName);
      ExtendsTransitive(old(nodes), before, nodes);
    }

    /** displayRoot, by the source's descent loop. */
    method DisplayRoot() returns (root: nat)
      requires Valid()
      ensures root == DisplayRootFrom(nodes, 0)
    {
      root := 0;
      while |nodes[root].children| == 1 && |nodes[root].projects| == 0
        invariant root < |nodes|
        invariant DisplayRootFrom(nodes, root) == DisplayRootFrom(nodes, 0)
        decreases |nodes| - root
      {
        root := nodes[root].children[0].node;
      }
    }
  }

  /** The nodes added after start carry, oldest first, the GUIDs the supply issues from issued on. */
  ghost predicate GuidsInOrder(start: seq<NestingDir>, ns: seq<NestingDir>, generate: nat -> Guid, issued: nat) {
    forall j :: |start| <= j < |ns| ==> ns[j].realGuid == generate(issued + (j - |start|))
  }

  /**
    The nodes added after start are the path's directory and its ancestors:
    the newest node is the path's own directory, and each node before it the
    directory one level further up.
  */
  ghost predicate CreatedAreAncestors(start: seq<NestingDir>, ns: seq<NestingDir>, path: VSPath) {
    forall j :: |start| <= j < |ns| ==> ns[j].path == GetAncestorDirectory(path, |ns| - 1 - j)
  }

  /**
    The nodes created since start, oldest first: the ancestors of the path at
    consecutive levels, the newest one up levels above the path, each with
    the next GUID the supply issued after issued. ancestor(l) stands for the
    path's ancestor l levels up.
  */
  ghost predicate CreatedAlong(start: seq<NestingDir>, ns: seq<NestingDir>, ancestor: int -> VSPath, up: nat,
                               generate: nat -> Guid, issued: nat)
  {
    forall j :: |start| <= j < |ns| ==>
      && ns[j].realGuid == generate(issued + (j - |start|))
      && ns[j].path == ancestor(up + (|ns| - 1 - j))
  }

  /** CreatedAlong once the path's own directory is reached: the newest node is the path's. */
  lemma CreatedDownToPath(start: seq<NestingDir>, ns: seq<NestingDir>, path: VSPath, ancestor: int -> VSPath,
                          generate: nat -> Guid, issued: nat)
    requires CreatedAlong(start, ns, ancestor, 0, generate, issued)
    requires forall l :: ancestor(l) == GetAncestorDirectory(path, l)
    ensures GuidsInOrder(start, ns, generate, issued)
    ensures CreatedAreAncestors(start, ns, path)
  {
    forall j | |start| <= j < |ns|
      ensures ns[j].path == GetAncestorDirectory(path, |ns| - 1 - j)
    {
      assert 0 + (|ns| - 1 - j) == |ns| - 1 - j;
    }
  }

  /**
    The state of GetDir after k levels: a well-formed, sorted tree grown from
    start, in which the first k keys of the path lead to current; when the
    whole path was already present nothing has been created. Once a node has
    been created, current is the newest node and has no children yet; the
    supply has issued one GUID per created node.
  */
  ghost predicate Descended(start: seq<NestingDir>, ns: seq<NestingDir>, path: VSPath, k: nat,
                            current: nat, existed: bool,
                            generate: nat -> Guid, issued: nat, issuedNow: nat, ancestor: int -> VSPath)
  {
    && k <= |path.components|
    && WellFormed(ns) && ChildrenSorted(ns) && current < |ns|
    && Walk(ns, 0, Keys(path)[..k]) == Some(current)
    && (existed ==> ns == start && Walk(ns, 0, Keys(path)).Some?)
    && |ns| <= |start| + k
    && Grows(start, ns)
    && issuedNow == issued + (|ns| - |start|)
    && (|ns| == |start| || (current == |ns| - 1 && ns[current].children == []))
    && CreatedAlong(start, ns, ancestor, |path.components| - k, generate, issued)
  }

  /**
    GetDir's loop, on the node sequence: follows the path's keys from the
    real root, creating each missing node, and returns the grown sequence
    and the node of the path's own directory.
  */
  method DescendAll(start: seq<NestingDir>, path: VSPath, generate: nat -> Guid, issued: nat)
    returns (ns: seq<NestingDir>, current: nat, issuedAfter: nat)
    requires WellFormed(start) && ChildrenSorted(start)
    ensures WellFormed(ns) && ChildrenSorted(ns) && current < |ns|
    ensures Walk(ns, 0, Keys(path)) == Some(current)
    ensures Depth(ns, current) == |path.components|
    ensures Walk(start, 0, Keys(path)).Some? ==> ns == start
    ensures |ns| <= |start| + |path.components|
    ensures Grows(start, ns)
    ensures issuedAfter == issued + (|ns| - |start|)
    ensures GuidsInOrder(start, ns, generate, issued)
    ensures CreatedAreAncestors(start, ns, path)
    ensures |start| < |ns| ==> current == |ns| - 1
  {
    ghost var ancestor := l => GetAncestorDirectory(path, l);
    ns := start;
    current := 0;
    issuedAfter := issued;
    ghost var existed := Walk(start, 0, Keys(path)).Some?;
    assert Keys(path)[..0] == [];
    GrowsReflexive(ns);
    var i := |path.components|;
    while i > 0
      invariant i <= |path.components|
      invariant Descended(start, ns, path, |path.components| - i, current, existed, generate, issued, issuedAfter, ancestor)
    {
      i := i - 1;
      ns, current, issuedAfter := Descend(ns, path, i, current, generate, issuedAfter, start, existed, issued, ancestor);
    }
    Arrived(start, ns, path, current, existed, generate, issued, issuedAfter, ancestor);
    CreatedDownToPath(start, ns, path, ancestor, generate, issued);
  }

  /** GetDir's loop has followed every key: its promises hold of the final sequence. */
  lemma Arrived(start: seq<NestingDir>, ns: seq<NestingDir>, path: VSPath, current: nat, existed: bool,
                generate: nat -> Guid, issued: nat, issuedNow: nat, ancestor: int -> VSPath)
    requires WellFormed(start)
    requires existed == Walk(start, 0, Keys(path)).Some?
    requires Descended(start, ns, path, |path.components|, current, existed, generate, issued, issuedNow, ancestor)
    ensures WellFormed(ns) && ChildrenSorted(ns) && current < |ns|
    ensures Walk(ns, 0, Keys(path)) == Some(current)
    ensures Depth(ns, current) == |path.components|
    ensures Walk(start, 0, Keys(path)).Some? ==> ns == start
    ensures |ns| <= |start| + |path.components|
    ensures Grows(start, ns)
    ensures issuedNow == issued + (|ns| - |start|)
    ensures CreatedAlong(start, ns, ancestor, 0, generate, issued)
    ensures |start| < |ns| ==> current == |ns| - 1
  {
    var keys := Keys(path);
    assert keys[..|keys|] == keys;
    WalkDepth(ns, 0, keys);
  }

  /**
    The body of GetDir's loop: from the node reached by the outer components,
    one level down to the ancestor that is i levels above the path.
  */
  method Descend(ns: seq<NestingDir>, path: VSPath, i: nat, current: nat,
                 generate: nat -> Guid, issued: nat,
                 ghost start: seq<NestingDir>, ghost existed: bool, ghost first: nat,
                 ghost ancestor: int -> VSPath)
    returns (after: seq<NestingDir>, next: nat, issuedAfter: nat)
    requires i < |path.components|
    requires ancestor(i) == GetAncestorDirectory(path, i)
    requires Descended(start, ns, path, |path.components| - 1 - i, current, existed, generate, first, issued, ancestor)
    ensures Descended(start, after, path, |path.components| - i, next, existed, generate, first, issuedAfter, ancestor)
  {
    var currentPath := GetAncestorDirectory(path, i);
    ghost var prefix := Keys(path)[..|path.components| - 1 - i];
    DescendReady(start, ns, path, i, current, existed, generate, first, issued, ancestor);
    after, next, issuedAfter := ChildFor(ns, current, currentPath, generate, issued, prefix);
    DescendStep(start, ns, after, path, i, current, next, existed, generate, first, issued, issuedAfter, ancestor);
  }

  /** What Descend's call of ChildFor needs, and that an existing path creates nothing. */
  lemma DescendReady(start: seq<NestingDir>, ns: seq<NestingDir>, path: VSPath, i: nat, current: nat, existed: bool,
                     generate: nat -> Guid, first: nat, issued: nat, ancestor: int -> VSPath)
    requires i < |path.components|
    requires Descended(start, ns, path, |path.components| - 1 - i, current, existed, generate, first, issued, ancestor)
    ensures WellFormed(ns) && ChildrenSorted(ns) && current < |ns|
    ensures Walk(ns, 0, Keys(path)[..|path.components| - 1 - i]) == Some(current)
    ensures existed ==> FindChild(ns[current].children, KeyOf(GetAncestorDirectory(path, i))).Some?
  {
    if existed {
      var k := |path.components| - 1 - i;
      AncestorKey(path, i);
      WalkPrefix(ns, Keys(path), k);
    }
  }

  /** Descend's step, on the sequences: one more key followed keeps Descended. */
  lemma DescendStep(start: seq<NestingDir>, ns: seq<NestingDir>, after: seq<NestingDir>,
                    path: VSPath, i: nat, current: nat, next: nat, existed: bool,
                    generate: nat -> Guid, first: nat, issued: nat, issuedAfter: nat, ancestor: int -> VSPath)
    requires i < |path.components|
    requires ancestor(i) == GetAncestorDirectory(path, i)
    requires Descended(start, ns, path, |path.components| - 1 - i, current, existed, generate, first, issued, ancestor)
    requires WellFormed(after) && ChildrenSorted(after) && next < |after|
    requires Walk(after, 0, Keys(path)[..|path.components| - 1 - i] + [KeyOf(GetAncestorDirectory(path, i))]) == Some(next)
    requires existed ==> after == ns
    requires |after| <= |ns| + 1 && Grows(ns, after)
    requires FindChild(ns[current].children, KeyOf(GetAncestorDirectory(path, i))).None? ==>
      && |after| == |ns| + 1 && next == |ns| && issuedAfter == issued + 1
      && after[|ns|] == NestingDir(generate(issued), GetAncestorDirectory(path, i), current, [], map[])
    requires FindChild(ns[current].children, KeyOf(GetAncestorDirectory(path, i))).Some? ==>
      after == ns && issuedAfter == issued
    ensures Descended(start, after, path, |path.components| - i, next, existed, generate, first, issuedAfter, ancestor)
  {
    var k := |path.components| - 1 - i;
    AncestorKey(path, i);
    SliceSteps(Keys(path), k);
    GrowsTransitive(start, ns, after);
    var created := FindChild(ns[current].children, KeyOf(GetAncestorDirectory(path, i))).None?;
    assert |ns| == |start| || ns[current].children == [];
    CreatedStepOrNone(start, ns, after, ancestor, i, generate, first, issued, created);
  }

  /** CreatedStep when a node was created; otherwise nothing has been created since start. */
  lemma CreatedStepOrNone(start: seq<NestingDir>, ns: seq<NestingDir>, after: seq<NestingDir>,
                          ancestor: int -> VSPath, i: nat, generate: nat -> Guid, first: nat, issued: nat,
                          created: bool)
    requires |start| <= |ns|
    requires CreatedAlong(start, ns, ancestor, i + 1, generate, first)
    requires issued == first + (|ns| - |start|)
    requires created ==> |after| == |ns| + 1 && Extends(ns, after)
    requires created ==> after[|ns|].realGuid == generate(issued) && after[|ns|].path == ancestor(i)
    requires !created ==> after == ns && |ns| == |start|
    ensures CreatedAlong(start, after, ancestor, i, generate, first)
  {
    if created {
      CreatedStep(start, ns, after, ancestor, i, generate, first);
    }
  }

  /** One more node created one level further down, i levels above the path, extends CreatedAlong. */
  lemma CreatedStep(start: seq<NestingDir>, ns: seq<NestingDir>, after: seq<NestingDir>,
                    ancestor: int -> VSPath, i: nat, generate: nat -> Guid, first: nat)
    requires |start| <= |ns| && |after| == |ns| + 1
    requires CreatedAlong(start, ns, ancestor, i + 1, generate, first)
    requires forall j :: 0 <= j < |ns| ==> after[j].realGuid == ns[j].realGuid && after[j].path == ns[j].path
    requires after[|ns|].realGuid == generate(first + (|ns| - |start|))
    requires after[|ns|].path == ancestor(i)
    ensures CreatedAlong(start, after, ancestor, i, generate, first)
  {
    forall j | |start| <= j < |ns|
      ensures after[j].realGuid == generate(first + (j - |start|))
      ensures after[j].path == ancestor(i + (|after| - 1 - j))
    {
      assert i + (|after| - 1 - j) == i + 1 + (|ns| - 1 - j);
    }
  }

  /**
    One step of GetDir: the child of current filed under the path's key,
    created (with a new GUID) when it is missing.
  */
  method ChildFor(ns: seq<NestingDir>, current: nat, currentPath: VSPath,
                  generate: nat -> Guid, issued: nat, ghost prefix: seq<string>)
    returns (after: seq<NestingDir>, child: nat, issuedAfter: nat)
    requires WellFormed(ns) && ChildrenSorted(ns) && current < |ns|
    requires Walk(ns, 0, prefix) == Some(current)
    ensures WellFormed(after) && ChildrenSorted(after) && child < |after|
    ensures Walk(after, 0, prefix + [KeyOf(currentPath)]) == Some(child)
    ensures FindChild(ns[current].children, KeyOf(currentPath)).Some? ==> after == ns && issuedAfter == issued
    ensures FindChild(ns[current].children, KeyOf(currentPath)).None? ==>
      && |after| == |ns| + 1 && child == |ns| && issuedAfter == issued + 1
      && after[|ns|] == NestingDir(generate(issued), currentPath, current, [], map[])
    ensures |after| <= |ns| + 1
    ensures Grows(ns, after)
  {
    var name := KeyOf(currentPath);
    var found := FindChild(ns[current].children, name);
    if found.None? {
      var g := generate(issued);
      issuedAfter := issued + 1;
      var created := NestingDir(g, currentPath, current, [], map[]);
      CreateStep(ns, current, created, prefix);
      WithChildSorted(ns, current, created);
      child := |ns|;
      after := WithChild(ns, current, created);
    } else {
      FoundStep(ns, current, prefix, name);
      GrowsReflexive(ns);
      issuedAfter := issued;
      child := found.value;
      after := ns;
    }
  }

  /** The ancestor i levels up is filed under the key that extends the walk to it. */
  lemma AncestorKey(path: VSPath, i: nat)
    requires i < |path.components|
    ensures var n := |path.components|;
      && KeyOf(GetAncestorDirectory(path, i)) == Keys(path)[n - 1 - i]
      && Keys(path)[..n - 1 - i] + [KeyOf(GetAncestorDirectory(path, i))] == Keys(path)[..n - i]
  {
    var n := |path.components|;
    assert KeyOf(GetAncestorDirectory(path, i)) == Keys(path)[n - 1 - i];
  }

  /** GetDir's step over an existing child. */
  lemma FoundStep(ns: seq<NestingDir>, current: nat, prefix: seq<string>, name: string)
    requires WellFormed(ns) && current < |ns|
    requires Walk(ns, 0, prefix) == Some(current)
    requires FindChild(ns[current].children, name).Some?
    ensures Walk(ns, 0, prefix + [name]) == FindChild(ns[current].children, name)
  {
    WalkAppend(ns, 0, prefix, name);
  }

  /** GetDir's step that creates a missing child. */
  lemma CreateStep(before: seq<NestingDir>, current: nat, created: NestingDir, prefix: seq<string>)
    requires WellFormed(before) && current < |before|
    requires Walk(before, 0, prefix) == Some(current)
    requires created.parent == current && created.children == []
    requires FindChild(before[current].children, KeyOf(created.path)).None?
    requires created.projects == map[]
    ensures var after := WithChild(before, current, created);
      && WellFormed(after)
      && Grows(before, after)
      && Walk(after, 0, prefix + [KeyOf(created.path)]) == Some(|before|)
  {
    var after := WithChild(before, current, created);
    var name := KeyOf(created.path);
    AddNodeKeepsShape(before, current, created);
    WithChildExtends(before, current, created);
    WalkKept(before, after, 0, prefix);
    FindListedChildAfterInsert(before[current].children, Child(name, |before|));
    WalkAppend(after, 0, prefix, name);
  }

  lemma WithChildExtends(before: seq<NestingDir>, current: nat, created: NestingDir)
    requires WellFormed(before) && current < |before|
    requires FindChild(before[current].children, KeyOf(created.path)).None?
    ensures Extends(before, WithChild(before, current, created))
  {
    var after := WithChild(before, current, created);
    forall i | 0 <= i < |before|
      ensures after[i].realGuid == before[i].realGuid && after[i].path == before[i].path
      ensures after[i].parent == before[i].parent
      ensures forall x :: x in before[i].children ==> x in after[i].children
    {
    }
  }

  /** After inserting an entry with a fresh key, looking that key up finds the entry. */
  lemma FindListedChildAfterInsert(cs: seq<Child>, ch: Child)
    requires KeysDistinct(cs)
    requires forall j :: 0 <= j < |cs| ==> cs[j].key != ch.key
    ensures FindChild(InsertChild(cs, ch), ch.key) == Some(ch.node)
  {
    var r := InsertChild(cs, ch);
    assert ch in r;
    var k :| 0 <= k < |r| && r[k] == ch;
    FindListedChild(r, k);
  }

  /** Walks depend only on the child lists. */
  lemma {:induction false} WalkSameChildren(a: seq<NestingDir>, b: seq<NestingDir>, i: nat, keys: seq<string>)
    requires WellFormed(a) && WellFormed(b) && |a| == |b| && i < |a|
    requires forall j :: 0 <= j < |a| ==> a[j].children == b[j].children
    ensures Walk(a, i, keys) == Walk(b, i, keys)
    decreases |keys|
  {
    if keys != [] {
      var found := FindChild(a[i].children, keys[0]);
      if found.Some? {
        WalkSameChildren(a, b, found.value, keys[1..]);
      }
    }
  }

  /** The node sequence after node n files the project name under key. */
  function WithProject(ns: seq<NestingDir>, n: nat, key: string, name: string): (r: seq<NestingDir>)
    requires n < |ns|
    ensures |r| == |ns|
    ensures r[n].projects == ns[n].projects[key := name]
    ensures forall i :: 0 <= i < |ns| && i != n ==> r[i].projects == ns[i].projects
    ensures forall i :: 0 <= i < |ns| ==> r[i].children == ns[i].children
  {
    ns[n := ns[n].(projects := ns[n].projects[key := name])]
  }

  lemma WithProjectKeepsShape(ns: seq<NestingDir>, n: nat, key: string, name: string, keys: seq<string>)
    requires WellFormed(ns) && n < |ns|
    ensures WellFormed(WithProject(ns, n, key, name))
    ensures Extends(ns, WithProject(ns, n, key, name))
    ensures Walk(WithProject(ns, n, key, name), 0, keys) == Walk(ns, 0, keys)
  {
    var r := WithProject(ns, n, key, name);
    assert forall i :: 0 <= i < |ns| ==> r[i].path == ns[i].path && r[i].parent == ns[i].parent;
    WalkSameChildren(ns, r, 0, keys);
  }

  lemma WithChildSorted(ns: seq<NestingDir>, parent: nat, node: NestingDir)
    requires WellFormed(ns) && ChildrenSorted(ns) && parent < |ns|
    requires node.children == []
    requires FindChild(ns[parent].children, KeyOf(node.path)).None?
    ensures ChildrenSorted(WithChild(ns, parent, node))
  {
    var r := WithChild(ns, parent, node);
    forall i | 0 <= i < |r|
      ensures KeysOrdered(r[i].children)
    {
      if i == |ns| {
        assert r[i].children == [];
      }
    }
  }
}
