/** The bounded-depth folder scanner of scaner/scaner.py: a pre-order walk
    that yields a folder, then the walks of its entries in sorted name
    order, listing a folder's entries only above the depth cap. */
module Scaner {
  import opened Order
  import opened Paths
  import opened FileSystem

  /** The depth cap a scanner gets when none is given. */
  const DefaultMaxDepth: int := 5

  datatype Scaner = Scaner(maxDepth: int) {

    /** How many levels below a folder met at `depth` may still be yielded. */
    function Room(depth: int): nat {
      if depth < maxDepth then maxDepth - depth else 0
    }

    /** The paths scan(root, depth) yields, in order. */
    function Scan(fs: Fs, root: Path, depth: int): (r: seq<Path>)
      ensures r == [] <==> !IsDir(fs, root)
      ensures r != [] ==> r[0] == root
      decreases Room(depth), 1, 0
    {
      if !IsDir(fs, root) then []
      else if depth < maxDepth then [root] + ScanEach(fs, root, SortedNames(ChildNames(fs, root)), depth + 1)
      else [root]
    }

    /** The walks of the entries `names` of `parent`, one after the other. */
    function ScanEach(fs: Fs, parent: Path, names: seq<string>, depth: int): seq<Path>
      decreases Room(depth), 2, |names|
    {
      if names == [] then []
      else Scan(fs, Child(parent, names[0]), depth) + ScanEach(fs, parent, names[1..], depth)
    }
  }

  /** scan() on a scanner built with no depth cap given. */
  function DefaultScaner(): Scaner {
    Scaner(DefaultMaxDepth)
  }

  predicate PathsIncreasing(r: seq<Path>) {
    forall i, j :: 0 <= i < j < |r| ==> PathLess(r[i], r[j])
  }

  /** Every yielded path is a folder at or below the root, at most Room(depth)
      levels down; in particular a scan at the depth cap yields the root only,
      and a file is never yielded. */
  lemma {:induction false} ScanSound(s: Scaner, fs: Fs, root: Path, depth: int)
    ensures forall p :: p in s.Scan(fs, root, depth) ==>
      IsDir(fs, p) && IsPrefix(root, p) && |p.parts| - |root.parts| <= s.Room(depth)
    decreases s.Room(depth), 1, 0
  {
    var r := s.Scan(fs, root, depth);
    if IsDir(fs, root) && depth < s.maxDepth {
      var names := SortedNames(ChildNames(fs, root));
      var rest := s.ScanEach(fs, root, names, depth + 1);
      assert r == [root] + rest;
      ScanEachSound(s, fs, root, names, depth + 1);
      forall p | p in rest
        ensures IsPrefix(root, p) && |p.parts| - |root.parts| <= s.Room(depth)
      {
        var c := Child(root, p.parts[|root.parts|]);
        assert p.parts[..|root.parts|] == p.parts[..|c.parts|][..|root.parts|];
      }
    } else if IsDir(fs, root) {
      assert r == [root];
    }
  }

  lemma {:induction false} ScanEachSound(s: Scaner, fs: Fs, parent: Path, names: seq<string>, depth: int)
    ensures forall p :: p in s.ScanEach(fs, parent, names, depth) ==>
      && IsDir(fs, p)
      && |p.parts| > |parent.parts|
      && p.parts[|parent.parts|] in names
      && IsPrefix(Child(parent, p.parts[|parent.parts|]), p)
      && |p.parts| - |parent.parts| - 1 <= s.Room(depth)
    decreases s.Room(depth), 2, |names|
  {
    if names != [] {
      var c := Child(parent, names[0]);
      ScanSound(s, fs, c, depth);
      ScanEachSound(s, fs, parent, names[1..], depth);
      forall p | p in s.Scan(fs, c, depth)
        ensures p.parts[|parent.parts|] == names[0]
      {
        assert p.parts[..|c.parts|] == c.parts;
        assert p.parts[|parent.parts|] == p.parts[..|c.parts|][|parent.parts|];
      }
    }
  }

  lemma PathsIncreasingConcat(a: seq<Path>, b: seq<Path>)
    requires PathsIncreasing(a) && PathsIncreasing(b)
    requires forall x, y :: x in a && y in b ==> PathLess(x, y)
    ensures PathsIncreasing(a + b)
  {
    forall i, j | 0 <= i < j < |a + b|
      ensures PathLess((a + b)[i], (a + b)[j])
    {
      if j < |a| {
        assert PathLess(a[i], a[j]);
      } else if i >= |a| {
        assert PathLess(b[i - |a|], b[j - |a|]);
      } else {
        assert (a + b)[i] in a && (a + b)[j] in b;
      }
    }
  }

  /** The walk is in pre-order with siblings in sorted name order: each
      yielded path comes before every later one in the order "ancestor
      first, then by the first differing name". Hence no folder is yielded
      twice. */
  lemma {:induction false} ScanOrdered(s: Scaner, fs: Fs, root: Path, depth: int)
    ensures PathsIncreasing(s.Scan(fs, root, depth))
    decreases s.Room(depth), 1, 0
  {
    if IsDir(fs, root) && depth < s.maxDepth {
      var names := SortedNames(ChildNames(fs, root));
      SortedNamesFacts(ChildNames(fs, root));
      var rest := s.ScanEach(fs, root, names, depth + 1);
      ScanEachOrdered(s, fs, root, names, depth + 1);
      ScanEachSound(s, fs, root, names, depth + 1);
      forall y | y in rest
        ensures PathLess(root, y)
      {
        AncestorFirst(root, y);
      }
      PathsIncreasingConcat([root], rest);
    }
  }

  lemma {:induction false} ScanEachOrdered(s: Scaner, fs: Fs, parent: Path, names: seq<string>, depth: int)
    requires StrictlySorted(names)
    ensures PathsIncreasing(s.ScanEach(fs, parent, names, depth))
    decreases s.Room(depth), 2, |names|
  {
    if names != [] {
      var c := Child(parent, names[0]);
      var first := s.Scan(fs, c, depth);
      var rest := s.ScanEach(fs, parent, names[1..], depth);
      ScanOrdered(s, fs, c, depth);
      ScanEachOrdered(s, fs, parent, names[1..], depth);
      ScanSound(s, fs, c, depth);
      ScanEachSound(s, fs, parent, names[1..], depth);
      forall x, y | x in first && y in rest
        ensures PathLess(x, y)
      {
        var b := y.parts[|parent.parts|];
        var k :| 0 <= k < |names[1..]| && names[1..][k] == b;
        assert Less(names[0], names[k + 1]);
        SiblingsOrdered(parent, names[0], b, x, y);
      }
      PathsIncreasingConcat(first, rest);
    }
  }

  lemma ScanDistinct(s: Scaner, fs: Fs, root: Path, depth: int)
    ensures forall i, j :: 0 <= i < j < |s.Scan(fs, root, depth)| ==>
      s.Scan(fs, root, depth)[i] != s.Scan(fs, root, depth)[j]
  {
    var r := s.Scan(fs, root, depth);
    ScanOrdered(s, fs, root, depth);
    forall i, j | 0 <= i < j < |r|
      ensures r[i] != r[j]
    {
      assert PathLess(r[i], r[j]);
      PartsLessIrreflexive(r[i].parts);
    }
  }

  /** Every folder within Room(depth) levels of the root whose ancestors up
      to the root are all folders is yielded. */
  lemma {:induction false} ScanComplete(s: Scaner, fs: Fs, root: Path, depth: int, p: Path)
    requires IsPrefix(root, p) && |p.parts| - |root.parts| <= s.Room(depth)
    requires forall k :: |root.parts| <= k <= |p.parts| ==> IsDir(fs, Path(p.absolute, p.parts[..k]))
    ensures p in s.Scan(fs, root, depth)
    decreases |p.parts| - |root.parts|
  {
    assert p.parts[..|root.parts|] == root.parts;
    assert IsDir(fs, root);
    if p != root {
      var name := p.parts[|root.parts|];
      var c := Child(root, name);
      assert c == Path(p.absolute, p.parts[..|root.parts| + 1]);
      var names := SortedNames(ChildNames(fs, root));
      SortedNamesFacts(ChildNames(fs, root));
      assert name in names;
      ScanComplete(s, fs, c, depth + 1, p);
      ScanEachContains(s, fs, root, names, depth + 1, name, p);
    }
  }

  lemma {:induction false} ScanEachContains(s: Scaner, fs: Fs, parent: Path, names: seq<string>, depth: int, name: string, p: Path)
    requires name in names && p in s.Scan(fs, Child(parent, name), depth)
    ensures p in s.ScanEach(fs, parent, names, depth)
    decreases |names|
  {
    if names[0] != name {
      ScanEachContains(s, fs, parent, names[1..], depth, name, p);
    }
  }

  /** With the default cap, nothing more than five levels below the root is
      yielded. */
  lemma DefaultScanDepth(fs: Fs, root: Path)
    ensures forall p :: p in DefaultScaner().Scan(fs, root, 0) ==> |p.parts| <= |root.parts| + 5
  {
    ScanSound(DefaultScaner(), fs, root, 0);
  }
}
