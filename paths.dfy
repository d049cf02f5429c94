/** File-system paths as os.path builds them: an absolute flag and a list
    of components, joined and split the way os.path.join and
    os.path.basename do. */
module Paths {
  import opened Order

  /** A path relative to the working directory (absolute == false) or to
      the file-system root, as its list of components. */
  datatype Path = Path(absolute: bool, parts: seq<string>)

  /** os.path.join(p, name) for a name taken from a directory listing. */
  function Child(p: Path, name: string): Path {
    Path(p.absolute, p.parts + [name])
  }

  /** os.path.join(p, name) for a computed name, which may be empty: joining
      "" only appends a separator, so the result names p itself. */
  function JoinName(p: Path, name: string): Path {
    if name == "" then p else Child(p, name)
  }

  /** os.path.join(a, b): an absolute b discards a. */
  function Join(a: Path, b: Path): Path {
    if b.absolute then b else Path(a.absolute, a.parts + b.parts)
  }

  /** os.path.basename. */
  function Basename(p: Path): string {
    if p.parts == [] then "" else p.parts[|p.parts| - 1]
  }

  function Parent(p: Path): Path
    requires p.parts != []
  {
    Path(p.absolute, p.parts[..|p.parts| - 1])
  }

  /** `a` is `b` or one of its ancestors. */
  predicate IsPrefix(a: Path, b: Path) {
    a.absolute == b.absolute && |a.parts| <= |b.parts| && b.parts[..|a.parts|] == a.parts
  }

  /** Lexicographic order on component lists, a proper prefix first. */
  predicate PartsLess(a: seq<string>, b: seq<string>)
    decreases |a|
  {
    if a == [] then b != []
    else b != [] && (Less(a[0], b[0]) || (a[0] == b[0] && PartsLess(a[1..], b[1..])))
  }

  /** The order in which a pre-order walk with sorted children meets paths. */
  predicate PathLess(p: Path, q: Path) {
    p.absolute == q.absolute && PartsLess(p.parts, q.parts)
  }

  lemma {:induction false} PartsLessIrreflexive(a: seq<string>)
    ensures !PartsLess(a, a)
    decreases |a|
  {
    if a != [] {
      LessIrreflexive(a[0]);
      PartsLessIrreflexive(a[1..]);
    }
  }

  /** Two lists that agree on their first k components compare as what
      follows. */
  lemma {:induction false} PartsLessCommonPrefix(a: seq<string>, b: seq<string>, k: nat)
    requires k <= |a| && k <= |b| && a[..k] == b[..k]
    ensures PartsLess(a, b) <==> PartsLess(a[k..], b[k..])
    decreases k
  {
    if k > 0 {
      assert a[0] == b[0];
      LessIrreflexive(a[0]);
      assert a[1..][..k - 1] == b[1..][..k - 1];
      PartsLessCommonPrefix(a[1..], b[1..], k - 1);
      assert a[1..][k - 1..] == a[k..] && b[1..][k - 1..] == b[k..];
    }
  }

  /** An ancestor comes before its descendants. */
  lemma AncestorFirst(p: Path, q: Path)
    requires IsPrefix(p, q) && p != q
    ensures PathLess(p, q)
  {
    var k := |p.parts|;
    assert p.parts[..k] == q.parts[..k];
    PartsLessCommonPrefix(p.parts, q.parts, k);
    assert p.parts[k..] == [];
  }

  /** Everything below child a of a folder comes before everything below a
      later child b. */
  lemma SiblingsOrdered(parent: Path, a: string, b: string, p: Path, q: Path)
    requires Less(a, b)
    requires IsPrefix(Child(parent, a), p) && IsPrefix(Child(parent, b), q)
    ensures PathLess(p, q)
  {
    var k := |parent.parts|;
    assert p.parts[..k] == Child(parent, a).parts[..k] == parent.parts;
    assert q.parts[..k] == Child(parent, b).parts[..k] == parent.parts;
    PartsLessCommonPrefix(p.parts, q.parts, k);
    assert p.parts[k] == a && q.parts[k] == b;
  }

  /** A child's parent and basename are the folder and the name it was
      joined from. */
  lemma ParentOfChild(p: Path, name: string)
    ensures Parent(Child(p, name)) == p && Basename(Child(p, name)) == name
  {
    assert (p.parts + [name])[..|p.parts|] == p.parts;
  }

  lemma IsPrefixTransitive(a: Path, b: Path, c: Path)
    requires IsPrefix(a, b) && IsPrefix(b, c)
    ensures IsPrefix(a, c)
  {
    assert c.parts[..|a.parts|] == c.parts[..|b.parts|][..|a.parts|];
  }

  /** Joining a name never leaves the folder joined to. */
  lemma IsPrefixJoinName(p: Path, name: string)
    ensures IsPrefix(p, p) && IsPrefix(p, JoinName(p, name))
  {
    assert p.parts[..|p.parts|] == p.parts;
    assert (p.parts + [name])[..|p.parts|] == p.parts;
  }

  /** A path lies below its parent. */
  lemma IsPrefixParent(p: Path)
    requires p.parts != []
    ensures IsPrefix(Parent(p), p)
  {
  }
}
