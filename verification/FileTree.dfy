/**
 A workspace directory as a finite map from clean relative paths to nodes, and the
 filesystem calls that the sync transaction makes on it.

 A path is its list of segments, so the workspace root "." is the empty list.
 */
module FileTree {

  type Path = seq<string>

  type Byte = b: int | 0 <= b < 256

  type Bytes = seq<Byte>

  /** The content digest (SHA-256) is a parameter of whatever depends on it. */
  type Digest = Bytes -> string

  /** One file, directory or symbolic link. Modes are permission bits. */
  datatype Node =
    | File(content: Bytes, mode: nat)
    | Dir(mode: nat)
    | Symlink(target: string)

  type Tree = map<Path, Node>

  const DEFAULT_DIR_MODE: nat := 0x1ED // 0o755
  const DEFAULT_FILE_MODE: nat := 0x1A4 // 0o644

  function Parent(p: Path): Path
    requires p != []
  {
    p[..|p| - 1]
  }

  /** `p` is `top` itself or lies somewhere below it. */
  predicate AtOrBelow(p: Path, top: Path) {
    |top| <= |p| && p[..|top|] == top
  }

  predicate Below(p: Path, top: Path) {
    |top| < |p| && p[..|top|] == top
  }

  /** Every node hangs off a chain of directories that starts at the root. */
  ghost predicate Closed(t: Tree) {
    && [] in t
    && t[[]].Dir?
    && forall p :: p in t && p != [] ==> Parent(p) in t && t[Parent(p)].Dir?
  }

  /** `p` exists and nothing lies below it. */
  ghost predicate IsLeaf(t: Tree, p: Path) {
    p in t && forall q :: q in t ==> !Below(q, p)
  }

  lemma AtOrBelowTransitive(p: Path, q: Path, r: Path)
    requires AtOrBelow(p, q) && AtOrBelow(q, r)
    ensures AtOrBelow(p, r)
  {
    assert p[..|r|] == p[..|q|][..|r|];
  }

  /** Two prefixes of one path are comparable. */
  lemma PrefixesNest(p: Path, q: Path, r: Path)
    requires AtOrBelow(p, q) && AtOrBelow(p, r) && |q| <= |r|
    ensures AtOrBelow(r, q)
  {
    assert r[..|q|] == p[..|r|][..|q|] == p[..|q|];
  }

  lemma ParentIsAbove(p: Path, a: Path)
    requires Below(p, a)
    ensures AtOrBelow(Parent(p), a)
  {
    assert Parent(p)[..|a|] == p[..|a|];
  }

  /** Everything above an existing node is a directory. */
  lemma {:induction false} AncestorsAreDirs(t: Tree, p: Path, a: Path)
    requires Closed(t) && p in t && Below(p, a)
    ensures a in t && t[a].Dir?
    decreases |p|
  {
    ParentIsAbove(p, a);
    if |Parent(p)| == |a| {
      assert Parent(p) == a;
    } else {
      AncestorsAreDirs(t, Parent(p), a);
    }
  }

  /** A subtree has a deepest node, and that node is a leaf. */
  lemma LeafBelow(t: Tree, p: Path) returns (leaf: Path)
    requires Closed(t) && p in t
    ensures AtOrBelow(leaf, p) && IsLeaf(t, leaf)
  {
    leaf := p;
    var rest := t.Keys;
    while exists q :: q in t && Below(q, leaf)
      invariant leaf in t && AtOrBelow(leaf, p)
      invariant rest <= t.Keys
      invariant forall q :: q in t && Below(q, leaf) ==> q in rest
      decreases rest
    {
      var q :| q in t && Below(q, leaf);
      AtOrBelowTransitive(q, leaf, p);
      forall r | r in t && Below(r, q)
        ensures r in rest - {q}
      {
        AtOrBelowTransitive(r, q, leaf);
      }
      leaf, rest := q, rest - {q};
    }
  }

  /** What a lookup that does not follow the last segment reports. */
  datatype Info =
    | Found(node: Node)
    | NotExist
    | NotDirectory // a file stands where a directory is needed (ENOTDIR)
    | ThroughLink // the lookup leaves the tree through a symbolic link

  function Lstat(t: Tree, p: Path): Info
    decreases |p|
  {
    if p in t then Found(t[p])
    else if p == [] then NotExist
    else match Lstat(t, Parent(p))
      case Found(File(_, _)) => NotDirectory
      case Found(Dir(_)) => NotExist
      case Found(Symlink(_)) => ThroughLink
      case other => other
  }

  /** Lookups and the closest existing ancestor agree. */
  lemma {:induction false} LstatMeaning(t: Tree, p: Path)
    requires Closed(t)
    ensures Lstat(t, p).Found? <==> p in t
    ensures Lstat(t, p) == ThroughLink <==> exists a :: a in t && Below(p, a) && t[a].Symlink?
    ensures Lstat(t, p) == NotDirectory <==> exists a :: a in t && Below(p, a) && t[a].File?
    decreases |p|
  {
    if p in t {
      forall a | a in t && Below(p, a)
        ensures t[a].Dir?
      {
        AncestorsAreDirs(t, p, a);
      }
    } else {
      var up := Parent(p);
      LstatMeaning(t, up);
      assert Below(p, up);
      forall a | a in t && Below(p, a)
        ensures a == up || Below(up, a)
      {
        ParentIsAbove(p, a);
      }
      forall a | a in t && Below(up, a)
        ensures Below(p, a)
      {
        AtOrBelowTransitive(p, up, a);
      }
      if up in t {
        forall a | a in t && Below(up, a)
          ensures t[a].Dir?
        {
          AncestorsAreDirs(t, up, a);
        }
      }
    }
  }

  /** os.RemoveAll: the subtree at `p` is gone. */
  function RemoveAll(t: Tree, p: Path): (r: Tree)
  {
    map q | q in t && !AtOrBelow(q, p) :: t[q]
  }

  /** The subtree at `p`, under its own full paths. */
  function Subtree(t: Tree, p: Path): Tree {
    map q | q in t && AtOrBelow(q, p) :: t[q]
  }

  lemma RemoveAllClosed(t: Tree, p: Path)
    requires Closed(t) && p != []
    ensures Closed(RemoveAll(t, p))
  {
    forall q | q in RemoveAll(t, p) && q != []
      ensures Parent(q) in RemoveAll(t, p)
    {
      if AtOrBelow(Parent(q), p) {
        assert AtOrBelow(q, Parent(q));
        AtOrBelowTransitive(q, Parent(q), p);
      }
    }
  }

  /** os.Remove: deletes a file, a link or an empty directory and otherwise changes nothing. */
  function Remove(t: Tree, p: Path): Tree
  {
    if p in t && (t[p].Dir? ==> forall q :: q in t ==> !Below(q, p)) then t - {p} else t
  }

  function WithMode(n: Node, mode: nat): Node {
    match n
    case File(content, _) => File(content, mode)
    case Dir(_) => Dir(mode)
    case Symlink(_) => n
  }

  /** os.Chmod on a path that is not a link. */
  function Chmod(t: Tree, p: Path, mode: nat): Tree {
    if p in t then t[p := WithMode(t[p], mode)] else t
  }
}
