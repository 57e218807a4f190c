/**
 Rollback one call at a time: each loop of rollback moves the workspace along a sequence of
 trees that ends in the closed form RolledBack.
 */
module RollbackSteps {
  import opened FileTree
  import opened Entries
  import opened Manifest
  import opened ApplySpec
  import opened ApplyRollback

  /** The first `i` installed paths are gone. */
  function Uninstalled(s: Tx, i: nat): Tree
    requires i <= |s.installed|
  {
    map p | p in s.tree && p !in s.installed[..i] :: s.tree[p]
  }

  lemma InstalledIsLeaf(original: Tree, entries: seq<Entry>, s: Tx, f: Path, q: Path)
    requires CommitInv(original, entries, s) && f in s.installed && q in s.tree
    ensures AtOrBelow(q, f) <==> q == f
  {
    if Below(q, f) {
      AncestorsAreDirs(s.tree, q, f);
    }
    if AtOrBelow(q, f) && |q| == |f| {
      assert q == q[..|f|];
    }
    assert AtOrBelow(f, f);
  }

  lemma UninstallStep(original: Tree, entries: seq<Entry>, s: Tx, i: nat)
    requires CommitInv(original, entries, s) && i < |s.installed|
    ensures RemoveAll(Uninstalled(s, i), s.installed[i]) == Uninstalled(s, i + 1)
  {
    hide CommitInv, AtOrBelow;
    var f := s.installed[i];
    assert f in s.installed;
    forall q | q in s.tree
      ensures AtOrBelow(q, f) <==> q == f
    {
      InstalledIsLeaf(original, entries, s, f, q);
    }
    assert s.installed[..i + 1] == s.installed[..i] + [f];
  }

  /** Nothing is installed any more, and the first `i` backups are back in place. */
  function Restored(s: Tx, i: nat): Tree
    requires i <= |s.backups|
  {
    Unstashed(s.(backups := s.backups[..i]))
  }

  lemma RestoreBegin(s: Tx)
    ensures Restored(s, 0) == Uninstalled(s, |s.installed|)
  {
    assert s.installed[..|s.installed|] == s.installed;
  }

  lemma RestoreEnd(s: Tx)
    ensures Restored(s, |s.backups|) == Unstashed(s)
  {
    assert s.backups[..|s.backups|] == s.backups;
  }

  lemma CoveredUpTo(s: Tx, i: nat, p: Path)
    requires i < |s.backups|
    ensures Covered(s.backups[..i + 1], p) <==> Covered(s.backups[..i], p) || AtOrBelow(p, s.backups[i])
    ensures Covered(s.backups[..i], p) ==> Covered(s.backups, p)
    ensures AtOrBelow(p, s.backups[i]) ==> Covered(s.backups, p)
  {
    assert s.backups[..i + 1] == s.backups[..i] + [s.backups[i]];
    assert s.backups[i] in s.backups[..i + 1];
    if b :| b in s.backups[..i] && AtOrBelow(p, b) {
      assert b in s.backups[..i + 1] && b in s.backups;
    }
  }

  lemma RestoreStep(original: Tree, entries: seq<Entry>, s: Tx, i: nat)
    requires CommitInv(original, entries, s) && i < |s.backups|
    ensures RemoveAll(Restored(s, i), s.backups[i]) + Subtree(s.stash, s.backups[i]) == Restored(s, i + 1)
  {
    forall p
      ensures Covered(s.backups[..i + 1], p) <==> Covered(s.backups[..i], p) || AtOrBelow(p, s.backups[i])
    {
      CoveredUpTo(s, i, p);
    }
    hide CommitInv, Covered, AtOrBelow;
    RestoreSplit(s, s.backups[..i], s.backups[..i + 1], s.backups[i]);
  }

  lemma RestoreSplit(s: Tx, less: seq<Path>, more: seq<Path>, b: Path)
    requires forall p :: Covered(more, p) <==> Covered(less, p) || AtOrBelow(p, b)
    ensures RemoveAll(Unstashed(s.(backups := less)), b) + Subtree(s.stash, b) == Unstashed(s.(backups := more))
  {
    hide Covered, AtOrBelow;
    var l := RemoveAll(Unstashed(s.(backups := less)), b) + Subtree(s.stash, b);
    var r := Unstashed(s.(backups := more));
    forall p
      ensures p in l <==> p in r
      ensures p in l ==> l[p] == r[p]
    {
      RestoreAt(s, less, more, b, p);
    }
    hide RemoveAll, Unstashed, Subtree;
    assert l == r;
  }

  lemma RestoreAt(s: Tx, less: seq<Path>, more: seq<Path>, b: Path, p: Path)
    requires Covered(more, p) <==> Covered(less, p) || AtOrBelow(p, b)
    ensures var l := RemoveAll(Unstashed(s.(backups := less)), b) + Subtree(s.stash, b);
            var r := Unstashed(s.(backups := more));
            (p in l <==> p in r) && (p in l ==> l[p] == r[p])
  {
    hide Covered, AtOrBelow;
  }

  /** The parent of a backup is a directory that never left. */
  lemma BackupParentThere(original: Tree, entries: seq<Entry>, s: Tx, i: nat)
    requires CommitInv(original, entries, s) && i < |s.backups|
    ensures s.backups[i] != []
    ensures var t := RemoveAll(Restored(s, i), s.backups[i]);
            Lstat(t, Parent(s.backups[i])).Found? && Lstat(t, Parent(s.backups[i])).node.Dir?
  {
    var b := s.backups[i];
    assert b in s.backups;
    var up := Parent(b);
    assert up in original && original[up].Dir?;
    assert !Covered(s.backups, up) by {
      if Covered(s.backups, up) {
        var c :| c in s.backups && AtOrBelow(up, c);
        assert AtOrBelow(b, up);
        AtOrBelowTransitive(b, up, c);
        assert false;
      }
    }
    CoveredUpTo(s, i, up);
    assert up in s.tree && s.tree[up].Dir?;
    assert up !in s.installed;
    hide CommitInv, Covered;
    assert !AtOrBelow(up, b);
  }

  // ---- Modes ----

  predicate SameShape(t: Tree, u: Tree) {
    t.Keys == u.Keys && forall p :: p in t ==> (t[p].Dir? <==> u[p].Dir?) && (t[p].Symlink? <==> u[p].Symlink?)
  }

  lemma {:induction false} ShapeLookup(t: Tree, u: Tree, p: Path)
    requires SameShape(t, u)
    ensures Lstat(t, p).Found? <==> Lstat(u, p).Found?
    ensures !Lstat(t, p).Found? ==> Lstat(t, p) == Lstat(u, p)
    ensures FollowsLink(t, p) <==> FollowsLink(u, p)
    decreases |p|
  {
    if p !in t && p != [] {
      ShapeLookup(t, u, Parent(p));
    }
  }

  /** The recorded modes outside `rest` are set. */
  function ModesSet(t: Tree, modes: map<Path, nat>, rest: set<Path>): Tree {
    Rechmodded(t, modes - rest)
  }

  lemma ModesStep(t: Tree, modes: map<Path, nat>, rest: set<Path>, p: Path)
    requires p in rest && p in modes && rest <= modes.Keys
    ensures FollowsLink(ModesSet(t, modes, rest), p) <==> FollowsLink(t, p)
    ensures !FollowsLink(t, p) ==>
              Chmod(ModesSet(t, modes, rest), p, modes[p]) == ModesSet(t, modes, rest - {p})
    ensures FollowsLink(t, p) ==> ModesSet(t, modes, rest) == ModesSet(t, modes, rest - {p})
  {
    assert SameShape(t, ModesSet(t, modes, rest));
    ShapeLookup(t, ModesSet(t, modes, rest), p);
    if FollowsLink(t, p) && p in t {
      assert t[p].Symlink?;
    }
  }

  // ---- Created directories ----

  /** What deepest-first removal has deleted after the paths in `done`. */
  function RemovedSoFar(t: Tree, created: set<Path>, done: seq<Path>): Tree {
    map p | p in t && !(p in done && Removable(t, created, p)) :: t[p]
  }

  lemma DeeperIsDone(order: seq<Path>, i: nat, q: Path)
    requires i < |order| && DeepestFirst(order) && q in order && |q| > |order[i]|
    ensures q in order[..i]
  {
    var j :| 0 <= j < |order| && order[j] == q;
    assert j < i;
  }

  /** The turn of a removable path: everything below it is already gone. */
  lemma RemoveHits(t: Tree, order: seq<Path>, i: nat, q: Path)
    requires DeepestFirst(order) && i < |order|
    requires Removable(t, Elements(order), order[i]) && q in t && Below(q, order[i])
    ensures q !in RemovedSoFar(t, Elements(order), order[..i])
  {
    DeeperIsDone(order, i, q);
    forall r | r in t && AtOrBelow(r, q)
      ensures r in order
    {
      AtOrBelowTransitive(r, q, order[i]);
    }
  }

  /** The turn of a path that is not removable: something unrecorded is still below it. */
  lemma RemoveMisses(t: Tree, order: seq<Path>, i: nat)
    requires Closed(t) && i < |order|
    requires !Removable(t, Elements(order), order[i]) && order[i] in t
    ensures t[order[i]].Dir?
    ensures exists q :: q in RemovedSoFar(t, Elements(order), order[..i]) && Below(q, order[i])
  {
    var p := order[i];
    var q :| q in t && AtOrBelow(q, p) && q !in Elements(order);
    hide Removable;
    assert p in Elements(order);
    assert q != p;
    assert q == q[..|q|];
    assert Below(q, p);
    AncestorsAreDirs(t, q, p);
    hide Closed;
    UnrecordedStays(t, Elements(order), order[..i], q);
  }

  lemma UnrecordedStays(t: Tree, c: set<Path>, done: seq<Path>, q: Path)
    requires q in t && q !in c
    ensures q in RemovedSoFar(t, c, done)
  {
  }

  lemma RemovedOneMore(t: Tree, c: set<Path>, done: seq<Path>, p: Path)
    ensures RemovedSoFar(t, c, done + [p]) ==
              if Removable(t, c, p) then RemovedSoFar(t, c, done) - {p} else RemovedSoFar(t, c, done)
  {
    hide Removable;
  }

  lemma RemoveStep(t: Tree, order: seq<Path>, i: nat)
    requires Closed(t) && DeepestFirst(order) && i < |order|
    ensures Remove(RemovedSoFar(t, Elements(order), order[..i]), order[i]) == RemovedSoFar(t, Elements(order), order[..i + 1])
  {
    var c, p := Elements(order), order[i];
    var u := RemovedSoFar(t, c, order[..i]);
    assert order[..i + 1] == order[..i] + [p];
    RemovedOneMore(t, c, order[..i], p);
    hide Removable, Closed, DeepestFirst, Below;
    if Removable(t, c, p) {
      forall q | q in u
        ensures !Below(q, p)
      {
        if Below(q, p) {
          RemoveHits(t, order, i, q);
        }
      }
    } else if p in u {
      RemoveMisses(t, order, i);
    }
  }

  /** A recorded path whose parent is already gone is gone as well. */
  lemma ParentRemoved(t: Tree, order: seq<Path>, i: nat, p: Path)
    requires DeepestFirst(order) && i < |order|
    requires p in t && p != [] && Parent(p) in order[..i] && Removable(t, Elements(order), Parent(p))
    ensures p !in RemovedSoFar(t, Elements(order), order[..i])
  {
    var up := Parent(p);
    assert AtOrBelow(p, up);
    var j :| 0 <= j < i && order[..i][j] == up;
    DeeperIsDone(order, j, p);
    forall r | r in t && AtOrBelow(r, p)
      ensures r in order
    {
      AtOrBelowTransitive(r, p, up);
    }
  }

  lemma RemovedClosed(t: Tree, order: seq<Path>, i: nat)
    requires Closed(t) && DeepestFirst(order) && i < |order| && [] !in order
    ensures Closed(RemovedSoFar(t, Elements(order), order[..i]))
  {
    var u := RemovedSoFar(t, Elements(order), order[..i]);
    hide Removable, DeepestFirst;
    forall p | p in u && p != []
      ensures Parent(p) in u
    {
      if Parent(p) !in u {
        ParentRemoved(t, order, i, p);
      }
    }
    assert [] !in order[..i];
  }

  /** Removal so far leaves the lookup of the next path as it was. */
  lemma RemoveLookup(t: Tree, order: seq<Path>, i: nat)
    requires Closed(t) && DeepestFirst(order) && i < |order| && [] !in order
    ensures Lstat(RemovedSoFar(t, Elements(order), order[..i]), order[i]) == ThroughLink <==> Lstat(t, order[i]) == ThroughLink
  {
    var u := RemovedSoFar(t, Elements(order), order[..i]);
    RemovedClosed(t, order, i);
    LstatMeaning(t, order[i]);
    LstatMeaning(u, order[i]);
    hide Lstat, Closed, Removable;
    forall a | a in t && Below(order[i], a)
      ensures a in u
    {
      ShallowerNotDone(order, i, a);
    }
  }

  lemma ShallowerNotDone(order: seq<Path>, i: nat, a: Path)
    requires DeepestFirst(order) && i < |order| && |a| < |order[i]|
    ensures a !in order[..i]
  {
  }

  // ---- Calls that are resolved through links ----

  /**
   The modes outside `rest` are set; besides, any node may have been given the default mode by a
   call that a link led to it.
   */
  ghost predicate ModesMoved(start: Tree, modes: map<Path, nat>, rest: set<Path>, t: Tree) {
    && t.Keys == start.Keys
    && forall p :: p in start ==>
         || t[p] == WithMode(start[p], DEFAULT_DIR_MODE)
         || t[p] == (if p in modes && p !in rest then WithMode(start[p], modes[p]) else start[p])
  }

  lemma MovedShape(start: Tree, modes: map<Path, nat>, rest: set<Path>, t: Tree)
    requires ModesMoved(start, modes, rest, t)
    ensures SameShape(start, t)
  {
  }

  /** One chmod of the loop, on its own path or wherever a link leads. */
  lemma ModesMove(start: Tree, modes: map<Path, nat>, rest: set<Path>, t: Tree, p: Path)
    requires ModesMoved(start, modes, rest, t) && p in rest && p in modes
    ensures FollowsLink(t, p) <==> FollowsLink(start, p)
    ensures !FollowsLink(t, p) ==> ModesMoved(start, modes, rest - {p}, Chmod(t, p, modes[p]))
    ensures FollowsLink(t, p) ==>
              forall q :: ModesMoved(start, modes, rest - {p}, Chmod(t, q, DEFAULT_DIR_MODE))
  {
    MovedShape(start, modes, rest, t);
    ShapeLookup(start, t, p);
    assert FollowsLink(t, p) && p in t ==> start[p].Symlink?;
    hide FollowsLink, Lstat;
  }

  /** Of `start` only recorded paths and the paths in `gone` have been removed. */
  ghost predicate Shrunk(start: Tree, created: set<Path>, gone: set<Path>, t: Tree) {
    && t.Keys <= start.Keys
    && (forall p :: p in t ==> t[p] == start[p])
    && forall p :: p in start && p !in t ==> p in created || p in gone
  }

  lemma ShrinkOne(start: Tree, created: set<Path>, gone: set<Path>, t: Tree, q: Path)
    requires Shrunk(start, created, gone, t)
    ensures q in created ==> Shrunk(start, created, gone, Remove(t, q))
    ensures Shrunk(start, created, gone + {q}, Remove(t, q))
  {
  }

  // ---- What rollback never loses ----

  /**
   What a failed apply leaves of the original tree: only paths that the change set needs as
   directories, and those in `gone`, can be missing; a node that is there has its old content and
   link target; and whatever is there besides is a directory.
   */
  ghost predicate LittleLost(original: Tree, entries: seq<Entry>, gone: set<Path>, t: Tree) {
    && (forall p :: p in original && p !in t ==> WantsDir(entries, p) || p in gone)
    && (forall p :: p in original && p in t ==> t[p] == original[p] || t[p] == WithMode(original[p], DEFAULT_DIR_MODE))
    && (forall p :: p in t && p !in original ==> t[p].Dir?)
  }

  lemma LittleLostAt(original: Tree, entries: seq<Entry>, s: Tx, w: Tree, gone: set<Path>, t: Tree, p: Path)
    requires CommitInv(original, entries, s)
    requires ModesMoved(Unstashed(s), s.modes, {}, w) && Shrunk(w, Elements(s.created), gone, t)
    ensures p in original && p !in t ==> WantsDir(entries, p) || p in gone
    ensures p in original && p in t ==> t[p] == original[p] || t[p] == WithMode(original[p], DEFAULT_DIR_MODE)
    ensures p in t && p !in original ==> t[p].Dir?
  {
    UnstashedMeaning(original, entries, s, p);
    if p in original {
      OriginalModes(original, entries, s, p);
      RecordedMeaning(original, entries, s, p);
    }
    hide CommitInv, Unstashed, WantsDir, Covered;
  }

  lemma RecordedMeaning(original: Tree, entries: seq<Entry>, s: Tx, p: Path)
    requires CommitInv(original, entries, s)
    ensures p in s.modes && Covered(s.backups, p) ==> s.modes[p] == DEFAULT_DIR_MODE
    ensures p in s.modes && FollowsLink(Unstashed(s), p) ==> s.modes[p] == DEFAULT_DIR_MODE
    ensures p in s.created ==> WantsDir(entries, p)
  {
    assert Covered(s.backups, p) ==> Extra(original, s, p);
    if !Covered(s.backups, p) {
      UncoveredLookup(original, entries, s, p);
    }
    hide Unstashed, Covered, WantsDir, FollowsLink;
  }

  /**
   From any state that commit can stop in, and wherever the links of the restored tree lead: rollback
   loses only paths that the change set needs as directories, and nodes that some removal
   reached through a link.
   */
  lemma RollbackLosesLittle(original: Tree, entries: seq<Entry>, s: Tx, w: Tree, gone: set<Path>, t: Tree)
    requires CommitInv(original, entries, s)
    requires ModesMoved(Unstashed(s), s.modes, {}, w) && Shrunk(w, Elements(s.created), gone, t)
    ensures LittleLost(original, entries, gone, t)
  {
    hide CommitInv, ModesMoved, Shrunk, WantsDir, WithMode;
    forall p
      ensures p in original && p !in t ==> WantsDir(entries, p) || p in gone
      ensures p in original && p in t ==> t[p] == original[p] || t[p] == WithMode(original[p], DEFAULT_DIR_MODE)
      ensures p in t && p !in original ==> t[p].Dir?
    {
      LittleLostAt(original, entries, s, w, gone, t, p);
    }
  }
}
