/**
 Two change sets for which the promise of apply.go line 35 fails. In the smallest one a file becomes a
 directory and making that directory fails: rollback puts the file back and then deletes it again. In
 the other a link becomes a directory: rollback puts the link back and then deletes a file behind it
 that the change set does not name.
 */
module ApplyWitness {
  import opened FileTree
  import opened Entries
  import opened ApplySpec
  import opened ApplyRollback
  import opened RollbackSteps

  const FILE: Path := ["a"]
  const BEFORE: Tree := map[[] := Dir(DEFAULT_DIR_MODE), FILE := File([1], DEFAULT_FILE_MODE)]
  const WANTED: Entry := Entry(FILE, KindDir, "", 0, DEFAULT_DIR_MODE, "")

  lemma BackupMovesFile()
    ensures BackupPath(Begin(BEFORE, 2), FILE, true) == Done(MoveToStash(Begin(BEFORE, 0), FILE))
  {
    assert Parent(FILE) == [];
    assert !RejectsParents(BEFORE, []);
    assert Lstat(BEFORE, FILE) == Found(BEFORE[FILE]);
  }

  lemma StashHoldsFile()
    ensures var s := MoveToStash(Begin(BEFORE, 0), FILE);
            s == Tx(map[[] := Dir(DEFAULT_DIR_MODE)], map[FILE := File([1], DEFAULT_FILE_MODE)], [FILE], [], [], map[], 0, false)
  {
    assert AtOrBelow(FILE, FILE) && !AtOrBelow([], FILE);
    assert RemoveAll(BEFORE, FILE) == map[[] := Dir(DEFAULT_DIR_MODE)];
    assert Subtree(BEFORE, FILE) == map[FILE := File([1], DEFAULT_FILE_MODE)];
  }

  lemma DirFails(s: Tx)
    requires s.tree == map[[] := Dir(DEFAULT_DIR_MODE)] && s.budget == 0
    ensures MakeDir(s, FILE) == Failed(s.(created := s.created + [FILE]))
  {
    assert Parent(FILE) == [];
    assert Lstat(s.tree, []) == Found(Dir(DEFAULT_DIR_MODE));
    assert Lstat(s.tree, FILE) == NotExist;
    var m := s.(created := s.created + [FILE]);
    assert MkdirAll(m, []) == Done(m);
  }

  lemma RollbackDeletesFile(s: Tx)
    requires s.tree == map[[] := Dir(DEFAULT_DIR_MODE)] && s.stash == map[FILE := File([1], DEFAULT_FILE_MODE)]
    requires s.backups == [FILE] && s.created == [FILE] && s.installed == [] && s.modes == map[]
    ensures RolledBack(s) == map[[] := Dir(DEFAULT_DIR_MODE)]
  {
    assert FILE in s.backups && AtOrBelow(FILE, FILE) && !AtOrBelow([], FILE);
    var t := Unstashed(s);
    assert t == BEFORE;
    assert Rechmodded(t, s.modes) == t;
    assert FILE in Elements(s.created);
    assert Removable(t, Elements(s.created), FILE);
    assert [] !in Elements(s.created);
  }

  lemma OnlyOrder()
    ensures Staged([WANTED], map[]) && IsBackupOrder([FILE], [WANTED], [])
  {
    assert PathsOf([WANTED]) == {FILE} by {
      assert WANTED in [WANTED];
    }
  }

  /** The file is gone after the rollback, though commit had only moved it aside. */
  lemma FileLost()
    ensures Staged([WANTED], map[]) && IsBackupOrder([FILE], [WANTED], [])
    ensures var o := Commit(Begin(BEFORE, 2), map[], [FILE], [WANTED], []);
            o.Failed? && FILE in BEFORE && FILE !in RolledBack(o.tx)
  {
    OnlyOrder();
    BackupMovesFile();
    StashHoldsFile();
    hide Staged, IsBackupOrder, BackupPath, MoveToStash;
    var s := Begin(BEFORE, 2);
    assert WANTED in [WANTED] && FILE in DirPaths([WANTED]);
    var one := MoveToStash(Begin(BEFORE, 0), FILE);
    assert BackupAll(s, [FILE], [WANTED], [], 0) == Done(s);
    assert BackupAll(s, [FILE], [WANTED], [], 1) == Done(one);
    DirFails(one);
    hide MakeDir;
    assert MakeDirs(one, [WANTED], 0) == Done(one);
    var two := one.(created := one.created + [FILE]);
    assert MakeDirs(one, [WANTED], 1) == Failed(two);
    RollbackDeletesFile(two);
    hide RolledBack;
  }

  // ---- A file behind a link ----

  const LINK: Path := ["a"]
  const INNER: Path := ["a", "x"]
  const BEHIND: Path := ["b", "x"] // where INNER leads while LINK points to "b"
  const ROOTED: Tree := map[[] := Dir(DEFAULT_DIR_MODE), ["b"] := Dir(DEFAULT_DIR_MODE), BEHIND := File([1], DEFAULT_FILE_MODE)]
  const LINKED: Tree := ROOTED[LINK := Symlink("b")]
  const MADE: Tree := ROOTED[LINK := Dir(DEFAULT_DIR_MODE)]
  const DIRS: seq<Entry> := [Entry(LINK, KindDir, "", 0, DEFAULT_DIR_MODE, ""), Entry(INNER, KindDir, "", 0, DEFAULT_DIR_MODE, "")]

  lemma LinkOrder()
    ensures Staged(DIRS, map[]) && IsBackupOrder([LINK, INNER], DIRS, [])
    ensures DirPaths(DIRS) == {LINK, INNER}
    ensures !WantsDir(DIRS, BEHIND)
  {
    assert DIRS[0] in DIRS && DIRS[1] in DIRS;
    assert forall e :: e in DIRS <==> e == DIRS[0] || e == DIRS[1];
    assert PathsOf(DIRS) == {LINK, INNER};
    assert LINK != INNER && |LINK| < |INNER|;
    assert !Below(LINK, BEHIND) && !Below(INNER, BEHIND) && BEHIND != INNER;
  }

  lemma OnlyUnderLink()
    ensures AtOrBelow(LINK, LINK) && AtOrBelow(INNER, LINK)
    ensures !AtOrBelow([], LINK) && !AtOrBelow(["b"], LINK) && !AtOrBelow(BEHIND, LINK)
  {
    assert BEHIND[..1][0] != LINK[0] && ["b"][..1][0] != LINK[0];
  }

  lemma LinkMovedAside()
    ensures BackupPath(Begin(LINKED, 4), LINK, true) == Done(MoveToStash(Begin(LINKED, 2), LINK))
    ensures MoveToStash(Begin(LINKED, 2), LINK) == Tx(ROOTED, map[LINK := Symlink("b")], [LINK], [], [], map[], 2, false)
  {
    assert Parent(LINK) == [];
    assert !RejectsParents(LINKED, []);
    assert Lstat(LINKED, LINK) == Found(LINKED[LINK]);
    OnlyUnderLink();
    assert RemoveAll(LINKED, LINK) == ROOTED;
  }

  lemma InnerCovered(s: Tx)
    requires s.tree == ROOTED && s.backups == [LINK]
    ensures BackupPath(s, INNER, true) == Done(s)
  {
    assert Parent(INNER) == LINK && Parent(LINK) == [];
    assert Lstat(ROOTED, []) == Found(ROOTED[[]]);
    assert Lstat(ROOTED, LINK) == NotExist;
    assert !RejectsParents(ROOTED, []);
    assert !RejectsParents(ROOTED, LINK);
    assert LINK in s.backups && AtOrBelow(INNER, LINK);
  }

  lemma DirMade(s: Tx, p: Path)
    requires p != [] && p !in s.tree && Parent(p) in s.tree && s.tree[Parent(p)].Dir? && s.budget > 0
    ensures MakeDir(s, p) == Done(Spend(s).(created := s.created + [p], tree := s.tree[p := Dir(DEFAULT_DIR_MODE)]))
  {
    assert Lstat(s.tree, Parent(p)) == Found(s.tree[Parent(p)]);
    assert Lstat(s.tree, p) == NotExist;
    var m := s.(created := s.created + [p]);
    assert MkdirAll(m, Parent(p)) == Done(m);
  }

  lemma LinkBack(s: Tx)
    requires s.tree == MADE[INNER := Dir(DEFAULT_DIR_MODE)] && s.stash == map[LINK := Symlink("b")]
    requires s.backups == [LINK] && s.installed == []
    ensures Unstashed(s) == LINKED
  {
    assert LINK in s.backups;
    OnlyUnderLink();
    var u := Unstashed(s);
    assert Covered(s.backups, LINK) && Covered(s.backups, INNER);
    assert !Covered(s.backups, []) && !Covered(s.backups, ["b"]) && !Covered(s.backups, BEHIND);
    assert u.Keys == LINKED.Keys;
  }

  /** Where commit stops when the first chmod fails. */
  lemma LinkCommit() returns (s: Tx)
    ensures Staged(DIRS, map[]) && IsBackupOrder([LINK, INNER], DIRS, [])
    ensures Commit(Begin(LINKED, 4), map[], [LINK, INNER], DIRS, []) == Failed(s)
    ensures s == Tx(MADE[INNER := Dir(DEFAULT_DIR_MODE)], map[LINK := Symlink("b")], [LINK], [LINK, INNER], [], map[], 0, false)
  {
    LinkOrder();
    LinkMovedAside();
    hide Staged, IsBackupOrder, BackupPath, MakeDir, MoveToStash;
    var order := [LINK, INNER];
    var start := Begin(LINKED, 4);
    var one := Tx(ROOTED, map[LINK := Symlink("b")], [LINK], [], [], map[], 2, false);
    InnerCovered(one);
    assert forall n :: n in order ==> n != [];
    assert BackupAll(start, order, DIRS, [], 0) == Done(start);
    assert BackupAll(start, order, DIRS, [], 1) == Done(one);
    assert BackupAll(start, order, DIRS, [], 2) == Done(one);
    var two := one.(tree := MADE, created := [LINK], budget := 1);
    s := two.(tree := MADE[INNER := Dir(DEFAULT_DIR_MODE)], created := [LINK, INNER], budget := 0);
    assert Parent(LINK) == [] && Parent(INNER) == LINK;
    DirMade(one, LINK);
    DirMade(two, INNER);
    assert MakeDirs(one, DIRS, 0) == Done(one);
    assert MakeDirs(one, DIRS, 1) == Done(two);
    assert MakeDirs(one, DIRS, 2) == Done(s);
    assert Install(s, map[], DIRS, 0) == Done(s);
    assert Install(s, map[], DIRS, 1) == Done(s);
    assert Install(s, map[], DIRS, 2) == Done(s);
    assert ChmodDirs(s, DIRS, 0) == Done(s);
    assert ChmodDirs(s, DIRS, 1) == Failed(s);
    assert ChmodDirs(s, DIRS, 2) == Failed(s);
  }

  /**
   With the link back in place, the recorded path of the inner directory leads to a file that no entry
   names, and removing what it leads to loses that file.
   */
  lemma FileBehindLinkLost()
    ensures Staged(DIRS, map[]) && IsBackupOrder([LINK, INNER], DIRS, [])
    ensures var o := Commit(Begin(LINKED, 4), map[], [LINK, INNER], DIRS, []);
            var back := Unstashed(o.tx);
            && o.Failed? && INNER in o.tx.created
            && back == LINKED && Lstat(back, INNER) == ThroughLink
            && BEHIND == Parent(LINK) + [back[LINK].target] + INNER[|LINK|..]
            && BEHIND in Remove(back, INNER) && BEHIND !in Remove(back, BEHIND)
            && LittleLost(LINKED, DIRS, {BEHIND}, Remove(back, BEHIND))
            && !LittleLost(LINKED, DIRS, {}, Remove(back, BEHIND))
  {
    LinkOrder();
    var s := LinkCommit();
    LinkBack(s);
    hide Staged, IsBackupOrder, Commit, Unstashed, WantsDir;
    assert Parent(INNER) == LINK && Lstat(LINKED, LINK) == Found(Symlink("b"));
    assert BEHIND in LINKED && BEHIND !in Remove(LINKED, BEHIND);
  }
}
