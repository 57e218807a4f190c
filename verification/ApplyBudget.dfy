/**
 Where a run can be made to stop: a run that succeeds without faults succeeds in the same way
 on any budget that covers its calls, and uses up exactly that many.
 */
module ApplyBudget {
  import opened FileTree
  import opened Entries
  import opened ApplySpec

  /** The number of mutating calls between `s` and `r`. */
  function Cost(s: Tx, r: Tx): int {
    s.budget - r.budget
  }

  lemma BackupPathBudget(s: Tx, n: Path, keeps: bool, b: int)
    requires n != [] && s.budget < 0
    requires BackupPath(s, n, keeps).Done? && b >= Cost(s, BackupPath(s, n, keeps).tx)
    ensures var r := BackupPath(s, n, keeps).tx;
            && r.budget <= s.budget
            && BackupPath(s.(budget := b), n, keeps) == Done(r.(budget := b - Cost(s, r)))
  {
    hide RejectsParents, Lstat, Covered, MoveToStash;
    MoveBudget(s, n, s.budget - 2);
    MoveBudget(s, n, b - 2);
    if BackupPath(s, n, keeps) != Done(s) {
      assert BackupPath(s, n, keeps) == Done(MoveToStash(s.(budget := s.budget - 2), n));
      assert BackupPath(s.(budget := b), n, keeps) == Done(MoveToStash(s.(budget := b - 2), n));
    }
  }

  lemma MoveBudget(s: Tx, n: Path, b: int)
    ensures MoveToStash(s.(budget := b), n) == MoveToStash(s, n).(budget := b)
    ensures MoveToStash(s, n).budget == s.budget
  {
  }

  lemma {:induction false} BackupAllBudget(s: Tx, order: seq<Path>, entries: seq<Entry>, deleted: seq<Path>, k: nat, b: int)
    requires k <= |order| && (forall n :: n in order ==> n != []) && s.budget < 0
    requires BackupAll(s, order, entries, deleted, k).Done? && b >= Cost(s, BackupAll(s, order, entries, deleted, k).tx)
    ensures var r := BackupAll(s, order, entries, deleted, k).tx;
            && r.budget <= s.budget
            && BackupAll(s.(budget := b), order, entries, deleted, k) == Done(r.(budget := b - Cost(s, r)))
  {
    hide BackupPath, KeepsDir;
    if k > 0 {
      var m := BackupAll(s, order, entries, deleted, k - 1).tx;
      assert order[k - 1] in order;
      BackupAllNegative(s, order, entries, deleted, k - 1);
      var keeps := KeepsDir(entries, deleted, order[k - 1]);
      BackupPathNegative(m, order[k - 1], keeps);
      BackupAllBudget(s, order, entries, deleted, k - 1, b);
      BackupPathBudget(m, order[k - 1], keeps, b - Cost(s, m));
    }
  }

  lemma BackupPathNegative(s: Tx, n: Path, keeps: bool)
    requires n != [] && s.budget < 0
    ensures BackupPath(s, n, keeps).tx.budget <= s.budget
  {
    hide RejectsParents, Lstat, Covered;
  }

  lemma {:induction false} BackupAllNegative(s: Tx, order: seq<Path>, entries: seq<Entry>, deleted: seq<Path>, k: nat)
    requires k <= |order| && (forall n :: n in order ==> n != []) && s.budget < 0
    ensures BackupAll(s, order, entries, deleted, k).tx.budget <= s.budget
  {
    hide BackupPath, KeepsDir;
    if k > 0 {
      BackupAllNegative(s, order, entries, deleted, k - 1);
      assert order[k - 1] in order;
      var o := BackupAll(s, order, entries, deleted, k - 1);
      if o.Done? {
        BackupPathNegative(o.tx, order[k - 1], KeepsDir(entries, deleted, order[k - 1]));
      }
    }
  }

  lemma {:induction false} MkdirAllBudget(s: Tx, p: Path, b: int)
    requires s.budget < 0
    ensures MkdirAll(s, p).tx.budget <= s.budget
    ensures MkdirAll(s, p).Done? && b >= Cost(s, MkdirAll(s, p).tx) ==>
              MkdirAll(s.(budget := b), p) == Done(MkdirAll(s, p).tx.(budget := b - Cost(s, MkdirAll(s, p).tx)))
    decreases |p|
  {
    hide Lstat;
    if p != [] {
      MkdirAllBudget(s, Parent(p), b);
    }
  }

  lemma MakeDirBudget(s: Tx, p: Path, b: int)
    requires s.budget < 0
    ensures MakeDir(s, p).tx.budget <= s.budget
    ensures MakeDir(s, p).Done? && b >= Cost(s, MakeDir(s, p).tx) ==>
              MakeDir(s.(budget := b), p) == Done(MakeDir(s, p).tx.(budget := b - Cost(s, MakeDir(s, p).tx)))
  {
    hide Lstat, MkdirAll;
    var m := NoteDir(s, p).tx;
    assert NoteDir(s.(budget := b), p).tx == m.(budget := b);
    MkdirAllBudget(m, p, b);
  }

  lemma {:induction false} MakeDirsBudget(s: Tx, entries: seq<Entry>, k: nat, b: int)
    requires k <= |entries| && s.budget < 0
    ensures MakeDirs(s, entries, k).tx.budget <= s.budget
    ensures MakeDirs(s, entries, k).Done? && b >= Cost(s, MakeDirs(s, entries, k).tx) ==>
              MakeDirs(s.(budget := b), entries, k) ==
              Done(MakeDirs(s, entries, k).tx.(budget := b - Cost(s, MakeDirs(s, entries, k).tx)))
  {
    hide MakeDir;
    if k > 0 {
      MakeDirsBudget(s, entries, k - 1, b);
      var o := MakeDirs(s, entries, k - 1);
      if o.Done? && IsDirEntry(entries[k - 1]) {
        MakeDirBudget(o.tx, entries[k - 1].path, b - Cost(s, o.tx));
      }
    }
  }

  lemma InstallEntryBudget(s: Tx, stage: map<Path, Node>, p: Path, b: int)
    requires s.budget < 0 && p != [] && p in stage
    ensures InstallEntry(s, stage, p).tx.budget <= s.budget
    ensures InstallEntry(s, stage, p).Done? && b >= Cost(s, InstallEntry(s, stage, p).tx) ==>
              InstallEntry(s.(budget := b), stage, p) ==
              Done(InstallEntry(s, stage, p).tx.(budget := b - Cost(s, InstallEntry(s, stage, p).tx)))
  {
    hide Lstat, MkdirAll, MissingParents;
    var noted := s.(created := s.created + MissingParents(s.tree, Parent(p)));
    MkdirAllBudget(noted, Parent(p), b);
  }

  lemma {:induction false} InstallBudget(s: Tx, stage: map<Path, Node>, entries: seq<Entry>, k: nat, b: int)
    requires k <= |entries| && Staged(entries, stage) && s.budget < 0
    ensures Install(s, stage, entries, k).tx.budget <= s.budget
    ensures Install(s, stage, entries, k).Done? && b >= Cost(s, Install(s, stage, entries, k).tx) ==>
              Install(s.(budget := b), stage, entries, k) ==
              Done(Install(s, stage, entries, k).tx.(budget := b - Cost(s, Install(s, stage, entries, k).tx)))
  {
    hide InstallEntry;
    if k > 0 {
      InstallBudget(s, stage, entries, k - 1, b);
      var o := Install(s, stage, entries, k - 1);
      assert entries[k - 1] in entries;
      if o.Done? && entries[k - 1].kind != KindDir {
        InstallEntryBudget(o.tx, stage, entries[k - 1].path, b - Cost(s, o.tx));
      }
    }
  }

  /** With nothing left to spend, the first directory entry stops the chmod phase. */
  lemma {:induction false} ChmodAtZero(s: Tx, entries: seq<Entry>, k: nat)
    requires k <= |entries| && s.budget == 0
    ensures if exists j :: 0 <= j < k && IsDirEntry(entries[j]) then ChmodDirs(s, entries, k) == Failed(s)
            else ChmodDirs(s, entries, k) == Done(s)
  {
    hide ChmodDir;
    if k > 0 {
      ChmodAtZero(s, entries, k - 1);
      if IsDirEntry(entries[k - 1]) {
        ChmodDirAtZero(s, entries[k - 1].path, FileMode(entries[k - 1].mode, DEFAULT_DIR_MODE));
      }
    }
  }

  lemma ChmodDirAtZero(s: Tx, p: Path, mode: nat)
    requires s.budget == 0
    ensures ChmodDir(s, p, mode) == Failed(s)
  {
  }

  /**
   The run can be stopped at the first chmod: some budget takes the first three phases exactly as
   far as a run without faults and leaves nothing for the fourth.
   */
  lemma StopAtChmod(tree: Tree, stage: map<Path, Node>, order: seq<Path>, entries: seq<Entry>, deleted: seq<Path>)
    returns (b: int)
    requires IsBackupOrder(order, entries, deleted) && Staged(entries, stage)
    requires UntilInstalled(Begin(tree, -1), stage, order, entries, deleted).Done?
    requires exists j :: 0 <= j < |entries| && IsDirEntry(entries[j])
    ensures Commit(Begin(tree, b), stage, order, entries, deleted) ==
              Failed(UntilInstalled(Begin(tree, -1), stage, order, entries, deleted).tx.(budget := 0))
  {
    hide BackupAll, MakeDirs, Install, ChmodDirs;
    var s := Begin(tree, -1);
    assert forall n :: n in order ==> n != [];
    var one := BackupAll(s, order, entries, deleted, |order|).tx;
    BackupAllNegative(s, order, entries, deleted, |order|);
    var two := MakeDirs(one, entries, |entries|).tx;
    MakeDirsBudget(one, entries, |entries|, 0);
    var three := Install(two, stage, entries, |entries|).tx;
    InstallBudget(two, stage, entries, |entries|, 0);
    b := Cost(s, three);
    BackupAllBudget(s, order, entries, deleted, |order|, b);
    MakeDirsBudget(one, entries, |entries|, b - Cost(s, one));
    InstallBudget(two, stage, entries, |entries|, b - Cost(s, two));
    assert Begin(tree, b) == s.(budget := b);
    ChmodAtZero(three.(budget := 0), entries, |entries|);
  }

  /** The run can be stopped inside the install step of entry `k`. */
  lemma StopAtInstall(tree: Tree, stage: map<Path, Node>, order: seq<Path>, entries: seq<Entry>, deleted: seq<Path>, k: nat, two: Tx)
    returns (b: int)
    requires IsBackupOrder(order, entries, deleted) && Staged(entries, stage)
    requires BackupAll(Begin(tree, -1), order, entries, deleted, |order|).Done?
    requires MakeDirs(BackupAll(Begin(tree, -1), order, entries, deleted, |order|).tx, entries, |entries|) == Done(two)
    requires k < |entries| && entries[k].kind != KindDir && entries[k].path != [] && entries[k].path in stage
    requires Install(two, stage, entries, k).Done?
    requires InstallEntry(Install(two, stage, entries, k).tx.(budget := 0), stage, entries[k].path).Failed?
    ensures Commit(Begin(tree, b), stage, order, entries, deleted) ==
              InstallEntry(Install(two, stage, entries, k).tx.(budget := 0), stage, entries[k].path)
  {
    hide BackupAll, MakeDirs, InstallEntry, ChmodDirs;
    var s := Begin(tree, -1);
    assert forall n :: n in order ==> n != [];
    var one := BackupAll(s, order, entries, deleted, |order|).tx;
    BackupAllNegative(s, order, entries, deleted, |order|);
    MakeDirsBudget(one, entries, |entries|, 0);
    var three := Install(two, stage, entries, k).tx;
    InstallBudget(two, stage, entries, k, 0);
    b := Cost(s, three);
    BackupAllBudget(s, order, entries, deleted, |order|, b);
    MakeDirsBudget(one, entries, |entries|, b - Cost(s, one));
    InstallBudget(two, stage, entries, k, b - Cost(s, two));
    assert Begin(tree, b) == s.(budget := b);
    var start := two.(budget := b - Cost(s, two));
    assert Install(start, stage, entries, k + 1) == InstallEntry(three.(budget := 0), stage, entries[k].path);
    InstallStaysFailed(start, stage, entries, k + 1, |entries|);
  }
}
