/**
 Commit when lookups of missing parents fail too. A failing lookup ends the loop that records parents, so
 directories may then be made that no record holds, and rollback leaves them behind. What the
 promise of apply.go is about, the replaced paths, is kept all the same, under the exact
 condition stated here.
 */
module ApplyLookups {
  import opened FileTree
  import opened Entries
  import opened ApplySpec
  import opened ApplyRollback
  import opened ApplyBackup
  import opened ApplyDirs
  import opened ApplyGuard

  // ---- Commit with failing lookups ----

  function First(paths: seq<Path>, n: nat): seq<Path> {
    if n < |paths| then paths[..n] else paths
  }

  /** Placing an entry when only the first `seen` lookups of its parents answer. */
  function InstallEntrySeeing(s: Tx, stage: map<Path, Node>, p: Path, seen: nat): Outcome
    requires p != [] && p in stage
  {
    var noted := s.(created := s.created + First(MissingParents(s.tree, Parent(p)), seen));
    match MkdirAll(noted, Parent(p))
    case Failed(f) => Failed(f)
    case Done(m) => RenameInto(m, p, stage[p])
  }

  function InstallSeeing(s: Tx, stage: map<Path, Node>, entries: seq<Entry>, k: nat, seen: seq<nat>): Outcome
    requires k <= |entries| == |seen| && Staged(entries, stage)
  {
    if k == 0 then Done(s)
    else match InstallSeeing(s, stage, entries, k - 1, seen)
      case Failed(f) => Failed(f)
      case Done(m) =>
        var e := entries[k - 1];
        assert e in entries;
        if e.kind != KindDir then InstallEntrySeeing(m, stage, e.path, seen[k - 1]) else Done(m)
  }

  ghost function UntilInstalledSeeing(s: Tx, stage: map<Path, Node>, order: seq<Path>, entries: seq<Entry>, deleted: seq<Path>, seen: seq<nat>): Outcome
    requires IsBackupOrder(order, entries, deleted) && Staged(entries, stage) && |seen| == |entries|
  {
    match BackupAll(s, order, entries, deleted, |order|)
    case Failed(f) => Failed(f)
    case Done(m) =>
      match MakeDirs(m, entries, |entries|)
      case Failed(f) => Failed(f)
      case Done(d) => InstallSeeing(d, stage, entries, |entries|, seen)
  }

  /** Commit, with the number of parent lookups that answer for each entry. */
  ghost function CommitSeeing(s: Tx, stage: map<Path, Node>, order: seq<Path>, entries: seq<Entry>, deleted: seq<Path>, seen: seq<nat>): Outcome
    requires IsBackupOrder(order, entries, deleted) && Staged(entries, stage) && |seen| == |entries|
  {
    match UntilInstalledSeeing(s, stage, order, entries, deleted, seen)
    case Failed(f) => Failed(f)
    case Done(m) => ChmodDirs(m, entries, |entries|)
  }

  // ---- Records do not steer commit ----

  ghost predicate SameButFewer(o: Outcome, r: Outcome) {
    (o.Done? <==> r.Done?) && Fewer(o.tx, r.tx)
  }

  lemma {:induction false} MkdirAllFewer(s: Tx, t: Tx, p: Path)
    requires Fewer(s, t)
    ensures SameButFewer(MkdirAll(s, p), MkdirAll(t, p))
    decreases |p|
  {
    if p != [] {
      MkdirAllFewer(s, t, Parent(p));
    }
    hide Lstat;
  }

  lemma InstallEntryFewer(s: Tx, t: Tx, stage: map<Path, Node>, p: Path, seen: nat)
    requires Fewer(s, t) && p != [] && p in stage
    ensures SameButFewer(InstallEntry(s, stage, p), InstallEntrySeeing(t, stage, p, seen))
  {
    var missing := MissingParents(s.tree, Parent(p));
    var a, b := s.(created := s.created + missing), t.(created := t.created + First(missing, seen));
    assert Fewer(a, b);
    MkdirAllFewer(a, b, Parent(p));
    hide MkdirAll, Lstat, MissingParents;
  }

  lemma {:induction false} InstallFewer(s: Tx, stage: map<Path, Node>, entries: seq<Entry>, k: nat, seen: seq<nat>)
    requires k <= |entries| == |seen| && Staged(entries, stage)
    ensures SameButFewer(Install(s, stage, entries, k), InstallSeeing(s, stage, entries, k, seen))
  {
    hide InstallEntry, InstallEntrySeeing;
    if k > 0 {
      InstallFewer(s, stage, entries, k - 1, seen);
      var o, r := Install(s, stage, entries, k - 1), InstallSeeing(s, stage, entries, k - 1, seen);
      assert entries[k - 1] in entries;
      if o.Done? && entries[k - 1].kind != KindDir {
        InstallEntryFewer(o.tx, r.tx, stage, entries[k - 1].path, seen[k - 1]);
      }
    }
  }

  lemma ChmodDirFewer(s: Tx, t: Tx, p: Path, mode: nat)
    requires Fewer(s, t)
    ensures SameButFewer(ChmodDir(s, p, mode), ChmodDir(t, p, mode))
  {
    hide Lstat, Chmod;
  }

  lemma {:induction false} ChmodFewer(s: Tx, t: Tx, entries: seq<Entry>, k: nat)
    requires k <= |entries| && Fewer(s, t)
    ensures SameButFewer(ChmodDirs(s, entries, k), ChmodDirs(t, entries, k))
  {
    hide ChmodDir;
    if k > 0 {
      ChmodFewer(s, t, entries, k - 1);
      var o, r := ChmodDirs(s, entries, k - 1), ChmodDirs(t, entries, k - 1);
      var e := entries[k - 1];
      ChmodDirFewer(o.tx, r.tx, e.path, FileMode(e.mode, DEFAULT_DIR_MODE));
    }
  }

  /** Failing lookups change nothing but the list of created directories, which gets shorter. */
  lemma CommitFewer(s: Tx, stage: map<Path, Node>, order: seq<Path>, entries: seq<Entry>, deleted: seq<Path>, seen: seq<nat>)
    requires IsBackupOrder(order, entries, deleted) && Staged(entries, stage) && |seen| == |entries|
    ensures SameButFewer(Commit(s, stage, order, entries, deleted), CommitSeeing(s, stage, order, entries, deleted, seen))
  {
    hide BackupAll, MakeDirs, Install, InstallSeeing, ChmodDirs, Staged;
    assert forall n :: n in order ==> n != [];
    hide IsBackupOrder;
    var one := BackupAll(s, order, entries, deleted, |order|);
    if one.Done? {
      var two := MakeDirs(one.tx, entries, |entries|);
      if two.Done? {
        InstallFewer(two.tx, stage, entries, |entries|, seen);
        var o, r := Install(two.tx, stage, entries, |entries|), InstallSeeing(two.tx, stage, entries, |entries|, seen);
        ChmodFewer(o.tx, r.tx, entries, |entries|);
      }
    }
  }

  // ---- Enough lookups ----

  lemma {:induction false} MissingFew(t: Tree, p: Path)
    ensures |MissingParents(t, p)| <= |p|
    decreases |p|
  {
    if p != [] {
      MissingFew(t, Parent(p));
    }
    hide Lstat;
  }

  function AllSeen(entries: seq<Entry>): seq<nat> {
    seq(|entries|, i requires 0 <= i < |entries| => |entries[i].path|)
  }

  lemma {:induction false} InstallAllSeen(s: Tx, stage: map<Path, Node>, entries: seq<Entry>, k: nat)
    requires k <= |entries| && Staged(entries, stage)
    ensures InstallSeeing(s, stage, entries, k, AllSeen(entries)) == Install(s, stage, entries, k)
  {
    hide MkdirAll, RenameInto, MissingParents;
    if k > 0 {
      InstallAllSeen(s, stage, entries, k - 1);
      var o, e := Install(s, stage, entries, k - 1), entries[k - 1];
      assert e in entries;
      if o.Done? && e.kind != KindDir {
        MissingFew(o.tx.tree, Parent(e.path));
      }
    }
  }

  /** When every lookup answers, this is commit. */
  lemma CommitAllSeen(s: Tx, stage: map<Path, Node>, order: seq<Path>, entries: seq<Entry>, deleted: seq<Path>)
    requires IsBackupOrder(order, entries, deleted) && Staged(entries, stage)
    ensures CommitSeeing(s, stage, order, entries, deleted, AllSeen(entries)) == Commit(s, stage, order, entries, deleted)
  {
    hide BackupAll, MakeDirs, Install, InstallSeeing, ChmodDirs, Staged;
    assert forall n :: n in order ==> n != [];
    hide IsBackupOrder;
    var one := BackupAll(s, order, entries, deleted, |order|);
    if one.Done? {
      var two := MakeDirs(one.tx, entries, |entries|);
      if two.Done? {
        InstallAllSeen(two.tx, stage, entries, |entries|);
      }
    }
  }

  // ---- What is kept ----

  /** Guards 2 and 3 without guard 1. */
  ghost predicate KeepGuard(original: Tree, entries: seq<Entry>, deleted: seq<Path>) {
    || Blocked(original, entries, deleted)
    || (CreatedSafe(original, entries, deleted) && ModesSafe(original, entries, deleted))
  }

  /** Whichever mutating call fails, and however many lookups of parents fail before it, no original node is lost. */
  ghost predicate AlwaysKept(original: Tree, stage: map<Path, Node>, order: seq<Path>, entries: seq<Entry>, deleted: seq<Path>)
    requires IsBackupOrder(order, entries, deleted) && Staged(entries, stage)
  {
    forall b: int, seen: seq<nat> :: |seen| == |entries| && CommitSeeing(Begin(original, b), stage, order, entries, deleted, seen).Failed? ==>
      KeepsOriginal(CommitSeeing(Begin(original, b), stage, order, entries, deleted, seen).tx, original)
  }

  lemma StoppedHarmless(original: Tree, entries: seq<Entry>, deleted: seq<Path>, s: Tx)
    requires CommitInv(original, entries, s) && KeepGuard(original, entries, deleted)
    requires OnlyBackups(original, s) || (RecordsRight(original, entries, deleted, s) && !Blocked(original, entries, deleted))
    ensures CreatedHarmless(original, s) && ModesHarmless(original, s)
  {
    hide CommitInv, Blocked, CreatedSafe, ModesSafe, RecordsRight, CreatedHarmless, ModesHarmless;
    if OnlyBackups(original, s) {
      OnlyBackupsHarmless(original, s);
    } else {
      RecordsHarmless(original, entries, deleted, s);
    }
  }

  lemma OnlyBackupsHarmless(original: Tree, s: Tx)
    requires OnlyBackups(original, s)
    ensures CreatedHarmless(original, s) && ModesHarmless(original, s)
  {
    hide Lstat, IsLeaf, FollowsLink;
  }

  lemma KeptUnderGuard(original: Tree, stage: map<Path, Node>, order: seq<Path>, entries: seq<Entry>, deleted: seq<Path>, b: int, seen: seq<nat>)
    requires Closed(original) && CleanEntries(entries)
    requires IsBackupOrder(order, entries, deleted) && Staged(entries, stage) && |seen| == |entries|
    requires KeepGuard(original, entries, deleted)
    requires CommitSeeing(Begin(original, b), stage, order, entries, deleted, seen).Failed?
    ensures KeepsOriginal(CommitSeeing(Begin(original, b), stage, order, entries, deleted, seen).tx, original)
  {
    hide Closed, CleanEntries, IsBackupOrder, Staged, KeepGuard, CommitInv, OnlyBackups, RecordsRight, Blocked, KeepsOriginal, CreatedHarmless, ModesHarmless, Commit, CommitSeeing;
    CommitStops(original, stage, order, entries, deleted, b);
    CommitFewer(Begin(original, b), stage, order, entries, deleted, seen);
    var s := Commit(Begin(original, b), stage, order, entries, deleted).tx;
    var t := CommitSeeing(Begin(original, b), stage, order, entries, deleted, seen).tx;
    StoppedHarmless(original, entries, deleted, s);
    FewerInv(original, entries, s, t);
    KeepsOriginalExact(original, entries, t);
  }

  /** Without the guard some failing call costs an original node, even if every lookup answers. */
  lemma NotAlwaysKept(original: Tree, stage: map<Path, Node>, order: seq<Path>, entries: seq<Entry>, deleted: seq<Path>)
    requires Closed(original) && CleanEntries(entries)
    requires IsBackupOrder(order, entries, deleted) && Staged(entries, stage)
    requires !KeepGuard(original, entries, deleted)
    ensures !AlwaysKept(original, stage, order, entries, deleted)
  {
    hide Closed, CleanEntries, IsBackupOrder, Staged, CommitInv, OnlyBackups, RecordsRight, Blocked, KeepsOriginal, CreatedHarmless, ModesHarmless, Commit, CommitSeeing, CreatedSafe, ModesSafe;
    var b := UnsafeStops(original, stage, order, entries, deleted);
    CommitStops(original, stage, order, entries, deleted, b);
    CommitAllSeen(Begin(original, b), stage, order, entries, deleted);
    var s := Commit(Begin(original, b), stage, order, entries, deleted).tx;
    KeepsOriginalExact(original, entries, s);
    assert |AllSeen(entries)| == |entries|;
    assert CommitSeeing(Begin(original, b), stage, order, entries, deleted, AllSeen(entries)).Failed?;
  }

  /**
   For every tree, every clean change set, every staging and every backup order: whichever mutating
   call of commit fails first, and whichever lookups of parents fail before it, rollback puts every
   original node back exactly and leaves nothing new but directories, if and only if the guards on recorded
   directories and modes hold. That parents are listed first is not needed for this.
   */
  lemma KeptIffGuard(original: Tree, stage: map<Path, Node>, order: seq<Path>, entries: seq<Entry>, deleted: seq<Path>)
    requires Closed(original) && CleanEntries(entries)
    requires IsBackupOrder(order, entries, deleted) && Staged(entries, stage)
    ensures AlwaysKept(original, stage, order, entries, deleted) <==> KeepGuard(original, entries, deleted)
  {
    hide Closed, CleanEntries, IsBackupOrder, Staged, KeepGuard, KeepsOriginal, CommitSeeing;
    if KeepGuard(original, entries, deleted) {
      forall b: int, seen: seq<nat> | |seen| == |entries| && CommitSeeing(Begin(original, b), stage, order, entries, deleted, seen).Failed?
        ensures KeepsOriginal(CommitSeeing(Begin(original, b), stage, order, entries, deleted, seen).tx, original)
      {
        KeptUnderGuard(original, stage, order, entries, deleted, b, seen);
      }
    } else {
      NotAlwaysKept(original, stage, order, entries, deleted);
    }
  }
}
