/**
 When apply.go keeps its promise to restore every replaced path: a condition on the tree and the
 change set alone, read before commit starts, that holds if and only if every possible failure
 of commit is undone by rollback.
 */
module ApplyGuard {
  import opened FileTree
  import opened Entries
  import opened ApplySpec
  import opened ApplyRollback
  import opened ApplyBackup
  import opened ApplyDirs
  import opened ApplyInstall
  import opened ApplyBudget

  /** Guard 2: a recorded directory at or below a backup does not hit a node of the original tree. */
  ghost predicate CreatedSafe(original: Tree, entries: seq<Entry>, deleted: seq<Path>) {
    forall p :: Recordable(original, entries, deleted, p) && Displaced(original, entries, deleted, p) ==>
      Lstat(original, p) != ThroughLink && !IsLeaf(original, p)
  }

  /** A mode of 0o755; links have none. */
  predicate HasDefaultMode(n: Node) {
    n.Symlink? || n.mode == 0x1ED
  }

  lemma DefaultModeMeaning(n: Node)
    ensures HasDefaultMode(n) <==> WithMode(n, DEFAULT_DIR_MODE) == n
  {
  }

  /** Guard 3: a mode recorded at or below a backup is the mode that the original node has. */
  ghost predicate ModesSafe(original: Tree, entries: seq<Entry>, deleted: seq<Path>) {
    forall p :: ModeReset(entries, p) && Displaced(original, entries, deleted, p) ==>
      && !FollowsLink(original, p)
      && (p in original ==> HasDefaultMode(original[p]))
  }

  ghost predicate RollbackGuard(original: Tree, entries: seq<Entry>, deleted: seq<Path>) {
    || Blocked(original, entries, deleted)
    || (&& ParentsListedFirst(original, entries, deleted)
        && CreatedSafe(original, entries, deleted)
        && ModesSafe(original, entries, deleted))
  }

  ghost predicate AlwaysRestored(original: Tree, stage: map<Path, Node>, order: seq<Path>, entries: seq<Entry>, deleted: seq<Path>)
    requires IsBackupOrder(order, entries, deleted) && Staged(entries, stage)
  {
    forall b :: Commit(Begin(original, b), stage, order, entries, deleted).Failed? ==>
      Restores(Commit(Begin(original, b), stage, order, entries, deleted).tx, original)
  }

  // ---- Every outcome of commit ----

  /** What a stopped commit leaves: the invariant, and either untouched records or accounted ones. */
  lemma CommitStops(original: Tree, stage: map<Path, Node>, order: seq<Path>, entries: seq<Entry>, deleted: seq<Path>, b: int)
    requires Closed(original) && CleanEntries(entries)
    requires IsBackupOrder(order, entries, deleted) && Staged(entries, stage)
    ensures var o := Commit(Begin(original, b), stage, order, entries, deleted);
            && CommitInv(original, entries, o.tx)
            && (o.Failed? ==> OnlyBackups(original, o.tx) ||
                              (RecordsRight(original, entries, deleted, o.tx) && !Blocked(original, entries, deleted)))
            && (o.Failed? && b < 0 ==> Blocked(original, entries, deleted))
  {
    hide CommitInv, OnlyBackups, RecordsRight, Blocked, BackedUp, DirsMade, Installing, CleanEntries, MakeDirs, Install, BackupAll, ChmodDirs, Closed;
    var s := Begin(original, b);
    BeginBackedUp(original, entries, deleted, order, b);
    BackupPhase(original, entries, deleted, order, |order|, s);
    assert forall n :: n in order ==> n != [];
    if b < 0 {
      BackupAllNegative(s, order, entries, deleted, |order|);
    }
    var one := BackupAll(s, order, entries, deleted, |order|);
    if one.Done? {
      BackedUpIsDisplaced(original, entries, deleted, order, one.tx);
      DirsBegin(original, entries, deleted, order, one.tx);
      DirPhase(original, entries, deleted, one.tx, |entries|);
      var two := MakeDirs(one.tx, entries, |entries|);
      if two.Done? {
        InstallBegin(original, entries, deleted, stage, two.tx);
        InstallPhase(original, entries, deleted, stage, two.tx, |entries|);
        var three := Install(two.tx, stage, entries, |entries|);
        if three.Done? {
          InstalledReady(original, entries, deleted, stage, three.tx);
          ChmodPhase(original, entries, deleted, three.tx, |entries|);
        }
      }
    }
  }

  lemma InstalledReady(original: Tree, entries: seq<Entry>, deleted: seq<Path>, stage: map<Path, Node>, s: Tx)
    requires CleanEntries(entries) && Installing(original, entries, deleted, stage, s, |entries|)
    ensures UniquePaths(entries) && CommitInv(original, entries, s)
    ensures BackupsAreDisplaced(original, entries, deleted, s) && Noted(original, entries, deleted, s)
    ensures DirEntriesMade(entries, s.tree)
    ensures ParentsListedFirst(original, entries, deleted) ==> MadeDirsRecorded(original, s)
  {
    hide CommitInv, BackupsAreDisplaced, Noted, DirEntriesMade, MadeDirsRecorded, ParentsListedFirst;
  }

  // ---- The guard is enough ----

  lemma RecordsHarmless(original: Tree, entries: seq<Entry>, deleted: seq<Path>, s: Tx)
    requires CommitInv(original, entries, s) && RecordsRight(original, entries, deleted, s)
    requires CreatedSafe(original, entries, deleted) && ModesSafe(original, entries, deleted)
    ensures CreatedHarmless(original, s) && ModesHarmless(original, s)
  {
    assert CreatedHarmless(original, s) by {
      hide CommitInv, ModesSafe, ParentsListedFirst, Recordable, Covered, Displaced, IsLeaf;
    }
    assert ModesHarmless(original, s) by {
      hide CreatedSafe, ParentsListedFirst, Recordable, Covered, Displaced, ModeReset, FollowsLink;
      assert forall n :: HasDefaultMode(n) ==> WithMode(n, DEFAULT_DIR_MODE) == n;
    }
  }

  lemma GuardedRecordsRestore(original: Tree, entries: seq<Entry>, deleted: seq<Path>, s: Tx)
    requires CommitInv(original, entries, s) && RecordsRight(original, entries, deleted, s)
    requires ParentsListedFirst(original, entries, deleted)
    requires CreatedSafe(original, entries, deleted) && ModesSafe(original, entries, deleted)
    ensures Restores(s, original)
  {
    RecordsHarmless(original, entries, deleted, s);
    hide CommitInv, CreatedHarmless, ModesHarmless, Restores, ParentsListedFirst, CreatedSafe, ModesSafe;
    RollbackSufficient(original, entries, s);
  }

  lemma OnlyBackupsRestore(original: Tree, entries: seq<Entry>, s: Tx)
    requires CommitInv(original, entries, s) && OnlyBackups(original, s)
    ensures Restores(s, original)
  {
    assert MadeDirsRecorded(original, s) && CreatedHarmless(original, s) && ModesHarmless(original, s) by {
      hide Lstat, IsLeaf, FollowsLink;
    }
    hide Restores, MadeDirsRecorded, CreatedHarmless, ModesHarmless;
    RollbackSufficient(original, entries, s);
  }

  lemma GuardSufficient(original: Tree, stage: map<Path, Node>, order: seq<Path>, entries: seq<Entry>, deleted: seq<Path>)
    requires Closed(original) && CleanEntries(entries)
    requires IsBackupOrder(order, entries, deleted) && Staged(entries, stage)
    requires RollbackGuard(original, entries, deleted)
    ensures AlwaysRestored(original, stage, order, entries, deleted)
  {
    hide CommitInv, RecordsRight, OnlyBackups, Blocked, ParentsListedFirst, CreatedSafe, ModesSafe, Commit, Restores, IsBackupOrder, CleanEntries, Closed, Staged;
    forall b | Commit(Begin(original, b), stage, order, entries, deleted).Failed?
      ensures Restores(Commit(Begin(original, b), stage, order, entries, deleted).tx, original)
    {
      var s := Commit(Begin(original, b), stage, order, entries, deleted).tx;
      CommitStops(original, stage, order, entries, deleted, b);
      if OnlyBackups(original, s) {
        OnlyBackupsRestore(original, entries, s);
      } else {
        GuardedRecordsRestore(original, entries, deleted, s);
      }
    }
  }

  // ---- The guard is needed ----

  /** The three phases of an unblocked run without faults. */
  lemma FaultFree(original: Tree, stage: map<Path, Node>, order: seq<Path>, entries: seq<Entry>, deleted: seq<Path>, k: nat)
    returns (two: Tx)
    requires Closed(original) && CleanEntries(entries) && !Blocked(original, entries, deleted)
    requires IsBackupOrder(order, entries, deleted) && Staged(entries, stage) && k <= |entries|
    ensures BackupAll(Begin(original, -1), order, entries, deleted, |order|).Done?
    ensures MakeDirs(BackupAll(Begin(original, -1), order, entries, deleted, |order|).tx, entries, |entries|) == Done(two)
    ensures Install(two, stage, entries, k).Done?
    ensures Installing(original, entries, deleted, stage, Install(two, stage, entries, k).tx, k)
  {
    hide Blocked, BackedUp, DirsMade, Installing, CleanEntries, MakeDirs, Install, BackupAll, Closed, Staged;
    var s := Begin(original, -1);
    BeginBackedUp(original, entries, deleted, order, -1);
    BackupPhase(original, entries, deleted, order, |order|, s);
    assert forall n :: n in order ==> n != [];
    BackupAllNegative(s, order, entries, deleted, |order|);
    var one := BackupAll(s, order, entries, deleted, |order|).tx;
    DirsBegin(original, entries, deleted, order, one);
    DirPhase(original, entries, deleted, one, |entries|);
    two := MakeDirs(one, entries, |entries|).tx;
    InstallBegin(original, entries, deleted, stage, two);
    InstallPhase(original, entries, deleted, stage, two, k);
  }

  lemma InstallingAnyBudget(original: Tree, entries: seq<Entry>, deleted: seq<Path>, stage: map<Path, Node>, s: Tx, k: nat, b: int)
    requires k <= |entries| && Installing(original, entries, deleted, stage, s, k)
    ensures Installing(original, entries, deleted, stage, s.(budget := b), k)
  {
    hide CommitInv, BackupsAreDisplaced, Unchmodded, Placeable, DirEntriesMade, Placed, Noted, PlacedFor, ParentsNoted, MadeDirsRecorded, ParentsListedFirst;
    var r := s.(budget := b);
    InvAnyBudget(original, entries, s, b);
    BackupsOnly(original, entries, deleted, s, r);
    UnchmoddedOnly(original, s, r);
    PlacedAnyBudget(entries, stage, s, k, b);
    ShapeNoted(original, entries, deleted, s, r);
    ParentsAnyBudget(original, entries, deleted, s, b);
    RecordedAnyBudget(original, s, b);
  }

  lemma PlacedAnyBudget(entries: seq<Entry>, stage: map<Path, Node>, s: Tx, k: nat, b: int)
    requires k <= |entries| && Placed(entries, stage, s, k)
    ensures Placed(entries, stage, s.(budget := b), k)
  {
  }

  lemma ParentsAnyBudget(original: Tree, entries: seq<Entry>, deleted: seq<Path>, s: Tx, b: int)
    ensures forall f :: ParentsNoted(original, entries, deleted, s, f) ==> ParentsNoted(original, entries, deleted, s.(budget := b), f)
  {
    hide RecordedParent;
  }

  lemma RecordedAnyBudget(original: Tree, s: Tx, b: int)
    ensures MadeDirsRecorded(original, s) ==> MadeDirsRecorded(original, s.(budget := b))
  {
  }

  lemma InvAnyBudget(original: Tree, entries: seq<Entry>, s: Tx, b: int)
    requires CommitInv(original, entries, s)
    ensures CommitInv(original, entries, s.(budget := b))
  {
    hide Closed, BackupsApart, Covered, WantsDir, WantsLeaf, Solid;
  }

  /** A parent that guard 1 asks for is made, and never recorded. */
  lemma UnlistedParentLeaks(original: Tree, entries: seq<Entry>, deleted: seq<Path>, stage: map<Path, Node>, s: Tx, j: nat, a: Path)
    requires Installing(original, entries, deleted, stage, s, |entries|)
    requires j < |entries| && IsDirEntry(entries[j]) && a != [] && Below(entries[j].path, a)
    requires a !in original && !Displaced(original, entries, deleted, a)
    requires !exists i :: 0 <= i < j && IsDirEntry(entries[i]) && entries[i].path == a
    ensures !MadeDirsRecorded(original, s)
  {
    UnlistedNotRecordable(original, entries, deleted, j, a);
    assert entries[j] in entries;
    assert a in s.tree && s.tree[a].Dir? by {
      AncestorsAreDirs(s.tree, entries[j].path, a);
    }
    hide Recordable, ParentsListedFirst, Placeable, RecordedDir, PlacedFor, Solid, Closed, StashExact, BackupsApart;
    assert !Covered(s.backups, a);
    assert a !in s.installed;
    assert a !in s.created;
  }

  lemma UnlistedNotRecordable(original: Tree, entries: seq<Entry>, deleted: seq<Path>, j: nat, a: Path)
    requires j < |entries| && IsDirEntry(entries[j]) && Below(entries[j].path, a)
    requires !exists i :: 0 <= i < j && IsDirEntry(entries[i]) && entries[i].path == a
    ensures !Recordable(original, entries, deleted, a)
  {
    assert entries[j] in entries && AtOrBelow(entries[j].path, a);
    forall i | 0 <= i < |entries| && IsDirEntry(entries[i]) && entries[i].path == a
      ensures BelowListedEarlier(entries, i)
    {
      assert i > j;
    }
  }

  lemma UnsafeModeHarms(original: Tree, entries: seq<Entry>, deleted: seq<Path>, stage: map<Path, Node>, s: Tx, p: Path)
    requires Installing(original, entries, deleted, stage, s, |entries|)
    requires ModeReset(entries, p) && Displaced(original, entries, deleted, p)
    requires FollowsLink(original, p) || (p in original && !HasDefaultMode(original[p]))
    ensures !ModesHarmless(original, s)
  {
    hide StashExact, BackupsApart, Closed, Placeable, PlacedFor, FollowsLink, Recordable, ParentsListedFirst, HasDefaultMode, WithMode;
    if p in original {
      DefaultModeMeaning(original[p]);
    }
    var j :| 0 <= j < |entries| && IsDirEntry(entries[j]) && BelowListedEarlier(entries, j) && entries[j].path == p;
    assert !RecordedDir(original, entries, deleted, j);
    assert p in s.modes;
    assert Covered(s.backups, p);
    assert s.modes[p] == DEFAULT_DIR_MODE;
  }

  lemma UnsafeCreatedHarms(original: Tree, entries: seq<Entry>, deleted: seq<Path>, s: Tx, p: Path)
    requires BackupsAreDisplaced(original, entries, deleted, s)
    requires p in s.created && Displaced(original, entries, deleted, p)
    requires Lstat(original, p) == ThroughLink || IsLeaf(original, p)
    ensures !CreatedHarmless(original, s)
  {
    hide Lstat, IsLeaf;
  }

  /** A directory entry whose recording is unsafe. */
  ghost predicate UnsafeDir(original: Tree, entries: seq<Entry>, deleted: seq<Path>, j: nat) {
    && j < |entries| && RecordedDir(original, entries, deleted, j)
    && Displaced(original, entries, deleted, entries[j].path)
    && (Lstat(original, entries[j].path) == ThroughLink || IsLeaf(original, entries[j].path))
  }

  /** Once everything is placed, each of the three guards that is broken breaks its condition. */
  lemma UnsafeHarms(original: Tree, entries: seq<Entry>, deleted: seq<Path>, stage: map<Path, Node>, stopped: Tx)
    requires Installing(original, entries, deleted, stage, stopped, |entries|)
    requires BackupsAreDisplaced(original, entries, deleted, stopped) && Noted(original, entries, deleted, stopped)
    ensures !ParentsListedFirst(original, entries, deleted) ==> !MadeDirsRecorded(original, stopped)
    ensures !ModesSafe(original, entries, deleted) ==> !ModesHarmless(original, stopped)
    ensures (exists j: nat :: UnsafeDir(original, entries, deleted, j)) ==> !CreatedHarmless(original, stopped)
  {
    hide Installing, BackupsAreDisplaced, Noted, MadeDirsRecorded, CreatedHarmless, ModesHarmless, Displaced, RecordedDir, IsLeaf, Lstat, FollowsLink;
    if !ParentsListedFirst(original, entries, deleted) {
      var j, a :| 0 <= j < |entries| && IsDirEntry(entries[j]) && a != [] && Below(entries[j].path, a) &&
                  a !in original && !Displaced(original, entries, deleted, a) &&
                  !exists i :: 0 <= i < j && IsDirEntry(entries[i]) && entries[i].path == a;
      UnlistedParentLeaks(original, entries, deleted, stage, stopped, j, a);
    }
    if !ModesSafe(original, entries, deleted) {
      var p :| ModeReset(entries, p) && Displaced(original, entries, deleted, p) &&
               (FollowsLink(original, p) || (p in original && !HasDefaultMode(original[p])));
      UnsafeModeHarms(original, entries, deleted, stage, stopped, p);
    }
    if j: nat :| UnsafeDir(original, entries, deleted, j) {
      RecordedDirIn(original, entries, deleted, stopped, j);
      UnsafeCreatedHarms(original, entries, deleted, stopped, entries[j].path);
    }
  }

  /** A run with a bad directory entry can be stopped at its first chmod, and is then not undone. */
  lemma StoppedAtChmodNotRestored(original: Tree, stage: map<Path, Node>, order: seq<Path>, entries: seq<Entry>, deleted: seq<Path>)
    returns (b: int)
    requires Closed(original) && CleanEntries(entries) && !Blocked(original, entries, deleted)
    requires IsBackupOrder(order, entries, deleted) && Staged(entries, stage)
    requires || !ParentsListedFirst(original, entries, deleted)
             || !ModesSafe(original, entries, deleted)
             || exists j: nat :: UnsafeDir(original, entries, deleted, j)
    ensures var o := Commit(Begin(original, b), stage, order, entries, deleted);
            && o.Failed?
            && !Restores(o.tx, original)
            && (!ModesSafe(original, entries, deleted) || (exists j: nat :: UnsafeDir(original, entries, deleted, j)) ==>
                  !(CreatedHarmless(original, o.tx) && ModesHarmless(original, o.tx)))
  {
    hide Closed, CleanEntries, Blocked, Staged, Restores, Installing, Install, MakeDirs, BackupAll, MadeDirsRecorded, CreatedHarmless, ModesHarmless, Displaced;
    var two := FaultFree(original, stage, order, entries, deleted, |entries|);
    var three := Install(two, stage, entries, |entries|).tx;
    var stopped := three.(budget := 0);
    InstallingAnyBudget(original, entries, deleted, stage, three, |entries|, 0);
    InstalledReady(original, entries, deleted, stage, stopped);
    assert exists j :: 0 <= j < |entries| && IsDirEntry(entries[j]);
    b := StopAtChmod(original, stage, order, entries, deleted);
    UnsafeHarms(original, entries, deleted, stage, stopped);
    RollbackExact(original, entries, stopped);
  }

  lemma RecordedDirIn(original: Tree, entries: seq<Entry>, deleted: seq<Path>, s: Tx, j: nat)
    requires Noted(original, entries, deleted, s) && j < |entries| && RecordedDir(original, entries, deleted, j)
    ensures entries[j].path in s.created
  {
  }

  /** A run whose file entry records a bad parent can be stopped at that entry, and is then not undone. */
  lemma StoppedAtInstallNotRestored(original: Tree, stage: map<Path, Node>, order: seq<Path>, entries: seq<Entry>, deleted: seq<Path>, p: Path)
    returns (b: int)
    requires Closed(original) && CleanEntries(entries) && !Blocked(original, entries, deleted)
    requires IsBackupOrder(order, entries, deleted) && Staged(entries, stage)
    requires RecordedParent(original, entries, deleted, p) && Displaced(original, entries, deleted, p)
    requires Lstat(original, p) == ThroughLink || IsLeaf(original, p)
    ensures Commit(Begin(original, b), stage, order, entries, deleted).Failed?
    ensures !Restores(Commit(Begin(original, b), stage, order, entries, deleted).tx, original)
    ensures !CreatedHarmless(original, Commit(Begin(original, b), stage, order, entries, deleted).tx)
  {
    hide Closed, CleanEntries, Blocked, Restores, Installing, Install, MakeDirs, BackupAll, MadeDirsRecorded, CreatedHarmless, ModesHarmless, InstallEntry, Commit, IsBackupOrder;
    var e :| e in entries && e.kind != KindDir && Below(e.path, p);
    var k :| 0 <= k < |entries| && entries[k] == e;
    var two := FaultFree(original, stage, order, entries, deleted, k);
    var three := Install(two, stage, entries, k).tx;
    InstallingAnyBudget(original, entries, deleted, stage, three, k, 0);
    InstallStep(original, entries, deleted, stage, three.(budget := 0), k);
    var stopped := InstallEntry(three.(budget := 0), stage, e.path).tx;
    b := StopAtInstall(original, stage, order, entries, deleted, k, two);
    hide Staged;
    ParentRecorded(original, entries, deleted, stopped, e.path, p);
    UnsafeCreatedHarms(original, entries, deleted, stopped, p);
    RollbackExact(original, entries, stopped);
  }

  lemma ParentRecorded(original: Tree, entries: seq<Entry>, deleted: seq<Path>, s: Tx, f: Path, p: Path)
    requires InstallStopped(original, entries, deleted, f, s)
    requires RecordedParent(original, entries, deleted, p) && Below(f, p)
    ensures p in s.created && CommitInv(original, entries, s) && BackupsAreDisplaced(original, entries, deleted, s)
  {
    hide CommitInv, BackupsAreDisplaced, RecordedParent;
  }

  /** A run with an unsafe record can be stopped so that rollback harms an original node. */
  lemma UnsafeStops(original: Tree, stage: map<Path, Node>, order: seq<Path>, entries: seq<Entry>, deleted: seq<Path>)
    returns (b: int)
    requires Closed(original) && CleanEntries(entries) && !Blocked(original, entries, deleted)
    requires IsBackupOrder(order, entries, deleted) && Staged(entries, stage)
    requires !CreatedSafe(original, entries, deleted) || !ModesSafe(original, entries, deleted)
    ensures var o := Commit(Begin(original, b), stage, order, entries, deleted);
            o.Failed? && !Restores(o.tx, original) && !(CreatedHarmless(original, o.tx) && ModesHarmless(original, o.tx))
  {
    hide Closed, CleanEntries, IsBackupOrder, Staged, Restores, Commit, RecordedDir, RecordedParent, Blocked, ParentsListedFirst, ModesSafe, Displaced, IsLeaf, Lstat, CreatedHarmless, ModesHarmless;
    if !ModesSafe(original, entries, deleted) {
      b := StoppedAtChmodNotRestored(original, stage, order, entries, deleted);
    } else {
      var p :| Recordable(original, entries, deleted, p) && Displaced(original, entries, deleted, p) &&
               (Lstat(original, p) == ThroughLink || IsLeaf(original, p));
      if RecordedParent(original, entries, deleted, p) {
        b := StoppedAtInstallNotRestored(original, stage, order, entries, deleted, p);
      } else {
        var j :| 0 <= j < |entries| && RecordedDir(original, entries, deleted, j) && entries[j].path == p;
        assert UnsafeDir(original, entries, deleted, j);
        b := StoppedAtChmodNotRestored(original, stage, order, entries, deleted);
      }
    }
  }

  lemma GuardNecessary(original: Tree, stage: map<Path, Node>, order: seq<Path>, entries: seq<Entry>, deleted: seq<Path>)
    requires Closed(original) && CleanEntries(entries)
    requires IsBackupOrder(order, entries, deleted) && Staged(entries, stage)
    requires !RollbackGuard(original, entries, deleted)
    ensures !AlwaysRestored(original, stage, order, entries, deleted)
  {
    hide Closed, CleanEntries, IsBackupOrder, Staged, Restores, Commit, Blocked, ParentsListedFirst, CreatedSafe, ModesSafe;
    var b: int;
    if !ParentsListedFirst(original, entries, deleted) {
      b := StoppedAtChmodNotRestored(original, stage, order, entries, deleted);
    } else {
      b := UnsafeStops(original, stage, order, entries, deleted);
    }
  }

  /**
   For every tree, every clean change set, every staging and every backup order: whichever
   filesystem call of commit fails first, rollback gives back exactly the original tree and
   touches nothing outside it, if and only if the guard holds.
   */
  lemma RollbackIffGuard(original: Tree, stage: map<Path, Node>, order: seq<Path>, entries: seq<Entry>, deleted: seq<Path>)
    requires Closed(original) && CleanEntries(entries)
    requires IsBackupOrder(order, entries, deleted) && Staged(entries, stage)
    ensures AlwaysRestored(original, stage, order, entries, deleted) <==> RollbackGuard(original, entries, deleted)
  {
    hide AlwaysRestored, RollbackGuard, CleanEntries, IsBackupOrder, Staged, Closed;
    if RollbackGuard(original, entries, deleted) {
      GuardSufficient(original, stage, order, entries, deleted);
    } else {
      GuardNecessary(original, stage, order, entries, deleted);
    }
  }
}
