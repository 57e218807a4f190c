/** What a commit that succeeds leaves on disk, as one closed form over the original tree. */
module ApplyResult {
  import opened FileTree
  import opened Entries
  import opened ApplySpec
  import opened ApplyRollback
  import opened ApplyBackup
  import opened ApplyDirs
  import opened ApplyInstall
  import opened ApplyGuard

  ghost predicate DirEntryAt(entries: seq<Entry>, p: Path) {
    exists e :: e in entries && IsDirEntry(e) && e.path == p
  }

  /** The node that a successful apply leaves at `p`, if any: entries win, the rest stays unless displaced. */
  ghost predicate AppliedNode(original: Tree, stage: map<Path, Node>, entries: seq<Entry>, deleted: seq<Path>, p: Path, node: Node) {
    if DirEntryAt(entries, p) then
      exists e :: e in entries && IsDirEntry(e) && e.path == p && node == Dir(if e.mode != 0 then e.mode else 0x1ED) // 0o755
    else if WantsLeaf(entries, p) then p in stage && node == stage[p]
    else if p in original && !Displaced(original, entries, deleted, p) then node == original[p]
    else node == Dir(0x1ED)
  }

  ghost predicate AppliedPath(original: Tree, entries: seq<Entry>, deleted: seq<Path>, p: Path) {
    || DirEntryAt(entries, p)
    || WantsLeaf(entries, p)
    || (p in original && !Displaced(original, entries, deleted, p))
    || (p != [] && exists e :: e in entries && Below(e.path, p))
  }

  /** The whole tree after a successful apply: the paths it has and the node at each. */
  ghost predicate Applied(original: Tree, stage: map<Path, Node>, entries: seq<Entry>, deleted: seq<Path>, t: Tree) {
    forall p :: (p in t <==> AppliedPath(original, entries, deleted, p)) &&
                (p in t ==> AppliedNode(original, stage, entries, deleted, p, t[p]))
  }

  /** The description determines the tree. */
  lemma AppliedUnique(original: Tree, stage: map<Path, Node>, entries: seq<Entry>, deleted: seq<Path>, t: Tree, u: Tree)
    requires UniquePaths(entries)
    requires Applied(original, stage, entries, deleted, t) && Applied(original, stage, entries, deleted, u)
    ensures t == u
  {
    forall p | p in t
      ensures p in u && t[p] == u[p]
    {
      assert AppliedNode(original, stage, entries, deleted, p, t[p]);
      assert AppliedNode(original, stage, entries, deleted, p, u[p]);
    }
    hide AppliedNode, AppliedPath;
  }

  // ---- Which paths are there ----

  lemma InstalledPath(original: Tree, stage: map<Path, Node>, entries: seq<Entry>, deleted: seq<Path>, s: Tx, p: Path)
    requires Installing(original, entries, deleted, stage, s, |entries|)
    requires p in s.tree
    ensures AppliedPath(original, entries, deleted, p)
  {
    hide Noted, Unchmodded, ParentsNoted, ParentsListedFirst, MadeDirsRecorded, Placeable, StashExact, ModesExact, CreatedExact, Displaced, Recordable;
    if Extra(original, s, p) {
      if j :| 0 <= j < |entries| && IsDirEntry(entries[j]) && AtOrBelow(entries[j].path, p) {
        assert entries[j] in entries;
        assert p == [] || AppliedPath(original, entries, deleted, p);
      } else {
        var j :| 0 <= j < |entries| && entries[j].kind != KindDir && AtOrBelow(entries[j].path, p);
        assert entries[j] in entries;
        assert p == [] || AppliedPath(original, entries, deleted, p);
      }
    }
    if p == [] {
      assert [] in original;
      RootStays(original, entries, deleted);
    }
  }

  lemma RootStays(original: Tree, entries: seq<Entry>, deleted: seq<Path>)
    ensures !Displaced(original, entries, deleted, [])
  {
  }

  lemma AppliedPathThere(original: Tree, stage: map<Path, Node>, entries: seq<Entry>, deleted: seq<Path>, s: Tx, p: Path)
    requires Installing(original, entries, deleted, stage, s, |entries|)
    requires AppliedPath(original, entries, deleted, p)
    ensures p in s.tree
  {
    hide Noted, ParentsNoted, ParentsListedFirst, MadeDirsRecorded, Placeable, StashExact, ModesExact, CreatedExact, Displaced, Recordable, PlacedFor;
    if WantsLeaf(entries, p) {
      var e :| e in entries && e.path == p && e.kind != KindDir;
      var j :| 0 <= j < |entries| && entries[j] == e;
    } else if p != [] && exists e :: e in entries && Below(e.path, p) {
      var e :| e in entries && Below(e.path, p);
      EntryInTree(original, stage, entries, deleted, s, e);
      AncestorsAreDirs(s.tree, e.path, p);
    }
  }

  lemma EntryInTree(original: Tree, stage: map<Path, Node>, entries: seq<Entry>, deleted: seq<Path>, s: Tx, e: Entry)
    requires Installing(original, entries, deleted, stage, s, |entries|)
    requires e in entries && e.path != []
    ensures e.path in s.tree
    ensures e.kind != KindDir ==> e.path in stage && s.tree[e.path] == stage[e.path]
  {
    hide CommitInv, Noted, ParentsNoted, ParentsListedFirst, MadeDirsRecorded, Placeable, PlacedFor, BackupsAreDisplaced, Unchmodded;
    var j :| 0 <= j < |entries| && entries[j] == e;
  }

  // ---- Which node is at each path ----

  lemma FinalNode(original: Tree, stage: map<Path, Node>, entries: seq<Entry>, deleted: seq<Path>, s: Tx, r: Tx, p: Path)
    requires CleanEntries(entries)
    requires Installing(original, entries, deleted, stage, s, |entries|) && Chmodded(s, entries, |entries|, r)
    requires p in r.tree
    ensures AppliedNode(original, stage, entries, deleted, p, r.tree[p])
  {
    hide Noted, ParentsNoted, ParentsListedFirst, MadeDirsRecorded, Placeable, PlacedFor;
    hide StashExact, ModesExact, CreatedExact, KeptInPlace, Displaced, Closed, BackupsApart;
    if DirEntryAt(entries, p) {
      var e :| e in entries && IsDirEntry(e) && e.path == p;
      var j :| 0 <= j < |entries| && entries[j] == e;
    } else {
      forall j | 0 <= j < |entries| && IsDirEntry(entries[j])
        ensures entries[j].path != p
      {
        assert entries[j] in entries;
      }
      assert r.tree[p] == s.tree[p];
      if WantsLeaf(entries, p) {
        var e :| e in entries && e.path == p && e.kind != KindDir;
        EntryInTree(original, stage, entries, deleted, s, e);
      } else {
        assert p !in s.installed;
      }
    }
  }

  /** The state before and the state after the chmod phase of a commit that succeeds. */
  lemma CommitPhases(original: Tree, stage: map<Path, Node>, order: seq<Path>, entries: seq<Entry>, deleted: seq<Path>, b: int)
    returns (three: Tx, four: Tx)
    requires Closed(original) && CleanEntries(entries)
    requires IsBackupOrder(order, entries, deleted) && Staged(entries, stage)
    requires Commit(Begin(original, b), stage, order, entries, deleted).Done?
    ensures four == Commit(Begin(original, b), stage, order, entries, deleted).tx
    ensures Installing(original, entries, deleted, stage, three, |entries|)
    ensures Chmodded(three, entries, |entries|, four)
  {
    hide CommitInv, BackedUp, DirsMade, Installing, CleanEntries, MakeDirs, Install, BackupAll, ChmodDirs, Closed, Staged, Chmodded, Blocked, RecordsRight, OnlyBackups, Noted, DirEntriesMade, BackupsAreDisplaced, ParentsListedFirst, MadeDirsRecorded, UniquePaths;
    var s := Begin(original, b);
    BeginBackedUp(original, entries, deleted, order, b);
    BackupPhase(original, entries, deleted, order, |order|, s);
    assert forall n :: n in order ==> n != [];
    var one := BackupAll(s, order, entries, deleted, |order|).tx;
    DirsBegin(original, entries, deleted, order, one);
    DirPhase(original, entries, deleted, one, |entries|);
    var two := MakeDirs(one, entries, |entries|).tx;
    hide IsBackupOrder;
    InstallBegin(original, entries, deleted, stage, two);
    InstallPhase(original, entries, deleted, stage, two, |entries|);
    three := Install(two, stage, entries, |entries|).tx;
    InstalledReady(original, entries, deleted, stage, three);
    ChmodPhase(original, entries, deleted, three, |entries|);
    four := ChmodDirs(three, entries, |entries|).tx;
  }

  /** A commit that succeeds leaves exactly the applied tree. */
  lemma CommitResult(original: Tree, stage: map<Path, Node>, order: seq<Path>, entries: seq<Entry>, deleted: seq<Path>, b: int)
    requires Closed(original) && CleanEntries(entries)
    requires IsBackupOrder(order, entries, deleted) && Staged(entries, stage)
    requires Commit(Begin(original, b), stage, order, entries, deleted).Done?
    ensures Applied(original, stage, entries, deleted, Commit(Begin(original, b), stage, order, entries, deleted).tx.tree)
  {
    hide Commit, IsBackupOrder, Staged, Closed, CleanEntries, Installing, Chmodded, AppliedNode, AppliedPath;
    var three, four := CommitPhases(original, stage, order, entries, deleted, b);
    ChmoddedKeys(three, entries, four);
    forall p
      ensures p in four.tree <==> AppliedPath(original, entries, deleted, p)
      ensures p in four.tree ==> AppliedNode(original, stage, entries, deleted, p, four.tree[p])
    {
      if p in three.tree {
        InstalledPath(original, stage, entries, deleted, three, p);
        FinalNode(original, stage, entries, deleted, three, four, p);
      } else if AppliedPath(original, entries, deleted, p) {
        AppliedPathThere(original, stage, entries, deleted, three, p);
      }
    }
  }

  lemma ChmoddedKeys(s: Tx, entries: seq<Entry>, r: Tx)
    requires Chmodded(s, entries, |entries|, r)
    ensures r.tree.Keys == s.tree.Keys
  {
  }

  /** Without faults a commit succeeds exactly when no target lies below a file or link that stays. */
  lemma FaultFreeCommit(original: Tree, stage: map<Path, Node>, order: seq<Path>, entries: seq<Entry>, deleted: seq<Path>)
    requires Closed(original) && CleanEntries(entries)
    requires IsBackupOrder(order, entries, deleted) && Staged(entries, stage)
    ensures Commit(Begin(original, -1), stage, order, entries, deleted).Done? <==> !Blocked(original, entries, deleted)
  {
    CommitStops(original, stage, order, entries, deleted, -1);
    hide Closed, CleanEntries, Blocked, Staged, BackedUp;
    var s := Begin(original, -1);
    BeginBackedUp(original, entries, deleted, order, -1);
    BackupPhase(original, entries, deleted, order, |order|, s);
    if BackupAll(s, order, entries, deleted, |order|).Done? {
      BackedUpIsDisplaced(original, entries, deleted, order, BackupAll(s, order, entries, deleted, |order|).tx);
    }
  }
}
