/**
 The main theorem of a sync: if the disk shows the old manifest, applying the difference to the
 new manifest makes it show the new one, and a failed apply is undone unless the difference
 turns a file or link into a directory.
 */
module SyncTheorem {
  import opened FileTree
  import opened Entries
  import opened PathOrder
  import opened Manifest
  import opened ApplySpec
  import opened ApplyRollback
  import opened ApplyBackup
  import opened ApplyDirs
  import opened ApplyGuard
  import opened ApplyResult

  /**
   The node on disk shows the entry: kind, content, mode and link target. A mode of zero asks for 0o644
   on a file and 0o755 on a directory; the root has no tracked mode.
   */
  ghost predicate Shows(digest: Digest, node: Node, e: Entry) {
    match e.kind
    case KindFile => node.File? && digest(node.content) == e.hash && node.mode == (if e.mode != 0 then e.mode else 0x1A4)
    case KindDir => node.Dir? && (e.path != [] ==> node.mode == (if e.mode != 0 then e.mode else 0x1ED))
    case KindSymlink => node == Symlink(e.link)
    case KindOther(_) => false
  }

  /** The tracked view of the disk is the manifest. */
  ghost predicate ShowsAll(digest: Digest, t: Tree, entries: seq<Entry>) {
    forall e :: e in entries ==> e.path in t && Shows(digest, t[e.path], e)
  }

  /** A manifest as a scan produces it: each path once, below tracked directories only. */
  ghost predicate WellFormed(entries: seq<Entry>) {
    && UniquePaths(entries)
    && (forall e :: e in entries ==> !e.kind.KindOther? && (e.path == [] ==> e.kind == KindDir))
    && (forall e, a :: e in entries && a != [] && Below(e.path, a) ==>
          exists d :: d in entries && d.path == a && d.kind == KindDir)
  }

  /** The staging area holds what the blob store has for each file entry, and each link. */
  ghost predicate StagedFrom(digest: Digest, store: map<string, Bytes>, entries: seq<Entry>, stage: map<Path, Node>) {
    && (forall h :: h in store ==> digest(store[h]) == h)
    && (forall e :: e in entries && e.kind == KindFile ==>
          e.path in stage && e.hash in store && stage[e.path] == File(store[e.hash], if e.mode != 0 then e.mode else 0x1A4))
    && (forall e :: e in entries && e.kind == KindSymlink ==> e.path in stage && stage[e.path] == Symlink(e.link))
  }

  /** Everything the theorems assume about one sync. */
  ghost predicate Sync(digest: Digest, original: Tree, before: seq<Entry>, after: seq<Entry>, changed: seq<Entry>, deleted: seq<Path>) {
    && Closed(original)
    && WellFormed(before) && WellFormed(after)
    && ShowsAll(digest, original, before)
    && IsDiff(before, after, false, changed, deleted)
  }

  // ---- The difference, entry by entry ----

  lemma ChangedIsAfter(before: seq<Entry>, after: seq<Entry>, changed: seq<Entry>, deleted: seq<Path>, e: Entry)
    requires WellFormed(before) && WellFormed(after) && IsDiff(before, after, false, changed, deleted)
    ensures e in changed ==> e in after
    ensures e in after && e !in changed ==>
              exists b :: b in before && b.path == e.path && SameEntry(b, e, false)
  {
    ByPathMeaning(before);
    ByPathMeaning(after);
    hide UniquePaths, SameEntry, ByPath, SortedByPath, DeepestFirst, Distinct, Below;
    if e in after && e !in changed {
      UnchangedHasOld(ByPath(before), ByPath(after), e);
    }
  }

  lemma UnchangedHasOld(before: EntryMap, after: EntryMap, e: Entry)
    requires e.path in after && after[e.path] == e && !IsChanged(before, after, false, e.path)
    ensures e.path in before && SameEntry(before[e.path], e, false)
  {
  }

  lemma DeletedIsGone(before: seq<Entry>, after: seq<Entry>, changed: seq<Entry>, deleted: seq<Path>, p: Path)
    requires IsDiff(before, after, false, changed, deleted)
    ensures p in deleted <==> p in PathsOf(before) && p !in PathsOf(after)
  {
    ByPathMeaning(before);
    ByPathMeaning(after);
  }

  lemma DiffIsClean(before: seq<Entry>, after: seq<Entry>, changed: seq<Entry>, deleted: seq<Path>)
    requires WellFormed(before) && WellFormed(after) && IsDiff(before, after, false, changed, deleted)
    ensures CleanEntries(changed)
  {
    forall e | e in changed
      ensures e in after
    {
      ChangedIsAfter(before, after, changed, deleted, e);
    }
    hide IsDiff, ByPath;
    assert UniquePaths(changed) by {
      DiffIsUnique(before, after, changed, deleted);
    }
    forall e, f | e in changed && f in changed && Below(f.path, e.path) && e.path != []
      ensures e.kind == KindDir
    {
      var d :| d in after && d.path == e.path && d.kind == KindDir;
      SameEntryAtPath(after, d, e);
    }
  }

  lemma DiffIsUnique(before: seq<Entry>, after: seq<Entry>, changed: seq<Entry>, deleted: seq<Path>)
    requires IsDiff(before, after, false, changed, deleted)
    ensures UniquePaths(changed)
  {
  }

  /** Above an entry of the new manifest only tracked directories of the new manifest stand. */
  lemma ParentTracked(after: seq<Entry>, e: Entry, a: Path) returns (d: Entry)
    requires WellFormed(after) && e in after && a != [] && Below(e.path, a)
    ensures d in after && d.path == a && d.kind == KindDir
  {
    d :| d in after && d.path == a && d.kind == KindDir;
  }

  /** An entry that did not change, and everything above it, stays where it is. */
  lemma UnchangedNotDisplaced(digest: Digest, original: Tree, before: seq<Entry>, after: seq<Entry>, changed: seq<Entry>, deleted: seq<Path>, e: Entry)
    requires Sync(digest, original, before, after, changed, deleted)
    requires e in after && e !in changed
    ensures e.path in original && Shows(digest, original[e.path], e)
    ensures !Displaced(original, changed, deleted, e.path)
  {
    ChangedIsAfter(before, after, changed, deleted, e);
    var b :| b in before && b.path == e.path && SameEntry(b, e, false);
    assert Shows(digest, original[e.path], b);
    forall n | Replaced(original, changed, deleted, n)
      ensures !AtOrBelow(e.path, n)
    {
      if AtOrBelow(e.path, n) {
        ReplacedAbove(digest, original, before, after, changed, deleted, e, n);
      }
    }
  }

  lemma ReplacedAbove(digest: Digest, original: Tree, before: seq<Entry>, after: seq<Entry>, changed: seq<Entry>, deleted: seq<Path>, e: Entry, n: Path)
    requires Sync(digest, original, before, after, changed, deleted)
    requires e in after && e.path in original && AtOrBelow(e.path, n) && Replaced(original, changed, deleted, n)
    ensures n == e.path && e in changed
  {
    var d := e;
    if n != e.path {
      d := ParentTracked(after, e, n);
      AncestorsAreDirs(original, e.path, n);
    }
    DeletedIsGone(before, after, changed, deleted, n);
    assert n in PathsOf(after);
    hide IsDiff, ShowsAll;
    var c :| c in changed && c.path == n;
    ChangedIsAfter(before, after, changed, deleted, c);
    SameEntryAtPath(after, c, d);
  }

  // ---- A successful apply ----

  /** An unchanged entry shows after the apply what it showed before. */
  lemma UnchangedStillShown(digest: Digest, original: Tree, before: seq<Entry>, after: seq<Entry>, changed: seq<Entry>, deleted: seq<Path>, stage: map<Path, Node>, t: Tree, e: Entry)
    requires Sync(digest, original, before, after, changed, deleted)
    requires Applied(original, stage, changed, deleted, t)
    requires e in after && e !in changed
    ensures e.path in t && Shows(digest, t[e.path], e)
  {
    UnchangedNotDisplaced(digest, original, before, after, changed, deleted, e);
    forall c | c in changed
      ensures c.path != e.path
    {
      ChangedIsAfter(before, after, changed, deleted, c);
      if c.path == e.path {
        SameEntryAtPath(after, c, e);
      }
    }
    hide Sync, Shows, Displaced;
    assert AppliedPath(original, changed, deleted, e.path);
    assert AppliedNode(original, stage, changed, deleted, e.path, t[e.path]);
  }

  /** A changed entry shows what the new manifest says. */
  lemma ChangedNowShown(digest: Digest, original: Tree, store: map<string, Bytes>, changed: seq<Entry>, deleted: seq<Path>, stage: map<Path, Node>, t: Tree, e: Entry)
    requires CleanEntries(changed) && StagedFrom(digest, store, changed, stage)
    requires Closed(t) && Applied(original, stage, changed, deleted, t)
    requires e in changed
    ensures e.path in t && Shows(digest, t[e.path], e)
  {
    if e.path != [] {
      hide Displaced;
      if e.kind == KindDir {
        assert DirEntryAt(changed, e.path);
        assert AppliedPath(original, changed, deleted, e.path);
        assert AppliedNode(original, stage, changed, deleted, e.path, t[e.path]);
        var d :| d in changed && IsDirEntry(d) && d.path == e.path && t[e.path] == Dir(if d.mode != 0 then d.mode else 0x1ED);
        SameEntryAtPath(changed, d, e);
      } else {
        assert WantsLeaf(changed, e.path);
        forall d | d in changed && d.path == e.path
          ensures d == e
        {
          SameEntryAtPath(changed, d, e);
        }
        assert AppliedPath(original, changed, deleted, e.path);
        assert AppliedNode(original, stage, changed, deleted, e.path, t[e.path]);
      }
    }
  }

  /** What a change set asks of a path: the stored bytes, the recorded mode or 0o644 and 0o755, the link target. */
  ghost predicate Asked(store: map<string, Bytes>, e: Entry, node: Node) {
    match e.kind
    case KindFile => e.hash in store && node == File(store[e.hash], if e.mode != 0 then e.mode else 0x1A4)
    case KindDir => node.Dir? && (e.path != [] ==> node.mode == if e.mode != 0 then e.mode else 0x1ED)
    case KindSymlink => node == Symlink(e.link)
    case KindOther(_) => false
  }

  ghost predicate EntriesInstalled(store: map<string, Bytes>, entries: seq<Entry>, t: Tree) {
    forall e :: e in entries ==> e.path in t && Asked(store, e, t[e.path])
  }

  lemma InstalledAt(digest: Digest, original: Tree, store: map<string, Bytes>, changed: seq<Entry>, deleted: seq<Path>, stage: map<Path, Node>, t: Tree, e: Entry)
    requires CleanEntries(changed) && StagedFrom(digest, store, changed, stage)
    requires Closed(t) && Applied(original, stage, changed, deleted, t) && e in changed
    ensures e.path in t && Asked(store, e, t[e.path])
  {
    ChangedNowShown(digest, original, store, changed, deleted, stage, t, e);
    if e.kind != KindDir {
      assert WantsLeaf(changed, e.path);
      assert !DirEntryAt(changed, e.path) by {
        forall d | d in changed && d.path == e.path
          ensures d == e
        {
          SameEntryAtPath(changed, d, e);
        }
      }
      assert AppliedNode(original, stage, changed, deleted, e.path, t[e.path]);
    }
  }

  lemma AllInstalled(digest: Digest, original: Tree, store: map<string, Bytes>, changed: seq<Entry>, deleted: seq<Path>, stage: map<Path, Node>, t: Tree)
    requires CleanEntries(changed) && StagedFrom(digest, store, changed, stage)
    requires Closed(t) && Applied(original, stage, changed, deleted, t)
    ensures EntriesInstalled(store, changed, t)
  {
    hide CleanEntries, StagedFrom, Closed, Applied, Asked;
    forall e | e in changed
      ensures e.path in t && Asked(store, e, t[e.path])
    {
      InstalledAt(digest, original, store, changed, deleted, stage, t, e);
    }
  }

  /** A path that the new manifest no longer has is gone. */
  lemma DeletedNotThere(digest: Digest, original: Tree, before: seq<Entry>, after: seq<Entry>, changed: seq<Entry>, deleted: seq<Path>, stage: map<Path, Node>, t: Tree, p: Path)
    requires Sync(digest, original, before, after, changed, deleted)
    requires Applied(original, stage, changed, deleted, t)
    requires p in deleted && p != []
    ensures p !in t
  {
    DeletedIsGone(before, after, changed, deleted, p);
    var b :| b in before && b.path == p;
    assert p in original;
    assert Replaced(original, changed, deleted, p);
    assert AtOrBelow(p, p);
    assert Displaced(original, changed, deleted, p);
    forall e | e in changed
      ensures !AtOrBelow(e.path, p)
    {
      ChangedIsAfter(before, after, changed, deleted, e);
      if AtOrBelow(e.path, p) && e.path != p {
        var d := ParentTracked(after, e, p);
      }
    }
    hide Sync, Displaced;
    assert !AppliedPath(original, changed, deleted, p);
  }

  /** What is not tracked and not displaced stays as it was; nothing untracked appears. */
  lemma RestUntouched(digest: Digest, original: Tree, before: seq<Entry>, after: seq<Entry>, changed: seq<Entry>, deleted: seq<Path>, stage: map<Path, Node>, t: Tree, p: Path)
    requires Sync(digest, original, before, after, changed, deleted)
    requires Applied(original, stage, changed, deleted, t)
    requires p !in PathsOf(after)
    ensures p in t <==> p in original && !Displaced(original, changed, deleted, p)
    ensures p in t ==> t[p] == original[p]
  {
    forall e | e in changed
      ensures e.path != p && (p != [] ==> !Below(e.path, p))
    {
      ChangedIsAfter(before, after, changed, deleted, e);
      if p != [] && Below(e.path, p) {
        var d := ParentTracked(after, e, p);
      }
    }
    if p == [] {
      RootStays(original, changed, deleted);
    }
    hide Sync, Displaced;
    assert p in t ==> AppliedNode(original, stage, changed, deleted, p, t[p]);
  }

  /**
   On the tree that an apply of the difference leaves, the disk shows the new manifest, the paths
   that vanished from it are gone, and every other path outside deleted or replaced subtrees is
   exactly as before.
   */
  lemma AppliedShowsAfter(digest: Digest, store: map<string, Bytes>, original: Tree, before: seq<Entry>, after: seq<Entry>, changed: seq<Entry>, deleted: seq<Path>, stage: map<Path, Node>, t: Tree)
    requires Sync(digest, original, before, after, changed, deleted)
    requires StagedFrom(digest, store, changed, stage)
    requires Closed(t) && Applied(original, stage, changed, deleted, t)
    ensures ShowsAll(digest, t, after)
    ensures forall p :: p in deleted && p != [] ==> p !in t
    ensures forall p :: p !in PathsOf(after) ==>
              (p in t <==> p in original && !Displaced(original, changed, deleted, p)) && (p in t ==> t[p] == original[p])
  {
    DiffIsClean(before, after, changed, deleted);
    hide Sync, Applied, CleanEntries, StagedFrom, Closed, Shows, Displaced;
    forall e | e in after
      ensures e.path in t && Shows(digest, t[e.path], e)
    {
      if e in changed {
        ChangedNowShown(digest, original, store, changed, deleted, stage, t, e);
      } else {
        UnchangedStillShown(digest, original, before, after, changed, deleted, stage, t, e);
      }
    }
    forall p | p in deleted && p != []
      ensures p !in t
    {
      DeletedNotThere(digest, original, before, after, changed, deleted, stage, t, p);
    }
    forall p | p !in PathsOf(after)
      ensures p in t <==> p in original && !Displaced(original, changed, deleted, p)
      ensures p in t ==> t[p] == original[p]
    {
      RestUntouched(digest, original, before, after, changed, deleted, stage, t, p);
    }
  }

  /** Every successful apply of the difference, whatever the backup order and the call budget, leaves such a tree. */
  lemma SyncShowsAfter(digest: Digest, store: map<string, Bytes>, original: Tree, before: seq<Entry>, after: seq<Entry>, changed: seq<Entry>, deleted: seq<Path>, stage: map<Path, Node>, order: seq<Path>, b: int)
    requires Sync(digest, original, before, after, changed, deleted)
    requires IsBackupOrder(order, changed, deleted) && Staged(changed, stage)
    requires StagedFrom(digest, store, changed, stage)
    requires Commit(Begin(original, b), stage, order, changed, deleted).Done?
    ensures var t := Commit(Begin(original, b), stage, order, changed, deleted).tx.tree;
            && ShowsAll(digest, t, after)
            && (forall p :: p in deleted && p != [] ==> p !in t)
            && (forall p :: p !in PathsOf(after) ==>
                  (p in t <==> p in original && !Displaced(original, changed, deleted, p)) && (p in t ==> t[p] == original[p]))
  {
    var t := Commit(Begin(original, b), stage, order, changed, deleted).tx.tree;
    DiffIsClean(before, after, changed, deleted);
    CommitResult(original, stage, order, changed, deleted, b);
    CommitStops(original, stage, order, changed, deleted, b);
    InvClosed(original, changed, Commit(Begin(original, b), stage, order, changed, deleted).tx);
    hide Sync, Applied, CommitInv, Commit, CleanEntries, IsBackupOrder, Staged, StagedFrom, Closed, Shows, Displaced;
    AppliedShowsAfter(digest, store, original, before, after, changed, deleted, stage, t);
  }

  // ---- A difference is never refused ----

  lemma SyncNotBlocked(digest: Digest, original: Tree, before: seq<Entry>, after: seq<Entry>, changed: seq<Entry>, deleted: seq<Path>)
    requires Sync(digest, original, before, after, changed, deleted)
    ensures !Blocked(original, changed, deleted)
  {
    forall n, a | IsTarget(changed, deleted, n) && a in original && Below(n, a) && !original[a].Dir?
      ensures Displaced(original, changed, deleted, a)
    {
      TargetParent(digest, original, before, after, changed, deleted, n, a);
    }
  }

  lemma TargetParent(digest: Digest, original: Tree, before: seq<Entry>, after: seq<Entry>, changed: seq<Entry>, deleted: seq<Path>, n: Path, a: Path)
    requires Sync(digest, original, before, after, changed, deleted)
    requires IsTarget(changed, deleted, n) && a in original && Below(n, a) && !original[a].Dir?
    ensures Displaced(original, changed, deleted, a)
  {
    DeletedIsGone(before, after, changed, deleted, n);
    if n in deleted {
      var b :| b in before && b.path == n;
      AncestorsAreDirs(original, n, a);
      assert false;
    } else {
      var c :| c in changed && c.path == n;
      ChangedIsAfter(before, after, changed, deleted, c);
      assert a != [];
      var d := ParentTracked(after, c, a);
      if d !in changed {
        UnchangedNotDisplaced(digest, original, before, after, changed, deleted, d);
        assert false;
      }
      assert a in PathsOf(changed);
      assert AtOrBelow(a, a);
      assert Replaced(original, changed, deleted, a);
    }
  }

  // ---- The guard of a difference ----

  /** The new manifest turns a file or link on disk into a directory. */
  ghost predicate LeafBecomesDir(original: Tree, changed: seq<Entry>) {
    exists e :: e in changed && IsDirEntry(e) && e.path in original && !original[e.path].Dir?
  }

  lemma SortedNeverBelowEarlier(changed: seq<Entry>, j: nat)
    requires j < |changed| && SortedByPath(changed) && IsDirEntry(changed[j])
    ensures !BelowListedEarlier(changed, j)
  {
    if BelowListedEarlier(changed, j) {
      var i :| 0 <= i < j && IsDirEntry(changed[i]) && Below(changed[i].path, changed[j].path);
      NeverSortsBefore(changed[i].path, changed[j].path);
    }
  }

  lemma SyncModesSafe(original: Tree, changed: seq<Entry>, deleted: seq<Path>)
    requires SortedByPath(changed)
    ensures ModesSafe(original, changed, deleted)
  {
    forall p
      ensures !ModeReset(changed, p)
    {
      if ModeReset(changed, p) {
        var j :| 0 <= j < |changed| && IsDirEntry(changed[j]) && BelowListedEarlier(changed, j) && changed[j].path == p;
        SortedNeverBelowEarlier(changed, j);
      }
    }
  }

  lemma SyncParentsListed(digest: Digest, original: Tree, before: seq<Entry>, after: seq<Entry>, changed: seq<Entry>, deleted: seq<Path>)
    requires Sync(digest, original, before, after, changed, deleted) && SortedByPath(changed)
    ensures ParentsListedFirst(original, changed, deleted)
  {
    forall j, a | 0 <= j < |changed| && IsDirEntry(changed[j]) && a != [] && Below(changed[j].path, a) &&
                  a !in original && !Displaced(original, changed, deleted, a)
      ensures exists i :: 0 <= i < j && IsDirEntry(changed[i]) && changed[i].path == a
    {
      var e := changed[j];
      ChangedIsAfter(before, after, changed, deleted, e);
      var d := ParentTracked(after, e, a);
      if d !in changed {
        UnchangedNotDisplaced(digest, original, before, after, changed, deleted, d);
      }
      var i :| 0 <= i < |changed| && changed[i] == d;
      NeverSortsBefore(e.path, a);
      assert i < j;
    }
  }

  /** Only a directory entry over a leaf makes a recorded directory dangerous. */
  lemma SyncCreatedSafe(digest: Digest, original: Tree, before: seq<Entry>, after: seq<Entry>, changed: seq<Entry>, deleted: seq<Path>, p: Path)
    requires Sync(digest, original, before, after, changed, deleted)
    requires Recordable(original, changed, deleted, p) && Displaced(original, changed, deleted, p)
    ensures LeafBecomesDir(original, changed)
  {
    var n :| Replaced(original, changed, deleted, n) && AtOrBelow(p, n);
    var e: Entry;
    if RecordedParent(original, changed, deleted, p) {
      e :| e in changed && e.kind != KindDir && Below(e.path, p);
      AtOrBelowTransitive(e.path, p, n);
    } else {
      var j :| 0 <= j < |changed| && RecordedDir(original, changed, deleted, j) && changed[j].path == p;
      e := changed[j];
    }
    ChangedIsAfter(before, after, changed, deleted, e);
    var d := e;
    if n != e.path {
      assert Below(e.path, n);
      d := ParentTracked(after, e, n);
    }
    assert d.kind == KindDir;
    DeletedIsGone(before, after, changed, deleted, n);
    assert n in PathsOf(after);
    var c :| c in changed && c.path == n;
    ChangedIsAfter(before, after, changed, deleted, c);
    SameEntryAtPath(after, c, d);
    assert c == d && IsDirEntry(c);
  }

  lemma LeafLossRecorded(digest: Digest, original: Tree, before: seq<Entry>, after: seq<Entry>, changed: seq<Entry>, deleted: seq<Path>)
    requires Sync(digest, original, before, after, changed, deleted) && SortedByPath(changed)
    requires LeafBecomesDir(original, changed)
    ensures !CreatedSafe(original, changed, deleted)
  {
    var e :| e in changed && IsDirEntry(e) && e.path in original && !original[e.path].Dir?;
    var j :| 0 <= j < |changed| && changed[j] == e;
    SortedNeverBelowEarlier(changed, j);
    assert e.path in PathsOf(changed);
    assert Replaced(original, changed, deleted, e.path);
    assert AtOrBelow(e.path, e.path);
    assert Displaced(original, changed, deleted, e.path);
    forall q | q in original
      ensures !Below(q, e.path)
    {
      if Below(q, e.path) {
        AncestorsAreDirs(original, q, e.path);
      }
    }
    assert IsLeaf(original, e.path);
    assert RecordedDir(original, changed, deleted, j);
    assert Recordable(original, changed, deleted, e.path);
  }

  lemma SyncGuard(digest: Digest, original: Tree, before: seq<Entry>, after: seq<Entry>, changed: seq<Entry>, deleted: seq<Path>)
    requires Sync(digest, original, before, after, changed, deleted)
    ensures RollbackGuard(original, changed, deleted) <==> !LeafBecomesDir(original, changed)
  {
    assert SortedByPath(changed);
    SyncNotBlocked(digest, original, before, after, changed, deleted);
    SyncModesSafe(original, changed, deleted);
    SyncParentsListed(digest, original, before, after, changed, deleted);
    hide Sync, SortedByPath, Blocked, ModesSafe, ParentsListedFirst, LeafBecomesDir, Recordable, Displaced, Lstat, IsLeaf;
    if LeafBecomesDir(original, changed) {
      LeafLossRecorded(digest, original, before, after, changed, deleted);
    } else {
      if p :| Recordable(original, changed, deleted, p) && Displaced(original, changed, deleted, p) {
        SyncCreatedSafe(digest, original, before, after, changed, deleted, p);
      }
    }
  }

  /**
   The promise of ApplyChanges for a manifest difference: without faults it succeeds; and every
   failure of a filesystem call is undone if and only if no file or link becomes a directory.
   */
  lemma SyncPromise(digest: Digest, original: Tree, before: seq<Entry>, after: seq<Entry>, changed: seq<Entry>, deleted: seq<Path>, stage: map<Path, Node>, order: seq<Path>)
    requires Sync(digest, original, before, after, changed, deleted)
    requires IsBackupOrder(order, changed, deleted) && Staged(changed, stage)
    ensures Commit(Begin(original, -1), stage, order, changed, deleted).Done?
    ensures AlwaysRestored(original, stage, order, changed, deleted) <==> !LeafBecomesDir(original, changed)
  {
    DiffIsClean(before, after, changed, deleted);
    SyncNotBlocked(digest, original, before, after, changed, deleted);
    assert Closed(original);
    hide Closed, CleanEntries, Blocked, IsBackupOrder, Staged, Commit, AlwaysRestored, RollbackGuard, LeafBecomesDir;
    FaultFreeCommit(original, stage, order, changed, deleted);
    RollbackIffGuard(original, stage, order, changed, deleted);
    SyncGuard(digest, original, before, after, changed, deleted);
  }
}
