/** The directory phase: which directories it makes, and what it records about them. */
module ApplyDirs {
  import opened FileTree
  import opened Entries
  import opened ApplySpec
  import opened ApplyRollback
  import opened ApplyBackup

  // ---- os.MkdirAll ----

  /** `r` is `s` with some of the directories at or above `p` added. */
  ghost predicate Grown(s: Tx, p: Path, r: Tx) {
    && Closed(r.tree)
    && r == s.(tree := r.tree, budget := r.budget)
    && (s.budget < 0 ==> r.budget < 0)
    && (forall q :: q in s.tree ==> q in r.tree && r.tree[q] == s.tree[q])
    && (forall q :: q in r.tree && q !in s.tree ==> AtOrBelow(p, q) && r.tree[q] == Dir(DEFAULT_DIR_MODE))
  }

  lemma AddDirClosed(t: Tree, p: Path, mode: nat)
    requires Closed(t) && p != [] && p !in t && Parent(p) in t && t[Parent(p)].Dir?
    ensures Closed(t[p := Dir(mode)])
  {
  }

  lemma GrownOneMore(s: Tx, p: Path, m: Tx)
    requires p != [] && Grown(s, Parent(p), m) && m.budget != 0
    requires p !in m.tree && Parent(p) in m.tree && m.tree[Parent(p)].Dir?
    ensures Grown(s, p, Spend(m).(tree := m.tree[p := Dir(DEFAULT_DIR_MODE)]))
  {
    AddDirClosed(m.tree, p, DEFAULT_DIR_MODE);
    GrownWider(s, p, m);
    hide Closed;
    assert AtOrBelow(p, p);
    hide AtOrBelow;
  }

  lemma GrownWider(s: Tx, p: Path, m: Tx)
    requires p != [] && Grown(s, Parent(p), m)
    ensures Grown(s, p, m)
  {
    hide Closed;
    forall q | q in m.tree && q !in s.tree
      ensures AtOrBelow(p, q)
    {
      assert AtOrBelow(p, Parent(p));
      AtOrBelowTransitive(p, Parent(p), q);
    }
  }

  lemma SolidUp(t: Tree, p: Path)
    requires p != [] && Solid(t, p)
    ensures Solid(t, Parent(p))
  {
    forall a | AtOrBelow(Parent(p), a)
      ensures AtOrBelow(p, a)
    {
      assert AtOrBelow(p, Parent(p));
      AtOrBelowTransitive(p, Parent(p), a);
    }
  }

  lemma SolidLookup(t: Tree, p: Path)
    requires Closed(t) && Solid(t, p)
    ensures p in t ==> Lstat(t, p) == Found(t[p]) && t[p].Dir?
    ensures p !in t ==> p != [] && Lstat(t, p) == NotExist
  {
    LstatMeaning(t, p);
    assert AtOrBelow(p, p);
    hide Lstat;
  }

  lemma {:induction false} MkdirAllEffect(s: Tx, p: Path)
    requires Closed(s.tree) && Solid(s.tree, p)
    ensures Grown(s, p, MkdirAll(s, p).tx)
    ensures MkdirAll(s, p).Done? ==> p in MkdirAll(s, p).tx.tree && MkdirAll(s, p).tx.tree[p].Dir?
    ensures MkdirAll(s, p).Failed? ==> s.budget >= 0
    decreases |p|
  {
    SolidLookup(s.tree, p);
    hide Closed, Solid, Lstat, AtOrBelow;
    if p !in s.tree {
      SolidUp(s.tree, p);
      MkdirAllEffect(s, Parent(p));
      var o := MkdirAll(s, Parent(p));
      GrownWider(s, p, o.tx);
      if o.Done? && o.tx.budget != 0 {
        NotGrownAbove(s, p, o.tx);
        GrownOneMore(s, p, o.tx);
      }
    }
  }

  lemma NotGrownAbove(s: Tx, p: Path, m: Tx)
    requires p != [] && Grown(s, Parent(p), m) && p !in s.tree
    ensures p !in m.tree
  {
    hide Closed;
  }

  /** Adding directories keeps the invariant. */
  lemma GrowKeepsInv(original: Tree, entries: seq<Entry>, s: Tx, p: Path, r: Tx)
    requires CommitInv(original, entries, s) && Grown(s, p, r)
    ensures CommitInv(original, entries, r)
  {
    hide Closed, BackupsApart, Covered, WantsDir, WantsLeaf, AtOrBelow;
  }

  // ---- What the phase records ----

  ghost predicate Missing(original: Tree, entries: seq<Entry>, deleted: seq<Path>, p: Path) {
    p !in original || Displaced(original, entries, deleted, p)
  }

  /** Some earlier directory entry lies below entry `j`. */
  ghost predicate BelowListedEarlier(entries: seq<Entry>, j: nat)
    requires j < |entries|
  {
    exists i :: 0 <= i < j && IsDirEntry(entries[i]) && Below(entries[i].path, entries[j].path)
  }

  /** Entry `j` is a directory that commit will record as created. */
  ghost predicate RecordedDir(original: Tree, entries: seq<Entry>, deleted: seq<Path>, j: nat)
    requires j < |entries|
  {
    && IsDirEntry(entries[j])
    && Missing(original, entries, deleted, entries[j].path)
    && !BelowListedEarlier(entries, j)
  }

  /** A missing parent of a file or link entry that no directory entry brings about. */
  ghost predicate RecordedParent(original: Tree, entries: seq<Entry>, deleted: seq<Path>, p: Path) {
    && p != []
    && Missing(original, entries, deleted, p)
    && (exists e :: e in entries && e.kind != KindDir && Below(e.path, p))
    && (forall e :: e in entries && IsDirEntry(e) ==> !AtOrBelow(e.path, p))
  }

  /** The paths that a run of commit can list as created. */
  ghost predicate Recordable(original: Tree, entries: seq<Entry>, deleted: seq<Path>, p: Path) {
    || (exists j :: 0 <= j < |entries| && RecordedDir(original, entries, deleted, j) && entries[j].path == p)
    || RecordedParent(original, entries, deleted, p)
  }

  /** A directory entry that exists by its turn because an earlier entry lies below it. */
  ghost predicate ModeReset(entries: seq<Entry>, p: Path) {
    exists j :: 0 <= j < |entries| && IsDirEntry(entries[j]) && BelowListedEarlier(entries, j) && entries[j].path == p
  }

  /** Guard 1: each missing parent of a directory entry is itself an earlier directory entry. */
  ghost predicate ParentsListedFirst(original: Tree, entries: seq<Entry>, deleted: seq<Path>) {
    forall j, a :: 0 <= j < |entries| && IsDirEntry(entries[j]) && a != [] && Below(entries[j].path, a) &&
                   a !in original && !Displaced(original, entries, deleted, a) ==>
      exists i :: 0 <= i < j && IsDirEntry(entries[i]) && entries[i].path == a
  }

  // ---- The invariant of the phase ----

  ghost predicate BackupsAreDisplaced(original: Tree, entries: seq<Entry>, deleted: seq<Path>, s: Tx) {
    forall p :: Covered(s.backups, p) <==> Displaced(original, entries, deleted, p)
  }

  /** What every stopped or finished run has recorded. */
  ghost predicate RecordsRight(original: Tree, entries: seq<Entry>, deleted: seq<Path>, s: Tx) {
    && BackupsAreDisplaced(original, entries, deleted, s)
    && (forall p :: p in s.created ==> Recordable(original, entries, deleted, p))
    && (forall p :: p in s.modes && Covered(s.backups, p) ==> ModeReset(entries, p))
    && (ParentsListedFirst(original, entries, deleted) ==> MadeDirsRecorded(original, s))
  }

  /** No mode has been changed yet. */
  ghost predicate Unchmodded(original: Tree, s: Tx) {
    && (forall p :: p in original && !Covered(s.backups, p) ==> p in s.tree && s.tree[p] == original[p])
    && (forall p :: p in s.tree && Extra(original, s, p) && p !in s.installed ==> s.tree[p] == Dir(DEFAULT_DIR_MODE))
  }

  /** Nothing stands in the way of the entries. */
  ghost predicate Placeable(entries: seq<Entry>, t: Tree) {
    && (forall e :: e in entries && e.path != [] ==> Solid(t, Parent(e.path)))
    && (forall e :: e in entries && e.kind == KindDir ==> Solid(t, e.path))
  }

  ghost predicate MadeFor(entries: seq<Entry>, k: nat, p: Path)
    requires k <= |entries|
  {
    exists j :: 0 <= j < k && IsDirEntry(entries[j]) && AtOrBelow(entries[j].path, p)
  }

  ghost predicate CreatedBy(original: Tree, entries: seq<Entry>, deleted: seq<Path>, k: nat, p: Path)
    requires k <= |entries|
  {
    exists j :: 0 <= j < k && RecordedDir(original, entries, deleted, j) && entries[j].path == p
  }

  ghost predicate ModeNotedBy(original: Tree, entries: seq<Entry>, deleted: seq<Path>, k: nat, p: Path)
    requires k <= |entries|
  {
    exists j :: 0 <= j < k && IsDirEntry(entries[j]) && !RecordedDir(original, entries, deleted, j) && entries[j].path == p
  }

  lemma NotedByMore(original: Tree, entries: seq<Entry>, deleted: seq<Path>, k: nat, p: Path)
    requires k < |entries|
    ensures CreatedBy(original, entries, deleted, k, p) ==> CreatedBy(original, entries, deleted, k + 1, p)
    ensures ModeNotedBy(original, entries, deleted, k, p) ==> ModeNotedBy(original, entries, deleted, k + 1, p)
    ensures RecordedDir(original, entries, deleted, k) ==> CreatedBy(original, entries, deleted, k + 1, entries[k].path)
    ensures IsDirEntry(entries[k]) && !RecordedDir(original, entries, deleted, k) ==>
              ModeNotedBy(original, entries, deleted, k + 1, entries[k].path)
  {
    hide RecordedDir, IsDirEntry;
  }

  /** The records after the first `k` entries, exactly. */
  ghost predicate DirRecords(original: Tree, entries: seq<Entry>, deleted: seq<Path>, s: Tx, k: nat)
    requires k <= |entries|
  {
    && (forall j :: 0 <= j < k && IsDirEntry(entries[j]) ==>
          if RecordedDir(original, entries, deleted, j) then entries[j].path in s.created else entries[j].path in s.modes)
    && (forall p :: p in s.created ==> CreatedBy(original, entries, deleted, k, p))
    && (forall p :: p in s.modes ==> ModeNotedBy(original, entries, deleted, k, p))
  }

  ghost predicate DirsMade(original: Tree, entries: seq<Entry>, deleted: seq<Path>, s: Tx, k: nat)
    requires k <= |entries|
  {
    && CommitInv(original, entries, s)
    && BackupsAreDisplaced(original, entries, deleted, s)
    && s.installed == []
    && Unchmodded(original, s)
    && Placeable(entries, s.tree)
    && (forall e :: e in entries && e.kind != KindDir ==> e.path !in s.tree)
    && (forall p :: p in s.tree && Extra(original, s, p) ==> MadeFor(entries, k, p))
    && (forall j :: 0 <= j < k && IsDirEntry(entries[j]) ==> entries[j].path in s.tree)
    && DirRecords(original, entries, deleted, s, k)
    && (ParentsListedFirst(original, entries, deleted) ==> MadeDirsRecorded(original, s))
  }

  // ---- The phase starts well ----

  lemma BackedUpPlaceable(original: Tree, entries: seq<Entry>, deleted: seq<Path>, order: seq<Path>, s: Tx)
    requires IsBackupOrder(order, entries, deleted) && CleanEntries(entries)
    requires BackedUp(original, entries, deleted, order, |order|, s)
    ensures Placeable(entries, s.tree)
    ensures forall e :: e in entries && e.kind != KindDir ==> e.path !in s.tree
  {
    BackedUpIsDisplaced(original, entries, deleted, order, s);
    forall e | e in entries && e.path != []
      ensures Solid(s.tree, Parent(e.path))
      ensures e.path in s.tree ==> e.path !in deleted && e.path in DirPaths(entries) && s.tree[e.path].Dir?
      ensures e.kind == KindDir ==> Solid(s.tree, e.path)
    {
      EntryPlaceable(original, entries, deleted, s, e);
    }
    forall e | e in entries && e.kind != KindDir
      ensures e.path !in s.tree
    {
      NotDirPath(entries, e);
    }
    forall a | AtOrBelow([], a)
      ensures a == []
    {
    }
  }

  lemma EntryPlaceable(original: Tree, entries: seq<Entry>, deleted: seq<Path>, s: Tx, e: Entry)
    requires Closed(original) && OnlyBackups(original, s) && !Blocked(original, entries, deleted)
    requires forall p :: Covered(s.backups, p) <==> Displaced(original, entries, deleted, p)
    requires e in entries && e.path != []
    ensures Solid(s.tree, Parent(e.path))
    ensures e.path in s.tree ==> e.path !in deleted && e.path in DirPaths(entries) && s.tree[e.path].Dir?
    ensures e.kind == KindDir ==> Solid(s.tree, e.path)
  {
    var n := e.path;
    assert IsTarget(entries, deleted, n);
    assert !BlockedAt(original, entries, deleted, n);
    forall a | a in s.tree && AtOrBelow(Parent(n), a)
      ensures s.tree[a].Dir?
    {
      assert AtOrBelow(n, Parent(n));
      AtOrBelowTransitive(n, Parent(n), a);
      assert Below(n, a);
    }
    assert AtOrBelow(n, n);
    forall a | AtOrBelow(n, a) && a != n
      ensures AtOrBelow(Parent(n), a)
    {
      ParentIsAbove(n, a);
    }
  }

  lemma DirsBegin(original: Tree, entries: seq<Entry>, deleted: seq<Path>, order: seq<Path>, s: Tx)
    requires IsBackupOrder(order, entries, deleted) && CleanEntries(entries)
    requires BackedUp(original, entries, deleted, order, |order|, s)
    ensures DirsMade(original, entries, deleted, s, 0)
  {
    BackedUpPlaceable(original, entries, deleted, order, s);
    BackedUpIsDisplaced(original, entries, deleted, order, s);
    hide Closed, Covered, Displaced, Placeable, BackupsApart, StashExact;
  }

  // ---- One directory entry ----

  /** By the turn of entry `k` its directory is missing exactly when it will be recorded as created. */
  lemma MissingMeansRecorded(original: Tree, entries: seq<Entry>, deleted: seq<Path>, s: Tx, k: nat)
    requires k < |entries| && IsDirEntry(entries[k]) && CleanEntries(entries)
    requires DirsMade(original, entries, deleted, s, k)
    ensures entries[k].path !in s.tree <==> RecordedDir(original, entries, deleted, k)
    ensures entries[k].path !in s.tree ==> Extra(original, s, entries[k].path)
  {
    hide DirRecords, Placeable, MadeDirsRecorded, ParentsListedFirst, StashExact, CreatedExact, ExtrasKnown, InstalledExact, ModesExact;
    var p := entries[k].path;
    if BelowListedEarlier(entries, k) {
      var i :| 0 <= i < k && IsDirEntry(entries[i]) && Below(entries[i].path, p);
      AncestorsAreDirs(s.tree, entries[i].path, p);
    } else if p in s.tree && Missing(original, entries, deleted, p) {
      NotMadeEarlier(entries, k);
      assert false;
    }
  }

  lemma NotMadeEarlier(entries: seq<Entry>, k: nat)
    requires k < |entries| && UniquePaths(entries) && !BelowListedEarlier(entries, k)
    ensures !MadeFor(entries, k, entries[k].path)
  {
  }

  lemma DirEntryWanted(entries: seq<Entry>, k: nat)
    requires k < |entries| && IsDirEntry(entries[k])
    ensures WantsDir(entries, entries[k].path)
  {
    assert entries[k] in entries;
  }

  /** Recording a missing directory keeps the invariant. */
  lemma NoteCreatedKeepsInv(original: Tree, entries: seq<Entry>, s: Tx, p: Path)
    requires CommitInv(original, entries, s)
    requires p != [] && Extra(original, s, p) && WantsDir(entries, p) && Solid(s.tree, p)
    ensures CommitInv(original, entries, s.(created := s.created + [p]))
  {
    hide Closed, BackupsApart, Covered, WantsDir, WantsLeaf, Solid;
  }

  /** Recording the mode of an existing directory keeps the invariant. */
  lemma NoteModeKeepsInv(original: Tree, entries: seq<Entry>, s: Tx, p: Path)
    requires CommitInv(original, entries, s) && Unchmodded(original, s) && s.installed == []
    requires p in s.tree && s.tree[p].Dir?
    ensures CommitInv(original, entries, s.(modes := s.modes[p := s.tree[p].mode]))
  {
    hide Closed, BackupsApart, Covered, WantsDir, WantsLeaf, Solid;
  }

  lemma GrowKeepsUnchmodded(original: Tree, s: Tx, p: Path, r: Tx)
    requires Unchmodded(original, s) && Grown(s, p, r)
    ensures Unchmodded(original, r)
  {
    hide Covered, Closed, AtOrBelow;
  }

  lemma GrowKeepsPlaceable(entries: seq<Entry>, s: Tx, p: Path, r: Tx)
    requires Placeable(entries, s.tree) && Grown(s, p, r)
    ensures Placeable(entries, r.tree)
  {
    hide Closed, AtOrBelow;
  }

  lemma GrowKeepsFree(entries: seq<Entry>, s: Tx, k: nat, r: Tx)
    requires k < |entries| && IsDirEntry(entries[k]) && CleanEntries(entries)
    requires forall e :: e in entries && e.kind != KindDir ==> e.path !in s.tree
    requires Grown(s, entries[k].path, r)
    ensures forall e :: e in entries && e.kind != KindDir ==> e.path !in r.tree
  {
    hide Closed;
    assert entries[k] in entries;
    forall e | e in entries && e.kind != KindDir
      ensures !AtOrBelow(entries[k].path, e.path)
    {
      if AtOrBelow(entries[k].path, e.path) {
        if e.path == entries[k].path {
          SameEntryAtPath(entries, e, entries[k]);
        }
        assert false;
      }
    }
  }

  lemma GrowKeepsMadeFor(original: Tree, entries: seq<Entry>, s: Tx, k: nat, r: Tx)
    requires k < |entries| && IsDirEntry(entries[k])
    requires forall p :: p in s.tree && Extra(original, s, p) ==> MadeFor(entries, k, p)
    requires Grown(s, entries[k].path, r)
    ensures forall p :: p in r.tree && Extra(original, r, p) ==> MadeFor(entries, k + 1, p)
  {
    hide Closed, Covered;
    forall p | p in r.tree && Extra(original, r, p)
      ensures MadeFor(entries, k + 1, p)
    {
      if p in s.tree {
        MadeForMore(entries, k, p);
      }
    }
  }

  lemma MadeForMore(entries: seq<Entry>, k: nat, p: Path)
    requires k < |entries| && MadeFor(entries, k, p)
    ensures MadeFor(entries, k + 1, p)
  {
    var j :| 0 <= j < k && IsDirEntry(entries[j]) && AtOrBelow(entries[j].path, p);
    assert 0 <= j < k + 1;
  }

  /** With parents listed first, a missing uncovered parent of entry `k` was made for an earlier entry. */
  lemma ParentAlreadyMade(original: Tree, entries: seq<Entry>, deleted: seq<Path>, s: Tx, k: nat, p: Path)
    requires k < |entries| && IsDirEntry(entries[k]) && ParentsListedFirst(original, entries, deleted)
    requires BackupsAreDisplaced(original, entries, deleted, s)
    requires forall j :: 0 <= j < k && IsDirEntry(entries[j]) ==> entries[j].path in s.tree
    requires p != [] && Below(entries[k].path, p) && p !in original && !Covered(s.backups, p)
    ensures p in s.tree
  {
    assert !Displaced(original, entries, deleted, p);
    var i :| 0 <= i < k && IsDirEntry(entries[i]) && entries[i].path == p;
  }

  /** With parents listed first, the directories made for entry `k` are the recorded one and covered ones. */
  lemma GrowRecorded(original: Tree, entries: seq<Entry>, deleted: seq<Path>, s: Tx, k: nat, r: Tx)
    requires k < |entries| && IsDirEntry(entries[k])
    requires [] in s.tree && BackupsAreDisplaced(original, entries, deleted, s)
    requires forall j :: 0 <= j < k && IsDirEntry(entries[j]) ==> entries[j].path in s.tree
    requires ParentsListedFirst(original, entries, deleted) && MadeDirsRecorded(original, s)
    requires Grown(s, entries[k].path, r.(created := s.created, modes := s.modes))
    requires forall p :: p in s.created ==> p in r.created
    requires entries[k].path !in s.tree ==> entries[k].path in r.created
    ensures MadeDirsRecorded(original, r)
  {
    var n := entries[k].path;
    hide Closed, ParentsListedFirst;
    forall p | p in r.tree && p !in original && !Covered(r.backups, p) && p !in r.installed
      ensures p in r.created
    {
      if p !in s.tree && p != n {
        ParentAlreadyMade(original, entries, deleted, s, k, p);
      }
    }
  }

  lemma NotedRecords(original: Tree, entries: seq<Entry>, deleted: seq<Path>, s: Tx, k: nat, r: Tx)
    requires k < |entries| && IsDirEntry(entries[k])
    requires DirRecords(original, entries, deleted, s, k)
    requires if RecordedDir(original, entries, deleted, k)
             then r.created == s.created + [entries[k].path] && r.modes == s.modes
             else r.created == s.created && r.modes.Keys == s.modes.Keys + {entries[k].path}
    ensures DirRecords(original, entries, deleted, r, k + 1)
  {
    hide RecordedDir, IsDirEntry, CreatedBy, ModeNotedBy;
    forall p
      ensures CreatedBy(original, entries, deleted, k, p) ==> CreatedBy(original, entries, deleted, k + 1, p)
      ensures ModeNotedBy(original, entries, deleted, k, p) ==> ModeNotedBy(original, entries, deleted, k + 1, p)
    {
      NotedByMore(original, entries, deleted, k, p);
    }
    NotedByMore(original, entries, deleted, k, entries[k].path);
  }

  lemma RecordsFromDirs(original: Tree, entries: seq<Entry>, deleted: seq<Path>, s: Tx, k: nat)
    requires k <= |entries|
    requires BackupsAreDisplaced(original, entries, deleted, s)
    requires DirRecords(original, entries, deleted, s, k)
    requires ParentsListedFirst(original, entries, deleted) ==> MadeDirsRecorded(original, s)
    ensures RecordsRight(original, entries, deleted, s)
  {
    hide Covered, Displaced, ParentsListedFirst, MadeDirsRecorded, BelowListedEarlier;
    forall p | p in s.modes && Covered(s.backups, p)
      ensures ModeReset(entries, p)
    {
      var j :| 0 <= j < k && IsDirEntry(entries[j]) && !RecordedDir(original, entries, deleted, j) && entries[j].path == p;
      assert Displaced(original, entries, deleted, p);
      assert BelowListedEarlier(entries, j);
    }
  }

  lemma InvClosed(original: Tree, entries: seq<Entry>, s: Tx)
    requires CommitInv(original, entries, s)
    ensures Closed(original) && Closed(s.tree)
  {
  }

  /** The state once entry `k` is noted but its directory is not made. */
  lemma NoteStep(original: Tree, entries: seq<Entry>, deleted: seq<Path>, s: Tx, k: nat) returns (m: Tx)
    requires k < |entries| && IsDirEntry(entries[k]) && CleanEntries(entries)
    requires DirsMade(original, entries, deleted, s, k)
    ensures NoteDir(s, entries[k].path) == Done(m)
    ensures m == s.(created := m.created, modes := m.modes)
    ensures CommitInv(original, entries, m)
    ensures DirRecords(original, entries, deleted, m, k + 1)
    ensures forall p :: p in s.created ==> p in m.created
    ensures entries[k].path !in s.tree ==> entries[k].path in m.created
    ensures Solid(m.tree, entries[k].path)
  {
    hide CommitInv, DirRecords, Unchmodded, Lstat, RecordedDir, Extra, Solid, MadeFor, Covered, MadeDirsRecorded, ParentsListedFirst;
    var p := entries[k].path;
    assert entries[k] in entries;
    InvClosed(original, entries, s);
    SolidLookup(s.tree, p);
    hide Closed;
    MissingMeansRecorded(original, entries, deleted, s, k);
    DirEntryWanted(entries, k);
    m := NoteDir(s, p).tx;
    if p !in s.tree {
      NoteCreatedKeepsInv(original, entries, s, p);
    } else {
      NoteModeKeepsInv(original, entries, s, p);
    }
    NotedRecords(original, entries, deleted, s, k, m);
  }

  /** The notes taken before a directory is made do not matter for how the tree grows. */
  lemma GrownPlain(s: Tx, p: Path, m: Tx, r: Tx)
    requires m == s.(created := m.created, modes := m.modes) && Grown(m, p, r)
    ensures Grown(s, p, r.(created := s.created, modes := s.modes))
    ensures r == m.(tree := r.tree, budget := r.budget) && (s.budget < 0 ==> r.budget < 0)
    ensures forall q :: q in s.tree ==> q in r.tree
  {
    hide Closed, AtOrBelow;
  }

  lemma DirStep(original: Tree, entries: seq<Entry>, deleted: seq<Path>, s: Tx, k: nat)
    requires k < |entries| && IsDirEntry(entries[k]) && CleanEntries(entries)
    requires DirsMade(original, entries, deleted, s, k)
    ensures MakeDir(s, entries[k].path).Done? ==>
              DirsMade(original, entries, deleted, MakeDir(s, entries[k].path).tx, k + 1)
    ensures MakeDir(s, entries[k].path).Failed? ==>
              && CommitInv(original, entries, MakeDir(s, entries[k].path).tx)
              && RecordsRight(original, entries, deleted, MakeDir(s, entries[k].path).tx)
              && s.budget >= 0
    ensures s.budget < 0 ==> MakeDir(s, entries[k].path).tx.budget < 0
  {
    hide CommitInv, DirRecords, Unchmodded, RecordedDir, Solid, MadeFor, Covered, MadeDirsRecorded, ParentsListedFirst, Placeable, MkdirAll, NoteDir, CleanEntries, RecordsRight, AtOrBelow, Grown;
    var p := entries[k].path;
    var m := NoteStep(original, entries, deleted, s, k);
    InvClosed(original, entries, s);
    MkdirAllEffect(m, p);
    var r := MkdirAll(m, p).tx;
    var plain := r.(created := s.created, modes := s.modes);
    GrowKeepsInv(original, entries, m, p, r);
    GrownPlain(s, p, m, r);
    hide Closed;
    if ParentsListedFirst(original, entries, deleted) {
      GrowRecorded(original, entries, deleted, s, k, r);
    }
    GrowKeepsUnchmodded(original, s, p, plain);
    GrowKeepsPlaceable(entries, s, p, plain);
    GrowKeepsFree(entries, s, k, plain);
    GrowKeepsMadeFor(original, entries, s, k, plain);
    UnchmoddedOnly(original, plain, r);
    BackupsOnly(original, entries, deleted, s, r);
    DirRecordsOnly(original, entries, deleted, m, r, k + 1);
    RecordsFromDirs(original, entries, deleted, r, k + 1);
    hide BackupsAreDisplaced;
  }

  lemma UnchmoddedOnly(original: Tree, s: Tx, r: Tx)
    requires Unchmodded(original, s) && r.tree == s.tree && r.backups == s.backups && r.installed == s.installed
    ensures Unchmodded(original, r)
  {
    hide Covered;
  }

  lemma BackupsOnly(original: Tree, entries: seq<Entry>, deleted: seq<Path>, s: Tx, r: Tx)
    requires BackupsAreDisplaced(original, entries, deleted, s) && r.backups == s.backups
    ensures BackupsAreDisplaced(original, entries, deleted, r)
  {
    hide Covered, Displaced;
  }

  lemma DirRecordsOnly(original: Tree, entries: seq<Entry>, deleted: seq<Path>, s: Tx, r: Tx, k: nat)
    requires k <= |entries|
    requires DirRecords(original, entries, deleted, s, k) && r.created == s.created && r.modes == s.modes
    ensures DirRecords(original, entries, deleted, r, k)
  {
    hide RecordedDir;
  }

  lemma DirRecordsSkip(original: Tree, entries: seq<Entry>, deleted: seq<Path>, s: Tx, k: nat)
    requires k < |entries| && !IsDirEntry(entries[k])
    requires DirRecords(original, entries, deleted, s, k)
    ensures DirRecords(original, entries, deleted, s, k + 1)
  {
    assert !RecordedDir(original, entries, deleted, k);
    hide RecordedDir, IsDirEntry, CreatedBy, ModeNotedBy;
    forall p
      ensures CreatedBy(original, entries, deleted, k, p) ==> CreatedBy(original, entries, deleted, k + 1, p)
      ensures ModeNotedBy(original, entries, deleted, k, p) ==> ModeNotedBy(original, entries, deleted, k + 1, p)
    {
      NotedByMore(original, entries, deleted, k, p);
    }
  }

  lemma DirSkip(original: Tree, entries: seq<Entry>, deleted: seq<Path>, s: Tx, k: nat)
    requires k < |entries| && !IsDirEntry(entries[k])
    requires DirsMade(original, entries, deleted, s, k)
    ensures DirsMade(original, entries, deleted, s, k + 1)
  {
    hide CommitInv, DirRecords, Unchmodded, BackupsAreDisplaced, MadeFor, Extra, MadeDirsRecorded, ParentsListedFirst, Placeable, IsDirEntry;
    DirRecordsSkip(original, entries, deleted, s, k);
    forall p | p in s.tree && Extra(original, s, p)
      ensures MadeFor(entries, k + 1, p)
    {
      MadeForMore(entries, k, p);
    }
  }

  /** The directory phase keeps its invariant, and stops only when a call fails. */
  lemma {:induction false} DirPhase(original: Tree, entries: seq<Entry>, deleted: seq<Path>, s: Tx, k: nat)
    requires k <= |entries| && CleanEntries(entries)
    requires DirsMade(original, entries, deleted, s, 0)
    ensures MakeDirs(s, entries, k).Done? ==> DirsMade(original, entries, deleted, MakeDirs(s, entries, k).tx, k)
    ensures MakeDirs(s, entries, k).Failed? ==>
              && CommitInv(original, entries, MakeDirs(s, entries, k).tx)
              && RecordsRight(original, entries, deleted, MakeDirs(s, entries, k).tx)
              && s.budget >= 0
    ensures s.budget < 0 ==> MakeDirs(s, entries, k).tx.budget < 0
  {
    hide DirsMade, CommitInv, RecordsRight, CleanEntries, MakeDir;
    if k > 0 {
      DirPhase(original, entries, deleted, s, k - 1);
      var o := MakeDirs(s, entries, k - 1);
      if o.Done? {
        if IsDirEntry(entries[k - 1]) {
          DirStep(original, entries, deleted, o.tx, k - 1);
        } else {
          DirSkip(original, entries, deleted, o.tx, k - 1);
        }
      }
    }
  }
}
