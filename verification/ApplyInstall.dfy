/** The last two phases: staged files and links move into place, then directories get their modes. */
module ApplyInstall {
  import opened FileTree
  import opened Entries
  import opened ApplySpec
  import opened ApplyRollback
  import opened ApplyBackup
  import opened ApplyDirs

  /** Made for a directory entry, or for one of the first `k` other entries. */
  ghost predicate PlacedFor(entries: seq<Entry>, k: nat, p: Path)
    requires k <= |entries|
  {
    || MadeFor(entries, |entries|, p)
    || exists j :: 0 <= j < k && entries[j].kind != KindDir && AtOrBelow(entries[j].path, p)
  }

  /** The records once all directories are made. */
  ghost predicate Noted(original: Tree, entries: seq<Entry>, deleted: seq<Path>, s: Tx) {
    && (forall j :: 0 <= j < |entries| && IsDirEntry(entries[j]) ==>
          if RecordedDir(original, entries, deleted, j) then entries[j].path in s.created else entries[j].path in s.modes)
    && (forall p :: p in s.created ==> Recordable(original, entries, deleted, p))
    && (forall p :: p in s.modes ==> ModeNotedBy(original, entries, deleted, |entries|, p))
  }

  /** Every parent that the entry at `f` makes commit record is recorded. */
  ghost predicate ParentsNoted(original: Tree, entries: seq<Entry>, deleted: seq<Path>, s: Tx, f: Path) {
    forall a :: Below(f, a) && RecordedParent(original, entries, deleted, a) ==> a in s.created
  }

  ghost predicate DirEntriesMade(entries: seq<Entry>, t: Tree) {
    forall e :: e in entries && IsDirEntry(e) ==> e.path in t && t[e.path].Dir?
  }

  /** The first `k` staged entries are in place and the others are still free. */
  ghost predicate Placed(entries: seq<Entry>, stage: map<Path, Node>, s: Tx, k: nat)
    requires k <= |entries|
  {
    && (forall j :: 0 <= j < k && entries[j].kind != KindDir ==>
          entries[j].path in s.installed && entries[j].path in s.tree && entries[j].path in stage &&
          s.tree[entries[j].path] == stage[entries[j].path])
    && (forall j :: k <= j < |entries| && entries[j].kind != KindDir ==> entries[j].path !in s.tree)
  }

  ghost predicate Installing(original: Tree, entries: seq<Entry>, deleted: seq<Path>, stage: map<Path, Node>, s: Tx, k: nat)
    requires k <= |entries|
  {
    && CommitInv(original, entries, s)
    && BackupsAreDisplaced(original, entries, deleted, s)
    && Unchmodded(original, s)
    && Placeable(entries, s.tree)
    && DirEntriesMade(entries, s.tree)
    && Placed(entries, stage, s, k)
    && Noted(original, entries, deleted, s)
    && (forall p :: p in s.tree && Extra(original, s, p) ==> PlacedFor(entries, k, p))
    && (forall j :: 0 <= j < k && entries[j].kind != KindDir ==> ParentsNoted(original, entries, deleted, s, entries[j].path))
    && (ParentsListedFirst(original, entries, deleted) ==> MadeDirsRecorded(original, s))
  }

  lemma InstallBegin(original: Tree, entries: seq<Entry>, deleted: seq<Path>, stage: map<Path, Node>, s: Tx)
    requires DirsMade(original, entries, deleted, s, |entries|)
    ensures Installing(original, entries, deleted, stage, s, 0)
  {
    hide CommitInv, BackupsAreDisplaced, Unchmodded, RecordedDir, MadeFor, ParentsListedFirst, MadeDirsRecorded, Extra, AtOrBelow, Solid, RecordedParent;
    assert DirEntriesMade(entries, s.tree) by {
      forall e | e in entries && IsDirEntry(e)
        ensures e.path in s.tree && s.tree[e.path].Dir?
      {
        var j :| 0 <= j < |entries| && entries[j] == e;
        SelfSolid(s.tree, e.path);
      }
    }
  }

  lemma SelfSolid(t: Tree, p: Path)
    requires Solid(t, p) && p in t
    ensures t[p].Dir?
  {
    assert AtOrBelow(p, p);
  }

  // ---- Missing parents ----

  /** Below directories only, the recorded parents are exactly the missing ones. */
  lemma {:induction false} MissingParentsExact(t: Tree, p: Path)
    requires Closed(t) && Solid(t, p)
    ensures forall a :: a in MissingParents(t, p) <==> AtOrBelow(p, a) && a !in t
    decreases |p|
  {
    SolidLookup(t, p);
    if p in t {
      forall a | AtOrBelow(p, a)
        ensures a in t
      {
        if a != p {
          AncestorsAreDirs(t, p, a);
        }
      }
    } else {
      SolidUp(t, p);
      MissingParentsExact(t, Parent(p));
      forall a
        ensures AtOrBelow(p, a) <==> a == p || AtOrBelow(Parent(p), a)
      {
        if AtOrBelow(p, a) && a != p {
          ParentIsAbove(p, a);
        }
        if AtOrBelow(Parent(p), a) {
          assert AtOrBelow(p, Parent(p));
          AtOrBelowTransitive(p, Parent(p), a);
        }
      }
      hide Closed, Solid, AtOrBelow, Lstat;
    }
  }

  lemma NewParentFits(original: Tree, entries: seq<Entry>, s: Tx, e: Entry, a: Path)
    requires CommitInv(original, entries, s)
    requires e in entries && e.path != [] && Solid(s.tree, Parent(e.path))
    requires a in MissingParents(s.tree, Parent(e.path))
    ensures a != [] && Extra(original, s, a) && WantsDir(entries, a) && Solid(s.tree, a)
  {
    var up := Parent(e.path);
    MissingParentsExact(s.tree, up);
    hide MissingParents, StashExact, ModesExact, InstalledExact, ExtrasKnown, CreatedExact, BackupsApart;
    assert AtOrBelow(e.path, up);
    AtOrBelowTransitive(e.path, up, a);
    assert Below(e.path, a);
    SolidAbove(s.tree, up, a);
  }

  /** Only the list of created directories differs. */
  lemma InvWithCreated(original: Tree, entries: seq<Entry>, s: Tx, r: Tx)
    requires CommitInv(original, entries, s) && r == s.(created := r.created)
    requires CreatedExact(original, entries, r)
    ensures CommitInv(original, entries, r)
  {
    hide CreatedExact, Closed, BackupsApart, Covered, WantsLeaf;
  }

  lemma NoteParentsKeepsInv(original: Tree, entries: seq<Entry>, s: Tx, e: Entry)
    requires CommitInv(original, entries, s)
    requires e in entries && e.path != [] && Solid(s.tree, Parent(e.path))
    ensures CommitInv(original, entries, s.(created := s.created + MissingParents(s.tree, Parent(e.path))))
  {
    var r := s.(created := s.created + MissingParents(s.tree, Parent(e.path)));
    forall a | a in MissingParents(s.tree, Parent(e.path))
      ensures a != [] && Extra(original, s, a) && WantsDir(entries, a) && Solid(s.tree, a)
    {
      NewParentFits(original, entries, s, e, a);
    }
    hide Closed, BackupsApart, Covered, WantsDir, Solid, MissingParents, AtOrBelow, StashExact, KeptInPlace, ModesExact, InstalledExact, ExtrasKnown;
    assert CreatedExact(original, entries, r);
    InvWithCreated(original, entries, s, r);
  }

  lemma SolidAbove(t: Tree, p: Path, a: Path)
    requires Solid(t, p) && AtOrBelow(p, a)
    ensures Solid(t, a)
  {
    forall b | AtOrBelow(a, b)
      ensures AtOrBelow(p, b)
    {
      AtOrBelowTransitive(p, a, b);
    }
  }

  /** The newly recorded parents are ones that the change set accounts for. */
  lemma NewParentsRecordable(original: Tree, entries: seq<Entry>, deleted: seq<Path>, stage: map<Path, Node>, s: Tx, k: nat, a: Path)
    requires k < |entries| && entries[k].kind != KindDir
    requires Installing(original, entries, deleted, stage, s, k)
    requires a !in s.tree && Below(entries[k].path, a)
    ensures Recordable(original, entries, deleted, a)
  {
    hide Unchmodded, Placeable, Placed, Noted, PlacedFor, ParentsNoted, ParentsListedFirst, MadeDirsRecorded;
    hide StashExact, ModesExact, InstalledExact, ExtrasKnown, CreatedExact, BackupsApart;
    assert entries[k] in entries;
    forall d | d in entries && IsDirEntry(d)
      ensures !AtOrBelow(d.path, a)
    {
      if AtOrBelow(d.path, a) && d.path != a {
        AncestorsAreDirs(s.tree, d.path, a);
      }
    }
    assert Missing(original, entries, deleted, a);
    assert RecordedParent(original, entries, deleted, a);
  }

  /** What entry `k` should have recorded is new, or was recorded for an earlier entry. */
  lemma ParentsComplete(original: Tree, entries: seq<Entry>, deleted: seq<Path>, stage: map<Path, Node>, s: Tx, k: nat, a: Path)
    requires k < |entries| && entries[k].kind != KindDir && CleanEntries(entries)
    requires Installing(original, entries, deleted, stage, s, k)
    requires Below(entries[k].path, a) && RecordedParent(original, entries, deleted, a)
    ensures a in s.created || a !in s.tree
  {
    hide CommitInv, Unchmodded, Placeable, Placed, Noted, ParentsListedFirst, MadeDirsRecorded;
    if a in s.tree {
      assert Extra(original, s, a);
      NotMadeForDirs(entries, a);
      var j :| 0 <= j < k && entries[j].kind != KindDir && AtOrBelow(entries[j].path, a);
      assert entries[j] in entries && entries[k] in entries;
      assert entries[j].path != a;
      assert ParentsNoted(original, entries, deleted, s, entries[j].path);
      assert Below(entries[j].path, a);
    }
  }

  lemma NotMadeForDirs(entries: seq<Entry>, a: Path)
    requires forall e :: e in entries && IsDirEntry(e) ==> !AtOrBelow(e.path, a)
    ensures !MadeFor(entries, |entries|, a)
  {
  }

  // ---- One staged entry ----

  lemma AddLeafClosed(t: Tree, p: Path, node: Node)
    requires Closed(t) && p != [] && p !in t && Parent(p) in t && t[Parent(p)].Dir?
    ensures Closed(t[p := node])
  {
  }

  lemma LeafNotAbove(entries: seq<Entry>, f: Entry, e: Entry, p: Path)
    requires CleanEntries(entries) && f in entries && f.kind != KindDir && e in entries
    requires Below(e.path, p) || (e.path == p && e.kind == KindDir)
    ensures !AtOrBelow(p, f.path)
  {
    if AtOrBelow(p, f.path) {
      AtOrBelowTransitive(e.path, p, f.path);
      if e.path == f.path {
        SameEntryAtPath(entries, e, f);
      }
    }
  }

  /** A file or link entry stands above nothing that the change set wants. */
  lemma LeafBlocksNothing(entries: seq<Entry>, f: Entry, p: Path)
    requires CleanEntries(entries) && f in entries && f.kind != KindDir
    requires WantsDir(entries, p)
    ensures !AtOrBelow(p, f.path)
  {
    hide CleanEntries, AtOrBelow, Below;
    var e :| e in entries && (Below(e.path, p) || (e.path == p && e.kind == KindDir));
    LeafNotAbove(entries, f, e, p);
  }

  lemma PlaceKeepsCreated(original: Tree, entries: seq<Entry>, s: Tx, f: Entry, r: Tx)
    requires CreatedExact(original, entries, s) && CleanEntries(entries)
    requires f in entries && f.kind != KindDir && f.path !in s.tree
    requires r.created == s.created && r.backups == s.backups
    requires r.tree.Keys == s.tree.Keys + {f.path} && forall p :: p in s.tree ==> r.tree[p] == s.tree[p]
    ensures CreatedExact(original, entries, r)
  {
    forall p | p in s.created
      ensures !AtOrBelow(p, f.path)
    {
      LeafBlocksNothing(entries, f, p);
    }
    hide CleanEntries, Covered, WantsDir, AtOrBelow;
  }

  /** `r` is `s` with one more installed leaf, at a free path. */
  ghost predicate LeafPlaced(s: Tx, r: Tx, f: Path) {
    && f !in s.tree
    && r.tree.Keys == s.tree.Keys + {f}
    && (forall p :: p in s.tree ==> r.tree[p] == s.tree[p])
    && !r.tree[f].Dir?
    && r == s.(tree := r.tree, installed := s.installed + [f], budget := r.budget)
  }

  lemma PlaceKeepsNodes(original: Tree, s: Tx, f: Path, r: Tx)
    requires LeafPlaced(s, r, f)
    ensures KeptInPlace(original, s) ==> KeptInPlace(original, r)
    ensures ModesExact(original, s) ==> ModesExact(original, r)
    ensures ExtrasKnown(original, s) ==> ExtrasKnown(original, r)
    ensures StashExact(original, s) ==> StashExact(original, r)
  {
    hide Covered;
  }

  lemma PlaceKeepsInstalled(original: Tree, entries: seq<Entry>, s: Tx, f: Path, r: Tx)
    requires LeafPlaced(s, r, f) && KeptInPlace(original, s) && WantsLeaf(entries, f)
    requires InstalledExact(original, entries, s)
    ensures InstalledExact(original, entries, r)
  {
    hide Covered, WantsLeaf;
  }

  lemma PlaceKeepsInv(original: Tree, entries: seq<Entry>, s: Tx, f: Entry, node: Node)
    requires CommitInv(original, entries, s) && CleanEntries(entries)
    requires f in entries && f.kind != KindDir && f.path != [] && !node.Dir?
    requires f.path !in s.tree && Parent(f.path) in s.tree && s.tree[Parent(f.path)].Dir?
    ensures CommitInv(original, entries, Spend(s).(tree := s.tree[f.path := node], installed := s.installed + [f.path]))
  {
    hide Closed, BackupsApart, Covered, CreatedExact, CleanEntries, StashExact, KeptInPlace, ModesExact, InstalledExact, ExtrasKnown;
    var r := Spend(s).(tree := s.tree[f.path := node], installed := s.installed + [f.path]);
    assert LeafPlaced(s, r, f.path);
    AddLeafClosed(s.tree, f.path, node);
    assert WantsLeaf(entries, f.path);
    PlaceKeepsNodes(original, s, f.path, r);
    PlaceKeepsInstalled(original, entries, s, f.path, r);
    PlaceKeepsCreated(original, entries, s, f, r);
  }

  lemma PlaceKeepsPlaceable(entries: seq<Entry>, t: Tree, f: Entry, node: Node)
    requires CleanEntries(entries) && f in entries && f.kind != KindDir && f.path != []
    requires Placeable(entries, t)
    ensures Placeable(entries, t[f.path := node])
  {
    forall e | e in entries && e.path != []
      ensures !AtOrBelow(Parent(e.path), f.path)
    {
      assert AtOrBelow(e.path, Parent(e.path));
      if AtOrBelow(Parent(e.path), f.path) {
        AtOrBelowTransitive(e.path, Parent(e.path), f.path);
        assert false;
      }
    }
    forall e | e in entries && e.kind == KindDir
      ensures !AtOrBelow(e.path, f.path)
    {
      LeafBlocksNothing(entries, f, e.path);
    }
    hide CleanEntries, AtOrBelow;
  }

  /** The state in which the parents of entry `k` are recorded and some or all of them made. */
  lemma ParentsStep(original: Tree, entries: seq<Entry>, deleted: seq<Path>, stage: map<Path, Node>, s: Tx, k: nat) returns (noted: Tx, m: Tx)
    requires k < |entries| && entries[k].kind != KindDir && CleanEntries(entries) && Staged(entries, stage)
    requires Installing(original, entries, deleted, stage, s, k)
    ensures entries[k].path != []
    ensures noted == s.(created := s.created + MissingParents(s.tree, Parent(entries[k].path)))
    ensures m == MkdirAll(noted, Parent(entries[k].path)).tx
    ensures CommitInv(original, entries, m)
    ensures Grown(noted, Parent(entries[k].path), m)
    ensures MkdirAll(noted, Parent(entries[k].path)).Done? ==>
              Parent(entries[k].path) in m.tree && m.tree[Parent(entries[k].path)].Dir?
    ensures MkdirAll(noted, Parent(entries[k].path)).Failed? ==> s.budget >= 0
    ensures Noted(original, entries, deleted, m)
    ensures ParentsNoted(original, entries, deleted, m, entries[k].path)
    ensures entries[k].path !in m.tree
    ensures ParentsListedFirst(original, entries, deleted) ==> MadeDirsRecorded(original, m)
  {
    hide CommitInv, BackupsAreDisplaced, Unchmodded, DirEntriesMade, Noted, PlacedFor, ParentsNoted, MadeDirsRecorded, ParentsListedFirst, CleanEntries, Solid, MkdirAll, MissingParents;
    var f := entries[k].path;
    assert entries[k] in entries;
    var up := Parent(f);
    noted := s.(created := s.created + MissingParents(s.tree, up));
    m := MkdirAll(noted, up).tx;
    InvClosed(original, entries, s);
    NoteParentsKeepsInv(original, entries, s, entries[k]);
    MkdirAllEffect(noted, up);
    GrowKeepsInv(original, entries, noted, up, m);
    MissingParentsExact(s.tree, up);
    hide Closed;
    NotBelowParent(f);
    ParentsStepNoted(original, entries, deleted, stage, s, k, m);
    ParentsStepRecorded(original, entries, deleted, s, up, noted, m);
  }

  lemma NotBelowParent(f: Path)
    requires f != []
    ensures !AtOrBelow(Parent(f), f)
    ensures forall a :: AtOrBelow(Parent(f), a) <==> Below(f, a)
  {
    forall a
      ensures AtOrBelow(Parent(f), a) <==> Below(f, a)
    {
      if Below(f, a) {
        ParentIsAbove(f, a);
      }
      if AtOrBelow(Parent(f), a) {
        assert AtOrBelow(f, Parent(f));
        AtOrBelowTransitive(f, Parent(f), a);
      }
    }
  }

  lemma ParentsStepNoted(original: Tree, entries: seq<Entry>, deleted: seq<Path>, stage: map<Path, Node>, s: Tx, k: nat, m: Tx)
    requires k < |entries| && entries[k].kind != KindDir && entries[k].path != [] && CleanEntries(entries)
    requires Installing(original, entries, deleted, stage, s, k)
    requires m.created == s.created + MissingParents(s.tree, Parent(entries[k].path)) && m.modes == s.modes
    requires forall a :: a in MissingParents(s.tree, Parent(entries[k].path)) <==> AtOrBelow(Parent(entries[k].path), a) && a !in s.tree
    ensures Noted(original, entries, deleted, m)
    ensures ParentsNoted(original, entries, deleted, m, entries[k].path)
  {
    var f := entries[k].path;
    NotBelowParent(f);
    hide AtOrBelow, MissingParents, CleanEntries, Recordable, Installing, Noted, RecordedParent;
    forall a | a in MissingParents(s.tree, Parent(f))
      ensures Recordable(original, entries, deleted, a)
    {
      NewParentsRecordable(original, entries, deleted, stage, s, k, a);
    }
    forall a | Below(f, a) && RecordedParent(original, entries, deleted, a)
      ensures a in m.created
    {
      ParentsComplete(original, entries, deleted, stage, s, k, a);
    }
    InstallingNoted(original, entries, deleted, stage, s, k);
    NotedMore(original, entries, deleted, s, m);
  }

  lemma InstallingNoted(original: Tree, entries: seq<Entry>, deleted: seq<Path>, stage: map<Path, Node>, s: Tx, k: nat)
    requires k <= |entries| && Installing(original, entries, deleted, stage, s, k)
    ensures Noted(original, entries, deleted, s)
  {
    hide CommitInv, Noted;
  }

  lemma NotedMore(original: Tree, entries: seq<Entry>, deleted: seq<Path>, s: Tx, m: Tx)
    requires Noted(original, entries, deleted, s) && m.modes == s.modes
    requires forall a :: a in s.created ==> a in m.created
    requires forall a :: a in m.created ==> a in s.created || Recordable(original, entries, deleted, a)
    ensures Noted(original, entries, deleted, m)
  {
    hide RecordedDir, Recordable, ModeNotedBy;
  }

  lemma ParentsStepRecorded(original: Tree, entries: seq<Entry>, deleted: seq<Path>, s: Tx, up: Path, noted: Tx, m: Tx)
    requires noted == s.(created := s.created + MissingParents(s.tree, up)) && Grown(noted, up, m)
    requires forall a :: a in MissingParents(s.tree, up) <==> AtOrBelow(up, a) && a !in s.tree
    requires ParentsListedFirst(original, entries, deleted) ==> MadeDirsRecorded(original, s)
    ensures ParentsListedFirst(original, entries, deleted) ==> MadeDirsRecorded(original, m)
  {
    hide Closed, ParentsListedFirst, MissingParents, AtOrBelow, Covered;
  }

  lemma RecordsFromNotes(original: Tree, entries: seq<Entry>, deleted: seq<Path>, s: Tx)
    requires BackupsAreDisplaced(original, entries, deleted, s) && Noted(original, entries, deleted, s)
    requires ParentsListedFirst(original, entries, deleted) ==> MadeDirsRecorded(original, s)
    ensures RecordsRight(original, entries, deleted, s)
  {
    hide Covered, Displaced, ParentsListedFirst, MadeDirsRecorded, BelowListedEarlier, Recordable;
    forall p | p in s.modes && Covered(s.backups, p)
      ensures ModeReset(entries, p)
    {
      assert ModeNotedBy(original, entries, deleted, |entries|, p);
      var j :| 0 <= j < |entries| && IsDirEntry(entries[j]) && !RecordedDir(original, entries, deleted, j) && entries[j].path == p;
      assert Displaced(original, entries, deleted, p);
      assert BelowListedEarlier(entries, j);
    }
  }

  /** What a stopped install step leaves. */
  ghost predicate InstallStopped(original: Tree, entries: seq<Entry>, deleted: seq<Path>, f: Path, r: Tx) {
    && CommitInv(original, entries, r)
    && RecordsRight(original, entries, deleted, r)
    && ParentsNoted(original, entries, deleted, r, f)
  }

  lemma InstallStep(original: Tree, entries: seq<Entry>, deleted: seq<Path>, stage: map<Path, Node>, s: Tx, k: nat)
    requires k < |entries| && entries[k].kind != KindDir && CleanEntries(entries) && Staged(entries, stage)
    requires Installing(original, entries, deleted, stage, s, k)
    ensures entries[k].path != [] && entries[k].path in stage
    ensures InstallEntry(s, stage, entries[k].path).Done? ==>
              Installing(original, entries, deleted, stage, InstallEntry(s, stage, entries[k].path).tx, k + 1)
    ensures InstallEntry(s, stage, entries[k].path).Failed? ==>
              && InstallStopped(original, entries, deleted, entries[k].path, InstallEntry(s, stage, entries[k].path).tx)
              && s.budget >= 0
    ensures s.budget < 0 ==> InstallEntry(s, stage, entries[k].path).tx.budget < 0
    ensures s.budget == 0 ==> InstallEntry(s, stage, entries[k].path).Failed?
  {
    hide CommitInv, BackupsAreDisplaced, Unchmodded, DirEntriesMade, Noted, PlacedFor, ParentsNoted, MadeDirsRecorded, ParentsListedFirst, CleanEntries, Solid, MkdirAll, MissingParents, Placeable, Placed, RecordsRight, Closed, Lstat, AtOrBelow;
    var e := entries[k];
    assert e in entries;
    var f := e.path;
    var noted, m := ParentsStep(original, entries, deleted, stage, s, k);
    BackupsOnly(original, entries, deleted, s, m);
    RecordsFromNotes(original, entries, deleted, m);
    SpendlessMkdir(noted, Parent(f));
    if MkdirAll(noted, Parent(f)).Done? {
      ParentLookups(original, entries, m, f);
      if m.budget != 0 {
        var r := Spend(m).(tree := m.tree[f := stage[f]], installed := m.installed + [f]);
        assert InstallEntry(s, stage, f) == Done(r);
        PlaceKeepsInv(original, entries, m, e, stage[f]);
        InstalledShape(original, entries, deleted, stage, s, k, m, r);
      }
    }
  }

  /** At budget zero making directories either makes none or fails. */
  lemma {:induction false} SpendlessMkdir(s: Tx, p: Path)
    ensures s.budget == 0 && MkdirAll(s, p).Done? ==> MkdirAll(s, p).tx.budget == 0
    decreases |p|
  {
    if p != [] {
      SpendlessMkdir(s, Parent(p));
    }
  }

  lemma ParentLookups(original: Tree, entries: seq<Entry>, m: Tx, f: Path)
    requires CommitInv(original, entries, m) && f != [] && f !in m.tree
    requires Parent(f) in m.tree && m.tree[Parent(f)].Dir?
    ensures !Lstat(m.tree, f).Found?
    ensures Lstat(m.tree, Parent(f)) == Found(m.tree[Parent(f)])
  {
    InvClosed(original, entries, m);
    LstatMeaning(m.tree, f);
    hide CommitInv, Closed;
  }

  /** The parts of the install invariant that speak about the shape of the tree. */
  lemma InstalledShape(original: Tree, entries: seq<Entry>, deleted: seq<Path>, stage: map<Path, Node>, s: Tx, k: nat, m: Tx, r: Tx)
    requires k < |entries| && entries[k].kind != KindDir && entries[k].path != [] && entries[k].path in stage
    requires CleanEntries(entries)
    requires Installing(original, entries, deleted, stage, s, k)
    requires Grown(s.(created := m.created), Parent(entries[k].path), m)
    requires entries[k].path !in m.tree && m.backups == s.backups
    requires r == Spend(m).(tree := m.tree[entries[k].path := stage[entries[k].path]], installed := m.installed + [entries[k].path])
    requires CommitInv(original, entries, r)
    requires Noted(original, entries, deleted, m)
    requires ParentsNoted(original, entries, deleted, m, entries[k].path)
    requires forall p :: p in s.created ==> p in m.created
    requires ParentsListedFirst(original, entries, deleted) ==> MadeDirsRecorded(original, m)
    ensures Installing(original, entries, deleted, stage, r, k + 1)
  {
    hide CommitInv, BackupsAreDisplaced, Unchmodded, Noted, PlacedFor, ParentsNoted, MadeDirsRecorded, ParentsListedFirst, CleanEntries, Solid, Placeable, Placed, Closed, AtOrBelow, Grown, DirEntriesMade;
    var e := entries[k];
    assert e in entries;
    BackupsOnly(original, entries, deleted, s, r);
    ShapeUnchmodded(original, s, m, Parent(e.path), r, e.path, stage[e.path]);
    GrowKeepsPlaceable(entries, s.(created := m.created), Parent(e.path), m);
    PlaceKeepsPlaceable(entries, m.tree, e, stage[e.path]);
    ShapeDirEntries(entries, s.(created := m.created), m, e, stage[e.path]);
    ShapePlaced(entries, stage, s, k, m, r);
    ShapeNoted(original, entries, deleted, m, r);
    ShapeExtras(original, entries, s, k, m, r);
    ShapeParents(original, entries, deleted, stage, s, k, m, r);
    ShapeRecorded(original, m, r, e.path);
  }

  lemma ShapeUnchmodded(original: Tree, s: Tx, m: Tx, up: Path, r: Tx, f: Path, node: Node)
    requires Unchmodded(original, s) && Grown(s.(created := m.created), up, m) && f !in m.tree
    requires r == Spend(m).(tree := m.tree[f := node], installed := m.installed + [f])
    ensures Unchmodded(original, r)
  {
    hide Closed, Covered, AtOrBelow;
  }

  lemma ShapeDirEntries(entries: seq<Entry>, s: Tx, m: Tx, f: Entry, node: Node)
    requires CleanEntries(entries) && f in entries && f.kind != KindDir && f.path != []
    requires DirEntriesMade(entries, s.tree) && Grown(s, Parent(f.path), m)
    ensures DirEntriesMade(entries, m.tree[f.path := node])
  {
    hide Closed, AtOrBelow;
    forall e | e in entries && IsDirEntry(e)
      ensures e.path != f.path
    {
      if e.path == f.path {
        SameEntryAtPath(entries, e, f);
      }
    }
  }

  lemma ShapePlaced(entries: seq<Entry>, stage: map<Path, Node>, s: Tx, k: nat, m: Tx, r: Tx)
    requires k < |entries| && entries[k].kind != KindDir && entries[k].path != [] && entries[k].path in stage
    requires CleanEntries(entries) && Placed(entries, stage, s, k)
    requires Grown(s.(created := m.created), Parent(entries[k].path), m)
    requires r == Spend(m).(tree := m.tree[entries[k].path := stage[entries[k].path]], installed := m.installed + [entries[k].path])
    ensures Placed(entries, stage, r, k + 1)
  {
    var f := entries[k].path;
    assert entries[k] in entries;
    forall j | 0 <= j < |entries| && entries[j].kind != KindDir
      ensures !AtOrBelow(Parent(f), entries[j].path)
    {
      assert entries[j] in entries;
      NotBelowParent(f);
    }
    hide Closed, AtOrBelow, Below;
  }

  lemma ShapeNoted(original: Tree, entries: seq<Entry>, deleted: seq<Path>, m: Tx, r: Tx)
    requires Noted(original, entries, deleted, m) && r.created == m.created && r.modes == m.modes
    ensures Noted(original, entries, deleted, r)
  {
    hide RecordedDir, Recordable, ModeNotedBy;
  }

  lemma ShapeExtras(original: Tree, entries: seq<Entry>, s: Tx, k: nat, m: Tx, r: Tx)
    requires k < |entries| && entries[k].kind != KindDir && entries[k].path != []
    requires forall p :: p in s.tree && Extra(original, s, p) ==> PlacedFor(entries, k, p)
    requires Grown(s.(created := m.created), Parent(entries[k].path), m)
    requires r.backups == m.backups && r.tree.Keys == m.tree.Keys + {entries[k].path}
    ensures forall p :: p in r.tree && Extra(original, r, p) ==> PlacedFor(entries, k + 1, p)
  {
    var f := entries[k].path;
    hide Covered, PlacedFor, Grown, AtOrBelow;
    forall p | p in r.tree && Extra(original, r, p)
      ensures PlacedFor(entries, k + 1, p)
    {
      PlacedMore(entries, k, p);
      NewAbove(s, f, m, p);
      SameBackups(s, Parent(f), m);
    }
  }

  /** What appears when an entry is placed stands at it or above it. */
  lemma NewAbove(s: Tx, f: Path, m: Tx, p: Path)
    requires f != [] && Grown(s.(created := m.created), Parent(f), m)
    requires p in m.tree || p == f
    ensures p in s.tree || AtOrBelow(f, p)
  {
    NotBelowParent(f);
    hide Closed;
  }

  lemma SameBackups(s: Tx, top: Path, m: Tx)
    requires Grown(s.(created := m.created), top, m)
    ensures m.backups == s.backups
  {
    hide Closed;
  }

  lemma PlacedMore(entries: seq<Entry>, k: nat, p: Path)
    requires k < |entries| && entries[k].kind != KindDir
    ensures PlacedFor(entries, k, p) || AtOrBelow(entries[k].path, p) ==> PlacedFor(entries, k + 1, p)
  {
    hide MadeFor, AtOrBelow;
  }

  lemma ShapeParents(original: Tree, entries: seq<Entry>, deleted: seq<Path>, stage: map<Path, Node>, s: Tx, k: nat, m: Tx, r: Tx)
    requires k < |entries| && Installing(original, entries, deleted, stage, s, k)
    requires ParentsNoted(original, entries, deleted, m, entries[k].path)
    requires r.created == m.created && forall p :: p in s.created ==> p in m.created
    ensures forall j :: 0 <= j < k + 1 && entries[j].kind != KindDir ==> ParentsNoted(original, entries, deleted, r, entries[j].path)
  {
    hide CommitInv, BackupsAreDisplaced, Unchmodded, Noted, PlacedFor, MadeDirsRecorded, ParentsListedFirst, Placeable, Placed, DirEntriesMade, RecordedParent;
  }

  lemma ShapeRecorded(original: Tree, m: Tx, r: Tx, f: Path)
    requires r.tree.Keys == m.tree.Keys + {f} && r.installed == m.installed + [f] && r.backups == m.backups && r.created == m.created
    ensures MadeDirsRecorded(original, m) ==> MadeDirsRecorded(original, r)
  {
    hide Covered;
  }

  lemma InstallSkip(original: Tree, entries: seq<Entry>, deleted: seq<Path>, stage: map<Path, Node>, s: Tx, k: nat)
    requires k < |entries| && entries[k].kind == KindDir
    requires Installing(original, entries, deleted, stage, s, k)
    ensures Installing(original, entries, deleted, stage, s, k + 1)
  {
    hide CommitInv, BackupsAreDisplaced, Unchmodded, Noted, ParentsNoted, MadeDirsRecorded, ParentsListedFirst, Placeable, DirEntriesMade, Extra, MadeFor, AtOrBelow;
    forall p | PlacedFor(entries, k, p)
      ensures PlacedFor(entries, k + 1, p)
    {
      if j :| 0 <= j < k && entries[j].kind != KindDir && AtOrBelow(entries[j].path, p) {
        assert 0 <= j < k + 1;
      }
    }
    hide PlacedFor;
  }

  /** The install phase keeps its invariant, and stops only when a call fails. */
  lemma {:induction false} InstallPhase(original: Tree, entries: seq<Entry>, deleted: seq<Path>, stage: map<Path, Node>, s: Tx, k: nat)
    requires k <= |entries| && CleanEntries(entries) && Staged(entries, stage)
    requires Installing(original, entries, deleted, stage, s, 0)
    ensures Install(s, stage, entries, k).Done? ==>
              Installing(original, entries, deleted, stage, Install(s, stage, entries, k).tx, k)
    ensures Install(s, stage, entries, k).Failed? ==>
              && CommitInv(original, entries, Install(s, stage, entries, k).tx)
              && RecordsRight(original, entries, deleted, Install(s, stage, entries, k).tx)
              && s.budget >= 0
    ensures s.budget < 0 ==> Install(s, stage, entries, k).tx.budget < 0
  {
    hide Installing, CommitInv, RecordsRight, CleanEntries, InstallEntry, ParentsNoted;
    if k > 0 {
      InstallPhase(original, entries, deleted, stage, s, k - 1);
      var o := Install(s, stage, entries, k - 1);
      assert entries[k - 1] in entries;
      if o.Done? {
        if entries[k - 1].kind != KindDir {
          InstallStep(original, entries, deleted, stage, o.tx, k - 1);
        } else {
          InstallSkip(original, entries, deleted, stage, o.tx, k - 1);
        }
      }
    }
  }

  // ---- The chmod phase ----

  /** `s` is `start` with the first `k` directory entries given their modes. */
  ghost predicate Chmodded(start: Tx, entries: seq<Entry>, k: nat, s: Tx)
    requires k <= |entries|
  {
    && s == start.(tree := s.tree, budget := s.budget)
    && s.tree.Keys == start.tree.Keys
    && (start.budget < 0 ==> s.budget < 0)
    && (forall j :: 0 <= j < k && IsDirEntry(entries[j]) ==>
          entries[j].path in s.tree && s.tree[entries[j].path] == Dir(if entries[j].mode != 0 then entries[j].mode else 0x1ED))
    && (forall p :: p in s.tree && (forall j :: 0 <= j < k && IsDirEntry(entries[j]) ==> entries[j].path != p) ==>
          s.tree[p] == start.tree[p])
  }

  /** A directory entry that commit did not make has its old mode recorded. */
  lemma KeptDirNoted(original: Tree, entries: seq<Entry>, deleted: seq<Path>, s: Tx, j: nat)
    requires j < |entries| && IsDirEntry(entries[j])
    requires BackupsAreDisplaced(original, entries, deleted, s) && Noted(original, entries, deleted, s)
    requires !Extra(original, s, entries[j].path)
    ensures entries[j].path in s.modes
  {
    hide Recordable, ModeNotedBy;
  }

  lemma ChmodClosed(t: Tree, p: Path, mode: nat)
    requires p in t && t[p].Dir?
    ensures Chmod(t, p, mode).Keys == t.Keys
    ensures forall q :: q in t ==> (Chmod(t, p, mode)[q].Dir? <==> t[q].Dir?)
    ensures Closed(t) ==> Closed(Chmod(t, p, mode))
    ensures forall c :: Solid(t, c) ==> Solid(Chmod(t, p, mode), c)
  {
    hide AtOrBelow;
  }

  /** `r` is `s` with the mode of one directory changed. */
  ghost predicate ModeChanged(s: Tx, r: Tx, p: Path) {
    && p in s.tree && s.tree[p].Dir? && p in r.tree && r.tree[p].Dir?
    && r == s.(tree := r.tree, budget := r.budget)
    && r.tree.Keys == s.tree.Keys
    && (forall q :: q in s.tree && q != p ==> r.tree[q] == s.tree[q])
  }

  lemma ModeChangeKeepsNodes(original: Tree, entries: seq<Entry>, s: Tx, p: Path, r: Tx)
    requires ModeChanged(s, r, p)
    ensures ModesExact(original, s) ==> ModesExact(original, r)
    ensures InstalledExact(original, entries, s) ==> InstalledExact(original, entries, r)
    ensures ExtrasKnown(original, s) ==> ExtrasKnown(original, r)
    ensures StashExact(original, s) ==> StashExact(original, r)
  {
    hide Covered, WantsLeaf;
  }

  lemma ModeChangeKeepsKept(original: Tree, s: Tx, p: Path, r: Tx)
    requires ModeChanged(s, r, p) && (!Extra(original, s, p) ==> p in s.modes)
    requires KeptInPlace(original, s) && ModesExact(original, s)
    ensures KeptInPlace(original, r)
  {
    hide Covered;
  }

  lemma ModeChangeKeepsCreated(original: Tree, entries: seq<Entry>, s: Tx, p: Path, r: Tx)
    requires ModeChanged(s, r, p) && CreatedExact(original, entries, s)
    ensures CreatedExact(original, entries, r)
  {
    hide Covered, WantsDir, AtOrBelow;
  }

  lemma ChmodKeepsInv(original: Tree, entries: seq<Entry>, s: Tx, p: Path, mode: nat)
    requires CommitInv(original, entries, s)
    requires p in s.tree && s.tree[p].Dir? && (!Extra(original, s, p) ==> p in s.modes)
    ensures CommitInv(original, entries, Spend(s).(tree := Chmod(s.tree, p, mode)))
  {
    hide BackupsApart, StashExact, KeptInPlace, ModesExact, InstalledExact, ExtrasKnown, CreatedExact, Closed, Solid, Extra;
    var r := Spend(s).(tree := Chmod(s.tree, p, mode));
    assert ModeChanged(s, r, p);
    ChmodClosed(s.tree, p, mode);
    ModeChangeKeepsNodes(original, entries, s, p, r);
    ModeChangeKeepsKept(original, s, p, r);
    ModeChangeKeepsCreated(original, entries, s, p, r);
  }

  lemma ChmodStep(original: Tree, entries: seq<Entry>, deleted: seq<Path>, start: Tx, s: Tx, k: nat)
    requires k < |entries| && IsDirEntry(entries[k]) && UniquePaths(entries)
    requires CommitInv(original, entries, s) && Chmodded(start, entries, k, s)
    requires BackupsAreDisplaced(original, entries, deleted, s) && Noted(original, entries, deleted, s)
    requires DirEntriesMade(entries, start.tree)
    ensures var o := ChmodDir(s, entries[k].path, FileMode(entries[k].mode, DEFAULT_DIR_MODE));
            if s.budget == 0 then o == Failed(s)
            else o.Done? && CommitInv(original, entries, o.tx) && Chmodded(start, entries, k + 1, o.tx)
  {
    hide Noted, BackupsAreDisplaced, CommitInv, Extra;
    var p := entries[k].path;
    ChmodTarget(entries, start, s, k);
    if s.budget != 0 {
      if !Extra(original, s, p) {
        KeptDirNoted(original, entries, deleted, s, k);
      }
      var mode := FileMode(entries[k].mode, DEFAULT_DIR_MODE);
      ChmodKeepsInv(original, entries, s, p, mode);
      ChmoddedOneMore(entries, start, s, k, Spend(s).(tree := Chmod(s.tree, p, mode)));
      hide Chmodded, UniquePaths, DirEntriesMade;
    }
  }

  lemma ChmodTarget(entries: seq<Entry>, start: Tx, s: Tx, k: nat)
    requires k < |entries| && IsDirEntry(entries[k]) && UniquePaths(entries)
    requires Chmodded(start, entries, k, s) && DirEntriesMade(entries, start.tree)
    ensures entries[k].path in s.tree && s.tree[entries[k].path].Dir?
  {
    assert entries[k] in entries;
    forall j | 0 <= j < k && IsDirEntry(entries[j])
      ensures entries[j].path != entries[k].path
    {
    }
  }

  lemma ChmoddedOneMore(entries: seq<Entry>, start: Tx, s: Tx, k: nat, r: Tx)
    requires k < |entries| && IsDirEntry(entries[k]) && UniquePaths(entries)
    requires Chmodded(start, entries, k, s) && entries[k].path in s.tree && s.tree[entries[k].path].Dir?
    requires r == Spend(s).(tree := Chmod(s.tree, entries[k].path, FileMode(entries[k].mode, DEFAULT_DIR_MODE)))
    ensures Chmodded(start, entries, k + 1, r)
  {
    forall j | 0 <= j < k && IsDirEntry(entries[j])
      ensures entries[j].path != entries[k].path
    {
    }
    hide UniquePaths, IsDirEntry;
  }

  lemma ChmoddedKeepsRecords(original: Tree, entries: seq<Entry>, deleted: seq<Path>, start: Tx, k: nat, s: Tx)
    requires k <= |entries| && Chmodded(start, entries, k, s)
    ensures BackupsAreDisplaced(original, entries, deleted, start) ==> BackupsAreDisplaced(original, entries, deleted, s)
    ensures Noted(original, entries, deleted, start) ==> Noted(original, entries, deleted, s)
    ensures MadeDirsRecorded(original, start) ==> MadeDirsRecorded(original, s)
  {
    hide Covered, Displaced, RecordedDir, Recordable, ModeNotedBy, IsDirEntry;
  }

  /** The chmod phase sets exactly the modes of the directory entries, and stops only when a call fails. */
  lemma {:induction false} ChmodPhase(original: Tree, entries: seq<Entry>, deleted: seq<Path>, start: Tx, k: nat)
    requires k <= |entries| && UniquePaths(entries)
    requires CommitInv(original, entries, start)
    requires BackupsAreDisplaced(original, entries, deleted, start) && Noted(original, entries, deleted, start)
    requires DirEntriesMade(entries, start.tree)
    requires ParentsListedFirst(original, entries, deleted) ==> MadeDirsRecorded(original, start)
    ensures CommitInv(original, entries, ChmodDirs(start, entries, k).tx)
    ensures RecordsRight(original, entries, deleted, ChmodDirs(start, entries, k).tx)
    ensures ChmodDirs(start, entries, k).Done? ==> Chmodded(start, entries, k, ChmodDirs(start, entries, k).tx)
    ensures ChmodDirs(start, entries, k).Failed? ==> start.budget >= 0
  {
    hide Noted, BackupsAreDisplaced, CommitInv, RecordsRight, MadeDirsRecorded, ParentsListedFirst, ChmodDir, UniquePaths, DirEntriesMade;
    if k == 0 {
      RecordsFromNotes(original, entries, deleted, start);
    } else {
      ChmodPhase(original, entries, deleted, start, k - 1);
      var o := ChmodDirs(start, entries, k - 1);
      if o.Done? {
        ChmoddedKeepsRecords(original, entries, deleted, start, k - 1, o.tx);
        if IsDirEntry(entries[k - 1]) {
          ChmodStep(original, entries, deleted, start, o.tx, k - 1);
          var n := ChmodDir(o.tx, entries[k - 1].path, FileMode(entries[k - 1].mode, DEFAULT_DIR_MODE));
          if n.Done? {
            ChmoddedKeepsRecords(original, entries, deleted, start, k, n.tx);
            RecordsFromNotes(original, entries, deleted, n.tx);
          }
        }
      }
    }
  }
}
