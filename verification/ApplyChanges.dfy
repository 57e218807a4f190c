/** ApplyChanges: check the change set, stage it, commit it, and roll back if the commit stops. */
module ApplyChangesFlow {
  import opened FileTree
  import opened Entries
  import opened Manifest
  import opened ApplySpec
  import opened ApplyRollback
  import opened RollbackSteps
  import opened ApplyBackup
  import opened ApplyGuard
  import opened ApplyResult
  import opened ApplyTransactions
  import opened SyncTheorem

  /** A path name as a peer sent it: it cleans to a local path, or it escapes the workspace. */
  datatype RawPath = Escapes | Local(path: Path)

  datatype RawEntry = RawEntry(name: RawPath, entry: Entry)

  function PathOf(name: RawPath): Path {
    if name.Local? then name.path else []
  }

  /** The entries with their cleaned paths. */
  function Cleaned(raw: seq<RawEntry>): seq<Entry> {
    seq(|raw|, i requires 0 <= i < |raw| => raw[i].entry.(path := PathOf(raw[i].name)))
  }

  ghost predicate AllLocal(raw: seq<RawEntry>, rawDeleted: seq<RawPath>) {
    (forall r :: r in raw ==> r.name.Local?) && (forall d :: d in rawDeleted ==> d.Local?)
  }

  /** The entries collected so far, and the kinds map built beside them. */
  ghost predicate Collected(entries: seq<Entry>, kinds: map<Path, EntryKind>) {
    && UniquePaths(entries)
    && kinds.Keys == PathsOf(entries)
    && (forall e :: e in entries ==> kinds[e.path] == e.kind)
    && (forall e :: e in entries ==> !e.kind.KindOther? && (e.path == [] ==> e.kind == KindDir))
  }

  ghost predicate NoneNested(entries: seq<Entry>) {
    forall e, f :: e in entries && f in entries && Below(f.path, e.path) && e.path != [] ==> e.kind == KindDir
  }

  lemma CollectOne(entries: seq<Entry>, kinds: map<Path, EntryKind>, e: Entry)
    requires Collected(entries, kinds) && e.path !in kinds
    requires !e.kind.KindOther? && (e.path == [] ==> e.kind == KindDir)
    ensures Collected(entries + [e], kinds[e.path := e.kind])
  {
    forall f | f in entries
      ensures f.path != e.path
    {
      assert f.path in PathsOf(entries);
    }
  }

  /** An entry that collecting refuses makes the change set unclean. */
  lemma RefusedEntry(entries: seq<Entry>, i: nat)
    requires i < |entries|
    requires var e := entries[i]; (e.path == [] && e.kind != KindDir) || e.kind.KindOther? || e.path in PathsOf(entries[..i])
    ensures !CleanEntries(entries)
  {
    assert entries[i] in entries;
    if entries[i].path in PathsOf(entries[..i]) {
      var k :| 0 <= k < i && entries[..i][k].path == entries[i].path;
      assert entries[k].path == entries[i].path;
    }
  }

  lemma CollectedPaths(entries: seq<Entry>, kinds: map<Path, EntryKind>)
    requires Collected(entries, kinds)
    ensures kinds.Keys == PathsOf(entries)
  {
  }

  lemma CleanedNext(raw: seq<RawEntry>, i: nat)
    requires i < |raw| && raw[i].name.Local?
    ensures |Cleaned(raw)| == |raw| && Cleaned(raw)[i] == raw[i].entry.(path := raw[i].name.path)
    ensures Cleaned(raw)[..i + 1] == Cleaned(raw)[..i] + [Cleaned(raw)[i]]
  {
  }

  lemma NothingCollected(raw: seq<RawEntry>)
    ensures Collected([], map[]) && |Cleaned(raw)| == |raw|
  {
  }

  method CollectEntries(raw: seq<RawEntry>) returns (ok: bool, entries: seq<Entry>, kinds: map<Path, EntryKind>)
    ensures ok ==> entries == Cleaned(raw) && Collected(entries, kinds) && forall r :: r in raw ==> r.name.Local?
    ensures !ok ==> !CleanEntries(Cleaned(raw)) || exists r :: r in raw && !r.name.Local?
  {
    entries, kinds := [], map[];
    hide CleanEntries, Collected, Cleaned, PathsOf;
    NothingCollected(raw);
    for i := 0 to |raw|
      invariant i <= |Cleaned(raw)| == |raw| && entries == Cleaned(raw)[..i] && Collected(entries, kinds)
      invariant forall k :: 0 <= k < i ==> raw[k].name.Local?
    {
      assert raw[i] in raw;
      if !raw[i].name.Local? {
        return false, entries, kinds;
      }
      var e := raw[i].entry.(path := raw[i].name.path);
      CleanedNext(raw, i);
      CollectedPaths(entries, kinds);
      if e.path == [] && e.kind != KindDir {
        RefusedEntry(Cleaned(raw), i);
        return false, entries, kinds;
      }
      if e.path in kinds {
        RefusedEntry(Cleaned(raw), i);
        return false, entries, kinds;
      }
      if e.kind.KindOther? {
        RefusedEntry(Cleaned(raw), i);
        return false, entries, kinds;
      }
      CollectOne(entries, kinds, e);
      entries := entries + [e];
      kinds := kinds[e.path := e.kind];
    }
    ok := true;
  }

  /** Some proper parent of `rel`, the root apart, is listed with a kind other than a directory. */
  ghost predicate NestedBelowLeaf(kinds: map<Path, EntryKind>, rel: Path) {
    exists a :: a != [] && Below(rel, a) && a in kinds && kinds[a] != KindDir
  }

  method BelowListedLeaf(kinds: map<Path, EntryKind>, rel: Path) returns (nested: bool)
    ensures nested <==> NestedBelowLeaf(kinds, rel)
  {
    var parent := if rel == [] then [] else Parent(rel);
    while parent != []
      invariant rel == [] ==> parent == []
      invariant rel != [] ==> AtOrBelow(Parent(rel), parent)
      invariant forall a :: a != [] && Below(rel, a) && |a| > |parent| ==> !(a in kinds && kinds[a] != KindDir)
      decreases |parent|
    {
      if parent in kinds && kinds[parent] != KindDir {
        assert Below(rel, parent) by {
          assert AtOrBelow(rel, Parent(rel));
          AtOrBelowTransitive(rel, Parent(rel), parent);
        }
        return true;
      }
      forall a | Below(rel, a) && |a| == |parent|
        ensures a == parent
      {
        assert a == rel[..|a|] && parent == Parent(rel)[..|parent|];
      }
      assert AtOrBelow(parent, Parent(parent));
      AtOrBelowTransitive(Parent(rel), parent, Parent(parent));
      parent := Parent(parent);
    }
    nested := false;
  }

  /** The check over all listed paths, in the arbitrary order of a map walk. */
  method CheckNesting(entries: seq<Entry>, kinds: map<Path, EntryKind>) returns (ok: bool)
    requires Collected(entries, kinds)
    ensures ok <==> NoneNested(entries)
  {
    var rest := kinds.Keys;
    while rest != {}
      invariant rest <= kinds.Keys
      invariant forall rel :: rel in kinds && rel !in rest ==> !NestedBelowLeaf(kinds, rel)
      decreases rest
    {
      var rel :| rel in rest;
      var nested := BelowListedLeaf(kinds, rel);
      if nested {
        var a :| a != [] && Below(rel, a) && a in kinds && kinds[a] != KindDir;
        var e :| e in entries && e.path == a;
        var f :| f in entries && f.path == rel;
        return false;
      }
      rest := rest - {rel};
    }
    forall e, f | e in entries && f in entries && Below(f.path, e.path) && e.path != []
      ensures e.kind == KindDir
    {
      assert !NestedBelowLeaf(kinds, f.path);
    }
    ok := true;
  }

  method CleanDeleted(rawDeleted: seq<RawPath>) returns (ok: bool, deleted: seq<Path>)
    ensures ok <==> forall d :: d in rawDeleted ==> d.Local?
    ensures ok ==> forall p :: p in deleted <==> p != [] && Local(p) in rawDeleted
    ensures Distinct(deleted)
  {
    deleted := [];
    for i := 0 to |rawDeleted|
      invariant forall k :: 0 <= k < i ==> rawDeleted[k].Local?
      invariant forall p :: p in deleted <==> p != [] && Local(p) in rawDeleted[..i]
      invariant Distinct(deleted)
    {
      assert rawDeleted[..i + 1] == rawDeleted[..i] + [rawDeleted[i]];
      if !rawDeleted[i].Local? {
        return false, deleted;
      }
      var p := rawDeleted[i].path;
      if p != [] && p !in deleted {
        deleted := deleted + [p];
      }
    }
    assert rawDeleted[..|rawDeleted|] == rawDeleted;
    ok := true;
  }

  /**
   cleanApplyChanges: accepts exactly the change sets whose paths are local and whose entries are
   distinct, of known kinds and never nested below a file or link; drops the root and repeats
   from the deletions.
   */
  method CleanApplyChanges(raw: seq<RawEntry>, rawDeleted: seq<RawPath>)
    returns (ok: bool, entries: seq<Entry>, deleted: seq<Path>)
    ensures ok <==> AllLocal(raw, rawDeleted) && CleanEntries(Cleaned(raw))
    ensures ok ==> entries == Cleaned(raw) && Distinct(deleted)
    ensures ok ==> forall p :: p in deleted <==> p != [] && Local(p) in rawDeleted
  {
    var kinds;
    deleted := [];
    ok, entries, kinds := CollectEntries(raw);
    if !ok {
      return;
    }
    ok := CheckNesting(entries, kinds);
    if !ok {
      return;
    }
    ok, deleted := CleanDeleted(rawDeleted);
  }

  // ---- Staging ----

  /** The node that staging builds for an entry that is not a directory. */
  function StagedNode(store: map<string, Bytes>, e: Entry): Node
    requires e.kind == KindFile ==> e.hash in store
  {
    if e.kind == KindFile then File(store[e.hash], FileMode(e.mode, DEFAULT_FILE_MODE)) else Symlink(e.link)
  }

  /** stageChanges: builds every new file and link beside the workspace; a missing blob or a failed call stops it. */
  method StageChanges(digest: Digest, store: map<string, Bytes>, entries: seq<Entry>) returns (ok: bool, stage: map<Path, Node>, ghost fault: bool)
    requires CleanEntries(entries)
    requires forall h :: h in store ==> digest(store[h]) == h
    ensures ok ==> StagedFrom(digest, store, entries, stage) && Staged(entries, stage)
    ensures ok <==> !fault && forall e :: e in entries && e.kind == KindFile ==> e.hash in store
  {
    stage, fault := map[], false;
    for i := 0 to |entries|
      invariant !fault && forall k :: 0 <= k < i && entries[k].kind == KindFile ==> entries[k].hash in store
      invariant forall k :: 0 <= k < i && entries[k].kind != KindDir ==>
        entries[k].path in stage && stage[entries[k].path] == StagedNode(store, entries[k])
    {
      assert entries[i] in entries;
      var broken: bool := *;
      fault := broken;
      if broken || (entries[i].kind == KindFile && entries[i].hash !in store) {
        return false, stage, broken;
      }
      if entries[i].kind != KindDir {
        stage := stage[entries[i].path := StagedNode(store, entries[i])];
      }
    }
    forall e | e in entries && e.kind != KindDir
      ensures e.path != [] && e.path in stage && stage[e.path] == StagedNode(store, e)
    {
      var k :| 0 <= k < |entries| && entries[k] == e;
    }
    ok := true;
  }

  ghost predicate BlobsAtHand(store: map<string, Bytes>, entries: seq<Entry>) {
    forall e :: e in entries && e.kind == KindFile ==> e.hash in store
  }

  // ---- The whole operation ----

  /**
   ApplyChanges on a workspace. A refused change set or a failed staging leaves the workspace
   alone; success leaves exactly the applied tree; a failure of commit loses at most nodes that the
   change set turns into directories, and under the guard it is undone without a trace. Without a
   failing call, and with every blob at hand, only a target below a file or link that stays can stop it.
   */
  method ApplyChanges(digest: Digest, ws: Workspace, store: map<string, Bytes>, raw: seq<RawEntry>, rawDeleted: seq<RawPath>)
    returns (ok: bool, ghost deleted: seq<Path>, ghost gone: set<Path>, ghost fault: bool)
    requires Closed(ws.tree) && !ws.outside
    requires forall h :: h in store ==> digest(store[h]) == h
    modifies ws
    ensures !(AllLocal(raw, rawDeleted) && CleanEntries(Cleaned(raw))) ==> !ok && ws.tree == old(ws.tree) && !ws.outside
    ensures AllLocal(raw, rawDeleted) && CleanEntries(Cleaned(raw)) ==>
              forall p :: p in deleted <==> p != [] && Local(p) in rawDeleted
    ensures AllLocal(raw, rawDeleted) && CleanEntries(Cleaned(raw)) && ok ==>
              || (raw == [] && deleted == [] && ws.tree == old(ws.tree))
              || exists stage :: StagedFrom(digest, store, Cleaned(raw), stage) &&
                                 Applied(old(ws.tree), stage, Cleaned(raw), deleted, ws.tree)
    ensures ok ==> !ws.outside && Closed(ws.tree) && EntriesInstalled(store, Cleaned(raw), ws.tree)
    ensures AllLocal(raw, rawDeleted) && CleanEntries(Cleaned(raw)) && !ok &&
            RollbackGuard(old(ws.tree), Cleaned(raw), deleted) ==>
              ws.tree == old(ws.tree) && !ws.outside
    ensures AllLocal(raw, rawDeleted) && CleanEntries(Cleaned(raw)) && !fault && old(ws.budget) < 0 && BlobsAtHand(store, Cleaned(raw)) ==>
              ok || Blocked(old(ws.tree), Cleaned(raw), deleted)
    ensures !ok ==> LittleLost(old(ws.tree), Cleaned(raw), gone, ws.tree) && (!ws.outside ==> gone == {})
  {
    ghost var original := ws.tree;
    ghost var budget := ws.budget;
    gone, fault := {}, false;
    var entries, cleanDeleted, stage;
    ok, entries, cleanDeleted := CleanApplyChanges(raw, rawDeleted);
    deleted := cleanDeleted;
    if !ok || (entries == [] && cleanDeleted == []) {
      return;
    }
    ok, stage, fault := StageChanges(digest, store, entries);
    if !ok {
      return;
    }
    var tx := new ApplyTransaction(ws, stage);
    assert tx.State() == Begin(original, budget);
    ghost var order;
    ok, order := tx.Commit(entries, cleanDeleted);
    CommitStops(original, stage, order, entries, cleanDeleted, budget);
    ghost var stopped := tx.State();
    if ok {
      CommitResult(original, stage, order, entries, cleanDeleted, budget);
      StaysInside(original, entries, stopped);
      AllInstalled(digest, original, store, entries, cleanDeleted, stage, ws.tree);
      return;
    }
    gone := tx.Rollback(original, entries);
    UndoneIfGuarded(original, stage, order, entries, cleanDeleted, budget);
  }

  lemma StaysInside(original: Tree, entries: seq<Entry>, s: Tx)
    requires CommitInv(original, entries, s)
    ensures !s.outside && Closed(s.tree)
  {
  }

  lemma UndoneIfGuarded(original: Tree, stage: map<Path, Node>, order: seq<Path>, entries: seq<Entry>, deleted: seq<Path>, b: int)
    requires Closed(original) && CleanEntries(entries)
    requires IsBackupOrder(order, entries, deleted) && Staged(entries, stage)
    requires Commit(Begin(original, b), stage, order, entries, deleted).Failed?
    ensures RollbackGuard(original, entries, deleted) ==>
              var s := Commit(Begin(original, b), stage, order, entries, deleted).tx;
              RolledBack(s) == original && !RollbackLeavesTree(s) && !s.outside
  {
    RollbackIffGuard(original, stage, order, entries, deleted);
    hide RollbackGuard, CleanEntries, IsBackupOrder, Staged, Closed, Commit, RolledBack, RollbackLeavesTree;
  }
}
