/**
 The context workspace over many runs: a sync brings it to the client's manifest, a finished run
 cleans it, and a marker file makes an interrupted cleaning safe.

 A call that returns without success stands for an error and for a crash alike: it stops between
 any two effects on the disk, and what it wrote so far stays.
 */
module ContextWorkspace {
  import opened FileTree
  import opened Entries
  import opened Options
  import opened Manifest
  import opened ApplySpec
  import opened ApplyBackup
  import opened ApplyRollback
  import opened ApplyResult
  import opened ApplyTransactions
  import opened ApplyChangesFlow
  import opened SyncTheorem

  /** What survives a crash: the workspace, its tracked manifest, the clean marker, the setup cache. */
  datatype Disk = Disk(tree: Tree, tracked: Option<seq<Entry>>, marker: bool, setup: bool)

  const EMPTY_WORKSPACE: Tree := map[[] := Dir(DEFAULT_DIR_MODE)]

  /** The workspace holds the manifest's paths and nothing else. */
  ghost predicate ExactlyShows(digest: Digest, t: Tree, entries: seq<Entry>) {
    ShowsAll(digest, t, entries) && forall p :: p in t ==> p == [] || p in PathsOf(entries)
  }

  /** The workspace shows what the tracked manifest says, so a difference to it means something. */
  ghost predicate InStep(digest: Digest, d: Disk) {
    var current := if d.tracked.Some? then d.tracked.value else [];
    WellFormed(current) && ShowsAll(digest, d.tree, current)
  }

  /** A disk that a sync can meet: a tree, unless the marker says that a cleaning may have been cut short. */
  ghost predicate SyncReady(d: Disk) {
    !d.marker ==> Closed(d.tree)
  }

  /** What syncClientManifestAndSave, without a lease, makes of a disk. */
  ghost predicate SyncOutcome(digest: Digest, d: Disk, target: seq<Entry>, ok: bool, e: Disk) {
    && (ok ==> e.tracked == Some(target) && !e.marker && Closed(e.tree))
    && (ok && d.marker && WellFormed(target) ==> ExactlyShows(digest, e.tree, target) && !e.setup)
    && (ok && !d.marker && WellFormed(target) && InStep(digest, d) ==> ShowsAll(digest, e.tree, target))
    && (!ok ==> e.marker == d.marker)
    && (!ok ==> e.tracked == d.tracked || e.tracked == Some(target))
  }

  /** cleanRunWorkspace: the marker is on disk before anything else happens. */
  ghost predicate CleanOutcome(d: Disk, ok: bool, e: Disk) {
    && e.tracked == d.tracked
    && (e != d ==> e.marker)
    && (ok ==> e.marker && !e.setup && e.tree == map[[] := Dir(0x1ED)])
  }

  // ---- From an emptied workspace ----

  lemma EmptyIsClosed()
    ensures Closed(EMPTY_WORKSPACE)
  {
  }

  /** Applying the difference to no manifest at all leaves exactly the target. */
  lemma FreshApply(digest: Digest, store: map<string, Bytes>, target: seq<Entry>, changed: seq<Entry>, deleted: seq<Path>, stage: map<Path, Node>, t: Tree)
    requires WellFormed(target) && IsDiff([], target, false, changed, deleted)
    requires StagedFrom(digest, store, changed, stage)
    requires Closed(t) && Applied(EMPTY_WORKSPACE, stage, changed, deleted, t)
    ensures ExactlyShows(digest, t, target)
  {
    EmptyIsClosed();
    hide Applied, StagedFrom, IsDiff, Displaced, Shows, Closed;
    assert Sync(digest, EMPTY_WORKSPACE, [], target, changed, deleted);
    AppliedShowsAfter(digest, store, EMPTY_WORKSPACE, [], target, changed, deleted, stage, t);
    hide Sync;
    forall p | p in t && p !in PathsOf(target)
      ensures p == []
    {
      assert p in EMPTY_WORKSPACE;
    }
  }

  /** The root never counts as deleted. */
  lemma SameDisplaced(original: Tree, changed: seq<Entry>, deleted: seq<Path>, cleaned: seq<Path>)
    requires forall p :: p in cleaned <==> p != [] && p in deleted
    ensures forall n :: Replaced(original, changed, cleaned, n) <==> Replaced(original, changed, deleted, n)
    ensures forall p :: Displaced(original, changed, cleaned, p) <==> Displaced(original, changed, deleted, p)
  {
    forall n
      ensures Replaced(original, changed, cleaned, n) <==> Replaced(original, changed, deleted, n)
    {
      assert n != [] ==> (n in cleaned <==> n in deleted);
    }
    hide Replaced;
  }

  lemma SameApplied(original: Tree, stage: map<Path, Node>, changed: seq<Entry>, deleted: seq<Path>, cleaned: seq<Path>, t: Tree)
    requires forall p :: p in cleaned <==> p != [] && p in deleted
    requires Applied(original, stage, changed, cleaned, t)
    ensures Applied(original, stage, changed, deleted, t)
  {
    SameDisplaced(original, changed, deleted, cleaned);
    hide Displaced, DirEntryAt, WantsLeaf;
    forall p
      ensures p in t <==> AppliedPath(original, changed, deleted, p)
      ensures p in t ==> AppliedNode(original, stage, changed, deleted, p, t[p])
    {
      assert AppliedPath(original, changed, cleaned, p) <==> AppliedPath(original, changed, deleted, p);
      if p in t {
        assert AppliedNode(original, stage, changed, cleaned, p, t[p]);
      }
    }
  }

  /** An empty change set means that the disk already shows the target. */
  lemma NothingChanged(digest: Digest, t: Tree, before: seq<Entry>, target: seq<Entry>, deleted: seq<Path>)
    requires WellFormed(before) && WellFormed(target) && ShowsAll(digest, t, before)
    requires IsDiff(before, target, false, [], deleted) && forall p :: p in deleted ==> p == []
    ensures ShowsAll(digest, t, target)
    ensures before == [] ==> target == []
  {
    forall e | e in target
      ensures e.path in t && Shows(digest, t[e.path], e) && before != []
    {
      ChangedIsAfter(before, target, [], deleted, e);
      var b :| b in before && b.path == e.path && SameEntry(b, e, false);
      assert Shows(digest, t[b.path], b);
    }
    if target != [] {
      assert target[0] in target;
    }
    hide IsDiff, Shows;
  }

  function Named(entries: seq<Entry>): seq<RawEntry> {
    seq(|entries|, i requires 0 <= i < |entries| => RawEntry(Local(entries[i].path), entries[i]))
  }

  function NamedPaths(paths: seq<Path>): seq<RawPath> {
    seq(|paths|, i requires 0 <= i < |paths| => Local(paths[i]))
  }

  lemma NamedClean(entries: seq<Entry>, paths: seq<Path>)
    ensures Cleaned(Named(entries)) == entries && (Named(entries) == [] <==> entries == [])
    ensures AllLocal(Named(entries), NamedPaths(paths))
    ensures forall p :: Local(p) in NamedPaths(paths) <==> p in paths
  {
    forall p | p in paths
      ensures Local(p) in NamedPaths(paths)
    {
      var i :| 0 <= i < |paths| && paths[i] == p;
      assert NamedPaths(paths)[i] == Local(p);
    }
  }

  /** What a successful apply of the difference from `current` to `target` leaves of `before`. */
  ghost predicate Synced(digest: Digest, before: Tree, current: seq<Entry>, target: seq<Entry>, t: Tree) {
    && (current == [] && before == EMPTY_WORKSPACE && WellFormed(target) ==> ExactlyShows(digest, t, target))
    && (WellFormed(current) && WellFormed(target) && ShowsAll(digest, before, current) ==> ShowsAll(digest, t, target))
  }

  lemma ApplyMeansSynced(digest: Digest, store: map<string, Bytes>, before: Tree, current: seq<Entry>, target: seq<Entry>, changed: seq<Entry>, deleted: seq<Path>, stage: map<Path, Node>, t: Tree)
    requires Closed(before) && Closed(t) && IsDiff(current, target, false, changed, deleted)
    requires StagedFrom(digest, store, changed, stage) && Applied(before, stage, changed, deleted, t)
    ensures Synced(digest, before, current, target, t)
  {
    if current == [] && before == EMPTY_WORKSPACE && WellFormed(target) {
      FreshApply(digest, store, target, changed, deleted, stage, t);
    }
    if WellFormed(current) && WellFormed(target) && ShowsAll(digest, before, current) {
      AppliedShowsAfter(digest, store, before, current, target, changed, deleted, stage, t);
    }
    hide ExactlyShows, WellFormed, ShowsAll, Applied, StagedFrom, IsDiff, Closed;
  }

  lemma NothingMeansSynced(digest: Digest, t: Tree, current: seq<Entry>, target: seq<Entry>, deleted: seq<Path>)
    requires IsDiff(current, target, false, [], deleted) && forall p :: p in deleted ==> p == []
    ensures Synced(digest, t, current, target, t)
  {
    if WellFormed(current) && WellFormed(target) && ShowsAll(digest, t, current) {
      NothingChanged(digest, t, current, target, deleted);
    }
    hide WellFormed, ShowsAll, IsDiff;
    if current == [] && t == EMPTY_WORKSPACE && WellFormed(target) {
      EmptyShown(digest, t, target);
    }
  }

  lemma EmptyShown(digest: Digest, t: Tree, target: seq<Entry>)
    requires t == EMPTY_WORKSPACE
    requires WellFormed([]) && ShowsAll(digest, t, []) ==> ShowsAll(digest, t, target)
    ensures ExactlyShows(digest, t, target)
  {
  }

  // ---- The calls ----

  class ContextDisk {
    const workspace: Workspace
    var tracked: Option<seq<Entry>>
    var marker: bool
    var setup: bool

    constructor (workspace: Workspace, tracked: Option<seq<Entry>>, marker: bool, setup: bool)
      ensures this.workspace == workspace && State() == Disk(workspace.tree, tracked, marker, setup)
    {
      this.workspace, this.tracked, this.marker, this.setup := workspace, tracked, marker, setup;
    }

    ghost function State(): Disk
      reads this, workspace
    {
      Disk(workspace.tree, tracked, marker, setup)
    }

    /** os.RemoveAll of the workspace directory may stop half way. */
    method CleanWorkspace() returns (ok: bool)
      modifies workspace
      ensures ok ==> workspace.tree == map[[] := Dir(0x1ED)]
    {
      var rest: Tree := *;
      workspace.tree := rest;
      var stop: bool := *;
      if stop {
        return false;
      }
      workspace.tree := EMPTY_WORKSPACE;
      ok := true;
    }

    method CleanRunWorkspace() returns (ok: bool)
      modifies this, workspace
      ensures CleanOutcome(old(State()), ok, State())
    {
      var stop: bool := *;
      if stop {
        return false;
      }
      marker := true;
      stop := *;
      if stop {
        return false;
      }
      setup := false;
      ok := CleanWorkspace();
    }

    /** currentManifestForRun: with the marker set, start over from an emptied workspace and no manifest. */
    method CurrentManifestForRun() returns (ok: bool, current: seq<Entry>)
      modifies this`setup, workspace
      ensures ok && marker ==> current == [] && workspace.tree == EMPTY_WORKSPACE && !setup
      ensures ok && !marker ==> State() == old(State()) && current == (if tracked.Some? then tracked.value else [])
    {
      current := [];
      var stop: bool := *;
      if stop {
        return false, [];
      }
      if !marker {
        return true, if tracked.Some? then tracked.value else [];
      }
      setup := false;
      ok := CleanWorkspace();
    }

    /**
     syncContextFromClient: apply the difference, given a store that has passed its checks. What
     earlier transactions did through symbolic links does not matter to this one.
     */
    method SyncContextFromClient(digest: Digest, store: map<string, Bytes>, current: seq<Entry>, target: seq<Entry>) returns (ok: bool)
      requires Closed(workspace.tree)
      requires forall h :: h in store ==> digest(store[h]) == h
      modifies workspace
      ensures ok ==> Synced(digest, old(workspace.tree), current, target, workspace.tree) && Closed(workspace.tree)
    {
      hide IsDiff, Applied, StagedFrom, CleanEntries, AllLocal, Named, NamedPaths, Cleaned, Closed, Synced;
      ghost var before := workspace.tree;
      var changed, deleted := Diff(current, target, false);
      NamedClean(changed, deleted);
      workspace.outside := false;
      ghost var applied, gone, fault;
      ok, applied, gone, fault := ApplyChanges(digest, workspace, store, Named(changed), NamedPaths(deleted));
      if !ok {
        return;
      }
      if changed == [] && applied == [] && workspace.tree == before {
        NothingMeansSynced(digest, before, current, target, deleted);
      } else {
        ghost var stage :| StagedFrom(digest, store, changed, stage) && Applied(before, stage, changed, applied, workspace.tree);
        SameApplied(before, stage, changed, deleted, applied, workspace.tree);
        ApplyMeansSynced(digest, store, before, current, target, changed, deleted, stage, workspace.tree);
      }
    }

    /**
     syncClientManifestAndSave. A marked workspace may be in any state, even without its root
     directory: it is emptied before anything is applied.
     */
    method SyncClientManifestAndSave(digest: Digest, store: map<string, Bytes>, target: seq<Entry>) returns (ok: bool)
      requires SyncReady(State())
      requires forall h :: h in store ==> digest(store[h]) == h
      modifies this, workspace
      ensures SyncOutcome(digest, old(State()), target, ok, State())
    {
      hide Closed, ShowsAll, WellFormed, ExactlyShows;
      EmptyIsClosed();
      ghost var d := State();
      var current;
      ok, current := CurrentManifestForRun();
      if !ok {
        return;
      }
      ok := SyncContextFromClient(digest, store, current, target);
      if !ok {
        return;
      }
      var stop: bool := *;
      if stop {
        return false;
      }
      tracked := Some(target);
      stop := *;
      if stop {
        return false;
      }
      marker := false;
    }
  }

  // ---- Histories ----

  datatype Step =
    | PreRun(target: seq<Entry>, ok: bool)
    | Clean(ok: bool)
    | Command // the run's command writes whatever it likes into the workspace
    | PostRun(entries: seq<Entry>) // the manifest of the scan after the command

  /** One step of a history is one call of the matching method, or the command at work. */
  ghost predicate Leads(digest: Digest, d: Disk, s: Step, e: Disk) {
    match s
    case PreRun(target, ok) => SyncReady(d) && SyncOutcome(digest, d, target, ok, e)
    case Clean(ok) => CleanOutcome(d, ok, e)
    case Command => e == d.(tree := e.tree, setup := e.setup)
    case PostRun(entries) => e == d.(tracked := Some(entries))
  }

  ghost predicate History(digest: Digest, disks: seq<Disk>, steps: seq<Step>) {
    && |disks| == |steps| + 1
    && forall k :: 0 <= k < |steps| ==> Leads(digest, disks[k], steps[k], disks[k + 1])
  }

  predicate Completed(s: Step) {
    s.PreRun? && s.ok
  }

  /** Only a sync that completes takes the marker away. */
  lemma {:induction false} MarkerStays(digest: Digest, disks: seq<Disk>, steps: seq<Step>, i: nat, k: nat)
    requires History(digest, disks, steps) && i <= k < |disks| && disks[i].marker
    requires forall j :: i <= j < k ==> !Completed(steps[j])
    ensures disks[k].marker
    decreases k
  {
    if i < k {
      MarkerStays(digest, disks, steps, i, k - 1);
      assert Leads(digest, disks[k - 1], steps[k - 1], disks[k]);
      hide ExactlyShows, ShowsAll, WellFormed;
    }
  }

  /**
   After a run began to clean its workspace, whatever is interrupted in between, the next sync that
   completes leaves exactly the client's manifest on disk and in the tracked manifest: no stale
   file and no stale setup survives.
   */
  lemma NextSyncIsExact(digest: Digest, disks: seq<Disk>, steps: seq<Step>, i: nat, k: nat)
    requires History(digest, disks, steps) && i <= k < |steps| && disks[i].marker
    requires forall j :: i <= j < k ==> !Completed(steps[j])
    requires Completed(steps[k]) && WellFormed(steps[k].target)
    ensures ExactlyShows(digest, disks[k + 1].tree, steps[k].target)
    ensures disks[k + 1].tracked == Some(steps[k].target) && !disks[k + 1].marker && !disks[k + 1].setup
  {
    MarkerStays(digest, disks, steps, i, k);
    assert Leads(digest, disks[k], steps[k], disks[k + 1]);
    hide ExactlyShows, ShowsAll, WellFormed;
  }

  /** Cleaning that got anywhere at all is followed by an exact sync, even if the cleaning itself was cut short. */
  lemma InterruptedCleaning(digest: Digest, disks: seq<Disk>, steps: seq<Step>, i: nat, k: nat)
    requires History(digest, disks, steps) && i < k < |steps|
    requires steps[i].Clean? && disks[i + 1] != disks[i]
    requires forall j :: i < j < k ==> !Completed(steps[j])
    requires Completed(steps[k]) && WellFormed(steps[k].target)
    ensures ExactlyShows(digest, disks[k + 1].tree, steps[k].target)
  {
    assert Leads(digest, disks[i], steps[i], disks[i + 1]);
    NextSyncIsExact(digest, disks, steps, i + 1, k);
    hide ExactlyShows, ShowsAll, WellFormed;
  }
}
