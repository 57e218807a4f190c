/**
 The transaction of apply.go in its own form: loops that change the workspace and append to
 the transaction's records. Each method is proved against the functions of ApplySpec.
 */
module ApplyTransactions {
  import opened FileTree
  import opened Entries
  import opened Manifest
  import opened ApplySpec
  import opened ApplyRollback
  import opened RollbackSteps

  /** The directory tree that a transaction works on, and the fault that its calls run into. */
  class Workspace {
    var tree: Tree
    var budget: int
    var outside: bool

    constructor (tree: Tree, budget: int)
      ensures this.tree == tree && this.budget == budget && !outside
    {
      this.tree, this.budget, outside := tree, budget, false;
    }

    /** One mutating call: it fails when the budget is used up. */
    method Call() returns (ok: bool)
      modifies this`budget
      ensures ok <==> old(budget) != 0
      ensures budget == if ok then old(budget) - 1 else old(budget)
    {
      ok := budget != 0;
      if ok {
        budget := budget - 1;
      }
    }
  }

  // ---- Orders ----

  predicate ShallowFirst(order: seq<Path>) {
    forall i, j :: 0 <= i < j < |order| ==> |order[i]| <= |order[j]|
  }

  /** Collects a set of paths in an arbitrary order and sorts them by depth. */
  method SortShallowFirst(paths: set<Path>) returns (order: seq<Path>)
    ensures ShallowFirst(order)
    ensures forall n :: n in order <==> n in paths
    ensures AllDifferent(order)
  {
    order := [];
    var rest := paths;
    while rest != {}
      invariant rest <= paths
      invariant ShallowFirst(order)
      invariant forall n :: n in order <==> n in paths && n !in rest
      invariant AllDifferent(order)
      decreases rest
    {
      var n :| n in rest;
      rest := rest - {n};
      var k := |order|;
      while k > 0 && |order[k - 1]| > |n|
        invariant 0 <= k <= |order|
        invariant forall j :: k <= j < |order| ==> |order[j]| > |n|
      {
        k := k - 1;
      }
      Inserted(order, k, n);
      InsertedElements(order, k, n);
      order := InsertAt(order, k, n);
    }
  }

  ghost predicate AllDifferent(order: seq<Path>) {
    forall i, j :: 0 <= i < j < |order| ==> order[i] != order[j]
  }

  function InsertAt(order: seq<Path>, k: nat, n: Path): (r: seq<Path>)
    requires k <= |order|
    ensures |r| == |order| + 1
  {
    order[..k] + [n] + order[k..]
  }

  lemma InsertedAt(order: seq<Path>, k: nat, n: Path, i: nat)
    requires k <= |order| && i <= |order|
    ensures InsertAt(order, k, n)[i] == if i < k then order[i] else if i == k then n else order[i - 1]
  {
  }

  lemma InsertedElements(order: seq<Path>, k: nat, n: Path)
    requires k <= |order|
    ensures forall m :: m in InsertAt(order, k, n) <==> m in order || m == n
  {
    assert order == order[..k] + order[k..];
  }

  lemma Inserted(order: seq<Path>, k: nat, n: Path)
    requires k <= |order| && ShallowFirst(order) && AllDifferent(order) && n !in order
    requires forall j :: k <= j < |order| ==> |order[j]| > |n|
    requires k > 0 ==> |order[k - 1]| <= |n|
    ensures ShallowFirst(InsertAt(order, k, n)) && AllDifferent(InsertAt(order, k, n))
  {
    hide InsertAt;
    var r := InsertAt(order, k, n);
    forall i, j | 0 <= i < j < |r|
      ensures |r[i]| <= |r[j]| && r[i] != r[j]
    {
      InsertedAt(order, k, n, i);
      InsertedAt(order, k, n, j);
      PairInOrder(order, k, n, i, j);
    }
  }

  lemma PairInOrder(order: seq<Path>, k: nat, n: Path, i: nat, j: nat)
    requires k <= |order| && ShallowFirst(order) && AllDifferent(order) && n !in order && i < j <= |order|
    requires forall m :: k <= m < |order| ==> |order[m]| > |n|
    requires k > 0 ==> |order[k - 1]| <= |n|
    ensures var a := if i < k then order[i] else if i == k then n else order[i - 1];
            var b := if j < k then order[j] else if j == k then n else order[j - 1];
            |a| <= |b| && a != b
  {
    if i < k {
      assert |order[i]| <= |order[k - 1]|;
    }
  }

  // ---- A phase that has failed stays failed ----

  lemma {:induction false} BackupStaysFailed(s: Tx, order: seq<Path>, entries: seq<Entry>, deleted: seq<Path>, k: nat, n: nat)
    requires k <= n <= |order| && forall p :: p in order ==> p != []
    requires BackupAll(s, order, entries, deleted, k).Failed?
    ensures BackupAll(s, order, entries, deleted, n) == BackupAll(s, order, entries, deleted, k)
    decreases n
  {
    if k < n {
      BackupStaysFailed(s, order, entries, deleted, k, n - 1);
    }
  }

  lemma {:induction false} MakeDirsStaysFailed(s: Tx, entries: seq<Entry>, k: nat, n: nat)
    requires k <= n <= |entries| && MakeDirs(s, entries, k).Failed?
    ensures MakeDirs(s, entries, n) == MakeDirs(s, entries, k)
    decreases n
  {
    if k < n {
      MakeDirsStaysFailed(s, entries, k, n - 1);
    }
  }

  lemma {:induction false} ChmodStaysFailed(s: Tx, entries: seq<Entry>, k: nat, n: nat)
    requires k <= n <= |entries| && ChmodDirs(s, entries, k).Failed?
    ensures ChmodDirs(s, entries, n) == ChmodDirs(s, entries, k)
    decreases n
  {
    if k < n {
      ChmodStaysFailed(s, entries, k, n - 1);
    }
  }

  class ApplyTransaction {
    const ws: Workspace
    const stage: map<Path, Node>
    var stash: Tree
    var backups: seq<Path>
    var created: seq<Path>
    var installed: seq<Path>
    var modes: map<Path, nat>

    constructor (ws: Workspace, stage: map<Path, Node>)
      ensures this.ws == ws && this.stage == stage
      ensures stash == map[] && backups == [] && created == [] && installed == [] && modes == map[]
    {
      this.ws, this.stage := ws, stage;
      stash, backups, created, installed, modes := map[], [], [], [], map[];
    }

    /** The transaction and its workspace as one value. */
    function State(): Tx
      reads this, ws
    {
      Tx(ws.tree, stash, backups, created, installed, modes, ws.budget, ws.outside)
    }

    function Result(ok: bool): Outcome
      reads this, ws
    {
      if ok then Done(State()) else Failed(State())
    }

    // ---- Phase 1 ----

    /** rejectSymlinkParents: walks up from the parent of `name`. */
    method RejectSymlinkParents(name: Path) returns (rejected: bool)
      requires name != []
      ensures rejected <==> RejectsParents(ws.tree, Parent(name))
    {
      var parent := Parent(name);
      while parent != []
        invariant RejectsParents(ws.tree, Parent(name)) <==> RejectsParents(ws.tree, parent)
        decreases |parent|
      {
        match Lstat(ws.tree, parent)
        case NotDirectory => return true;
        case Found(Symlink(_)) => return true;
        case _ => parent := Parent(parent);
      }
      rejected := false;
    }

    /** coveredByChangeBackup: scans the backups made so far. */
    method CoveredByChangeBackup(p: Path) returns (covered: bool)
      ensures covered <==> Covered(backups, p)
    {
      for i := 0 to |backups|
        invariant forall k :: 0 <= k < i ==> !AtOrBelow(p, backups[k])
      {
        if AtOrBelow(p, backups[i]) {
          return true;
        }
      }
      covered := false;
    }

    method Backup(n: Path, keepsDir: bool) returns (ok: bool)
      requires n != []
      modifies this`stash, this`backups, ws
      ensures Result(ok) == BackupPath(old(State()), n, keepsDir)
    {
      var rejected := RejectSymlinkParents(n);
      if rejected {
        return false;
      }
      var covered := CoveredByChangeBackup(n);
      if covered {
        return true;
      }
      match Lstat(ws.tree, n)
      case NotExist => return true;
      case NotDirectory => return false;
      case ThroughLink => return false;
      case Found(node) =>
        if keepsDir && node.Dir? {
          return true;
        }
        ok := ws.Call();
        if ok {
          ok := ws.Call();
        }
        if ok {
          stash := stash + Subtree(ws.tree, n);
          ws.tree := RemoveAll(ws.tree, n);
          backups := backups + [n];
        }
    }

    method BackUpTargets(order: seq<Path>, entries: seq<Entry>, deleted: seq<Path>) returns (ok: bool)
      requires forall n :: n in order ==> n != []
      modifies this`stash, this`backups, ws
      ensures Result(ok) == BackupAll(old(State()), order, entries, deleted, |order|)
    {
      hide BackupPath, KeepsDir;
      for i := 0 to |order|
        invariant BackupAll(old(State()), order, entries, deleted, i) == Done(State())
      {
        assert order[i] in order;
        ok := Backup(order[i], KeepsDir(entries, deleted, order[i]));
        assert BackupAll(old(State()), order, entries, deleted, i + 1) == Result(ok);
        if !ok {
          BackupStaysFailed(old(State()), order, entries, deleted, i + 1, |order|);
          return;
        }
      }
      ok := true;
    }

    // ---- Phase 2 ----

    method MkdirAll(p: Path) returns (ok: bool)
      modifies ws
      ensures Result(ok) == ApplySpec.MkdirAll(old(State()), p)
      decreases |p|
    {
      match Lstat(ws.tree, p)
      case Found(Dir(_)) => ok := true;
      case Found(File(_, _)) => ok := false;
      case Found(Symlink(_)) => ws.outside := true; ok := true;
      case ThroughLink => ws.outside := true; ok := true;
      case NotDirectory => ok := false;
      case NotExist =>
        if p == [] {
          return false;
        }
        ok := MkdirAll(Parent(p));
        if ok {
          ok := ws.Call();
        }
        if ok {
          ws.tree := ws.tree[p := Dir(DEFAULT_DIR_MODE)];
        }
    }

    method MakeEntryDir(p: Path) returns (ok: bool)
      modifies this`created, this`modes, ws
      ensures Result(ok) == MakeDir(old(State()), p)
    {
      match Lstat(ws.tree, p) {
        case NotExist => created := created + [p];
        case Found(Dir(mode)) => modes := modes[p := mode];
        case Found(File(_, mode)) => modes := modes[p := mode];
        case _ => return false;
      }
      ok := MkdirAll(p);
    }

    method MakeEntryDirs(entries: seq<Entry>) returns (ok: bool)
      modifies this`created, this`modes, ws
      ensures Result(ok) == MakeDirs(old(State()), entries, |entries|)
    {
      hide MakeDir;
      for i := 0 to |entries|
        invariant MakeDirs(old(State()), entries, i) == Done(State())
      {
        if IsDirEntry(entries[i]) {
          ok := MakeEntryDir(entries[i].path);
          assert MakeDirs(old(State()), entries, i + 1) == Result(ok);
          if !ok {
            MakeDirsStaysFailed(old(State()), entries, i + 1, |entries|);
            return;
          }
        }
      }
      ok := true;
    }

    // ---- Phase 3 ----

    /** Records the missing parents of `target`, deepest first. */
    method NoteMissingParents(target: Path)
      requires target != []
      modifies this`created
      ensures created == old(created) + MissingParents(ws.tree, Parent(target))
    {
      var parent := Parent(target);
      while parent != []
        invariant created + MissingParents(ws.tree, parent) == old(created) + MissingParents(ws.tree, Parent(target))
        decreases |parent|
      {
        if Lstat(ws.tree, parent) != NotExist {
          return;
        }
        created := created + [parent];
        parent := Parent(parent);
      }
    }

    method Rename(target: Path, node: Node) returns (ok: bool)
      requires target != []
      modifies this`installed, ws
      ensures Result(ok) == RenameInto(old(State()), target, node)
    {
      if ws.budget == 0 || (Lstat(ws.tree, target).Found? && ws.tree[target].Dir?) {
        return false;
      }
      match Lstat(ws.tree, Parent(target))
      case Found(Dir(_)) =>
        ok := ws.Call();
        ws.tree := ws.tree[target := node];
        installed := installed + [target];
      case _ => ok := false;
    }

    method InstallStaged(target: Path) returns (ok: bool)
      requires target != [] && target in stage
      modifies this`created, this`installed, ws
      ensures Result(ok) == InstallEntry(old(State()), stage, target)
    {
      NoteMissingParents(target);
      ok := MkdirAll(Parent(target));
      if ok {
        ok := Rename(target, stage[target]);
      }
    }

    method InstallAll(entries: seq<Entry>) returns (ok: bool)
      requires Staged(entries, stage)
      modifies this`created, this`installed, ws
      ensures Result(ok) == Install(old(State()), stage, entries, |entries|)
    {
      hide InstallEntry;
      for i := 0 to |entries|
        invariant Install(old(State()), stage, entries, i) == Done(State())
      {
        assert entries[i] in entries;
        if entries[i].kind != KindDir {
          ok := InstallStaged(entries[i].path);
          assert Install(old(State()), stage, entries, i + 1) == Result(ok);
          if !ok {
            InstallStaysFailed(old(State()), stage, entries, i + 1, |entries|);
            return;
          }
        }
      }
      ok := true;
    }

    // ---- Phase 4 ----

    method ChmodEntryDir(p: Path, mode: nat) returns (ok: bool)
      modifies ws
      ensures Result(ok) == ChmodDir(old(State()), p, mode)
    {
      if ws.budget == 0 {
        return false;
      }
      match Lstat(ws.tree, p)
      case Found(Symlink(_)) => ok := ws.Call(); ws.outside := true;
      case ThroughLink => ok := ws.Call(); ws.outside := true;
      case Found(_) => ok := ws.Call(); ws.tree := Chmod(ws.tree, p, mode);
      case _ => ok := false;
    }

    method ChmodEntryDirs(entries: seq<Entry>) returns (ok: bool)
      modifies ws
      ensures Result(ok) == ChmodDirs(old(State()), entries, |entries|)
    {
      hide ChmodDir;
      for i := 0 to |entries|
        invariant ChmodDirs(old(State()), entries, i) == Done(State())
      {
        if IsDirEntry(entries[i]) {
          ok := ChmodEntryDir(entries[i].path, FileMode(entries[i].mode, DEFAULT_DIR_MODE));
          assert ChmodDirs(old(State()), entries, i + 1) == Result(ok);
          if !ok {
            ChmodStaysFailed(old(State()), entries, i + 1, |entries|);
            return;
          }
        }
      }
      ok := true;
    }

    /** The four phases. The backup order is whatever order of increasing depth the sort comes up with. */
    method Commit(entries: seq<Entry>, deleted: seq<Path>) returns (ok: bool, ghost order: seq<Path>)
      requires Staged(entries, stage)
      modifies this, ws
      ensures IsBackupOrder(order, entries, deleted)
      ensures Result(ok) == ApplySpec.Commit(old(State()), stage, order, entries, deleted)
    {
      var targets := (set n | n in deleted && n != []) + (set n | n in PathsOf(entries) && n != []);
      var paths := SortShallowFirst(targets);
      order := paths;
      ok := BackUpTargets(paths, entries, deleted);
      if ok {
        ok := MakeEntryDirs(entries);
      }
      if ok {
        ok := InstallAll(entries);
      }
      if ok {
        ok := ChmodEntryDirs(entries);
      }
    }

    // ---- Rollback ----

    method RemoveInstalled(ghost original: Tree, ghost entries: seq<Entry>)
      requires CommitInv(original, entries, State())
      modifies ws`tree
      ensures ws.tree == Uninstalled(old(State()), |installed|)
    {
      for i := 0 to |installed|
        invariant ws.tree == Uninstalled(old(State()), i)
      {
        UninstallStep(original, entries, old(State()), i);
        ws.tree := RemoveAll(ws.tree, installed[i]);
      }
    }

    /** Puts one stored node back over whatever is at its path. */
    method RestoreBackup(b: Path)
      requires b != []
      requires Lstat(RemoveAll(ws.tree, b), Parent(b)).Found? && Lstat(RemoveAll(ws.tree, b), Parent(b)).node.Dir?
      modifies ws
      ensures State() == old(State()).(tree := RemoveAll(old(ws.tree), b) + Subtree(stash, b))
    {
      hide RemoveAll, Subtree, Lstat;
      ws.tree := RemoveAll(ws.tree, b);
      var _ := MkdirAll(Parent(b));
      ws.tree := ws.tree + Subtree(stash, b);
    }

    method RestoreBackups(ghost original: Tree, ghost entries: seq<Entry>, ghost s: Tx)
      requires CommitInv(original, entries, s)
      requires State() == s.(tree := Uninstalled(s, |s.installed|))
      modifies ws
      ensures State() == s.(tree := Unstashed(s))
    {
      hide CommitInv, Restored, Uninstalled, Unstashed, RemoveAll, Subtree, Lstat;
      RestoreBegin(s);
      for i := 0 to |backups|
        invariant State() == s.(tree := Restored(s, i))
      {
        RestoreStep(original, entries, s, i);
        BackupParentThere(original, entries, s, i);
        RestoreBackup(backups[i]);
      }
      RestoreEnd(s);
    }

    /** A chmod that a link leads away may set the mode of any node, or of nothing in the workspace. */
    method ResetModes(ghost start: Tree)
      requires ws.tree == start
      requires forall p :: p in modes && FollowsLink(start, p) ==> modes[p] == DEFAULT_DIR_MODE
      modifies ws
      ensures (forall p :: p in modes ==> !FollowsLink(start, p)) ==> ws.tree == Rechmodded(start, modes)
      ensures ModesMoved(start, modes, {}, ws.tree) && ws.budget == old(ws.budget)
      ensures ws.outside == (old(ws.outside) || exists p :: p in modes && FollowsLink(start, p))
    {
      var rest := modes.Keys;
      assert ModesSet(start, modes, rest) == start;
      while rest != {}
        invariant rest <= modes.Keys && ws.budget == old(ws.budget)
        invariant ModesMoved(start, modes, rest, ws.tree)
        invariant (forall p :: p in modes && p !in rest ==> !FollowsLink(start, p)) ==> ws.tree == ModesSet(start, modes, rest)
        invariant ws.outside == (old(ws.outside) || exists p :: p in modes && p !in rest && FollowsLink(start, p))
        decreases rest
      {
        hide FollowsLink, ModesMoved, ModesSet, Chmod;
        var p :| p in rest;
        ModesStep(start, modes, rest, p);
        ModesMove(start, modes, rest, ws.tree, p);
        if FollowsLink(ws.tree, p) {
          ws.outside := true;
          var place: Path := *;
          ws.tree := Chmod(ws.tree, place, modes[p]);
        } else {
          ws.tree := Chmod(ws.tree, p, modes[p]);
        }
        rest := rest - {p};
      }
      assert modes - {} == modes;
    }

    /** A removal that a link leads away may remove any node that has nothing below it, or none. */
    method RemoveCreated(ghost start: Tree) returns (ghost gone: set<Path>)
      requires ws.tree == start && Closed(start) && [] !in created
      modifies ws
      ensures (forall p :: p in created ==> Lstat(start, p) != ThroughLink) ==> ws.tree == Pruned(start, Elements(created)) && gone == {}
      ensures Shrunk(start, Elements(created), gone, ws.tree) && |gone| <= |created| && ws.budget == old(ws.budget)
      ensures ws.outside == (old(ws.outside) || exists p :: p in created && Lstat(start, p) == ThroughLink)
    {
      var order := SortByDepth(created);
      SameElements(order, created);
      assert Elements(order) == Elements(created);
      assert |order| == |multiset(order)| == |created|;
      RemoveBegin(start, order);
      gone := {};
      hide RemovedSoFar, Lstat, Remove, Closed, Removable, DeepestFirst, Shrunk, StillDirect;
      for i := 0 to |order|
        invariant Shrunk(start, Elements(order), gone, ws.tree) && |gone| <= i && ws.budget == old(ws.budget)
        invariant StillDirect(start, order[..i]) ==> ws.tree == RemovedSoFar(start, Elements(order), order[..i]) && gone == {}
        invariant ws.outside == (old(ws.outside) || !StillDirect(start, order[..i]))
      {
        RemoveStep(start, order, i);
        RemoveLookup(start, order, i);
        DirectStep(start, order, i);
        var place := order[i];
        if Lstat(ws.tree, order[i]) == ThroughLink {
          ws.outside := true;
          place := *;
        }
        ShrinkOne(start, Elements(order), gone, ws.tree, place);
        if place !in Elements(order) {
          gone := gone + {place};
        }
        ws.tree := Remove(ws.tree, place);
      }
      RemoveEnd(start, created, order);
    }

    /**
     Undoes a stopped commit. Its own calls do not fail here, but they can be resolved through links
     that are back in place: then they act on whatever the link leads to.
     */
    method Rollback(ghost original: Tree, ghost entries: seq<Entry>) returns (ghost gone: set<Path>)
      requires CommitInv(original, entries, State())
      modifies ws
      ensures !RollbackLeavesTree(old(State())) ==> ws.tree == RolledBack(old(State())) && gone == {}
      ensures LittleLost(original, entries, gone, ws.tree) && |gone| <= |created|
      ensures ws.outside == (old(ws.outside) || RollbackLeavesTree(old(State())))
    {
      hide CommitInv, Unstashed, Uninstalled, Rechmodded, Pruned, ModesMoved, Shrunk, LittleLost, FollowsLink, Lstat, Closed, Elements;
      ghost var s := State();
      RemoveInstalled(original, entries);
      RestoreBackups(original, entries, s);
      FollowedModes(original, entries, s);
      ResetModes(Unstashed(s));
      ghost var moved := ws.tree;
      RollbackReady(original, entries, s, moved);
      gone := RemoveCreated(moved);
      RollbackLosesLittle(original, entries, s, moved, gone, ws.tree);
    }
  }

  lemma FollowedModes(original: Tree, entries: seq<Entry>, s: Tx)
    requires CommitInv(original, entries, s)
    ensures forall p :: p in s.modes && FollowsLink(Unstashed(s), p) ==> s.modes[p] == DEFAULT_DIR_MODE
  {
    hide CommitInv, FollowsLink, Unstashed;
    forall p | p in s.modes && FollowsLink(Unstashed(s), p)
      ensures s.modes[p] == DEFAULT_DIR_MODE
    {
      RecordedMeaning(original, entries, s, p);
    }
  }

  /** No removal of a recorded path has been led away by a link. */
  ghost predicate StillDirect(start: Tree, done: seq<Path>) {
    forall p :: p in done ==> Lstat(start, p) != ThroughLink
  }

  lemma RemoveBegin(start: Tree, order: seq<Path>)
    ensures Shrunk(start, Elements(order), {}, start) && StillDirect(start, order[..0])
    ensures RemovedSoFar(start, Elements(order), order[..0]) == start
  {
  }

  lemma RemoveEnd(start: Tree, created: seq<Path>, order: seq<Path>)
    requires Elements(order) == Elements(created)
    ensures StillDirect(start, order[..|order|]) <==> forall p :: p in created ==> Lstat(start, p) != ThroughLink
    ensures RemovedSoFar(start, Elements(order), order[..|order|]) == Pruned(start, Elements(created))
  {
    hide Lstat;
    assert order[..|order|] == order;
    assert forall p :: p in order <==> p in Elements(created);
    assert forall p :: Removable(start, Elements(created), p) ==> p in order;
    hide Removable;
  }

  lemma DirectStep(start: Tree, order: seq<Path>, i: nat)
    requires i < |order|
    ensures StillDirect(start, order[..i + 1]) <==> StillDirect(start, order[..i]) && Lstat(start, order[i]) != ThroughLink
  {
    assert order[..i + 1] == order[..i] + [order[i]];
    hide Lstat;
  }

  /** Setting modes changes no lookup, and recorded directories are not the root. */
  lemma RollbackReady(original: Tree, entries: seq<Entry>, s: Tx, w: Tree)
    requires CommitInv(original, entries, s) && ModesMoved(Unstashed(s), s.modes, {}, w)
    ensures Closed(w) && [] !in s.created
    ensures forall p :: Lstat(w, p) == ThroughLink <==> Lstat(Unstashed(s), p) == ThroughLink
  {
    UnstashedClosed(original, entries, s);
    assert [] !in s.created;
    MovedShape(Unstashed(s), s.modes, {}, w);
    hide CommitInv, Unstashed, ModesMoved;
    SameShapeLookups(Unstashed(s), w);
  }

  lemma SameShapeLookups(u: Tree, w: Tree)
    requires SameShape(u, w)
    ensures Closed(u) ==> Closed(w)
    ensures forall p :: Lstat(w, p) == ThroughLink <==> Lstat(u, p) == ThroughLink
  {
    forall p
      ensures Lstat(w, p) == ThroughLink <==> Lstat(u, p) == ThroughLink
    {
      ShapeLookup(u, w, p);
    }
    hide Lstat;
  }
}
