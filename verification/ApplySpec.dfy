/**
 The apply transaction as a pure step function: what commit does to the workspace tree and
 to its own records, up to the first filesystem call that fails.

 `budget` counts the mutating calls that still succeed; the call made at budget zero fails.
 A negative budget never runs out.
 */
module ApplySpec {
  import opened FileTree
  import opened Entries

  datatype Tx = Tx(
    tree: Tree, // the workspace
    stash: Tree, // backed-up nodes, under their original paths
    backups: seq<Path>,
    created: seq<Path>,
    installed: seq<Path>,
    modes: map<Path, nat>,
    budget: int,
    outside: bool) // some mutating call was resolved through a symbolic link

  datatype Outcome = Done(tx: Tx) | Failed(tx: Tx)

  function Begin(tree: Tree, budget: int): Tx {
    Tx(tree, map[], [], [], [], map[], budget, false)
  }

  function Spend(s: Tx): Tx {
    s.(budget := s.budget - 1)
  }

  // ---- Phase 1: back up what is deleted or replaced ----

  predicate Covered(backups: seq<Path>, p: Path) {
    exists b :: b in backups && AtOrBelow(p, b)
  }

  /** rejectSymlinkParents: walks from `p` up to, but not including, the root. */
  predicate RejectsParents(t: Tree, p: Path)
    decreases |p|
  {
    p != [] &&
    match Lstat(t, p)
    case NotExist => RejectsParents(t, Parent(p))
    case NotDirectory => true
    case Found(node) => node.Symlink? || RejectsParents(t, Parent(p))
    case ThroughLink => RejectsParents(t, Parent(p))
  }

  predicate KeepsDir(entries: seq<Entry>, deleted: seq<Path>, n: Path) {
    n !in deleted && n in DirPaths(entries)
  }

  function MoveToStash(s: Tx, n: Path): Tx {
    s.(tree := RemoveAll(s.tree, n),
       stash := s.stash + Subtree(s.tree, n),
       backups := s.backups + [n])
  }

  function BackupPath(s: Tx, n: Path, keepsDir: bool): Outcome
    requires n != []
  {
    if RejectsParents(s.tree, Parent(n)) then Failed(s)
    else if Covered(s.backups, n) then Done(s)
    else match Lstat(s.tree, n)
      case NotExist => Done(s)
      case NotDirectory => Failed(s)
      case ThroughLink => Failed(s)
      case Found(node) =>
        if keepsDir && node.Dir? then Done(s)
        else if s.budget == 0 then Failed(s) // the directory for the stored copy
        else if Spend(s).budget == 0 then Failed(Spend(s)) // the rename
        else Done(MoveToStash(Spend(Spend(s)), n))
  }

  function BackupAll(s: Tx, order: seq<Path>, entries: seq<Entry>, deleted: seq<Path>, k: nat): Outcome
    requires k <= |order| && forall n :: n in order ==> n != []
  {
    if k == 0 then Done(s)
    else match BackupAll(s, order, entries, deleted, k - 1)
      case Failed(f) => Failed(f)
      case Done(m) =>
        assert order[k - 1] in order;
        BackupPath(m, order[k - 1], KeepsDir(entries, deleted, order[k - 1]))
  }

  // ---- Phase 2: make the wanted directories ----

  /** os.MkdirAll: one mkdir call for each missing directory, outermost first. */
  function MkdirAll(s: Tx, p: Path): Outcome
    decreases |p|
  {
    match Lstat(s.tree, p)
    case Found(Dir(_)) => Done(s)
    case Found(File(_, _)) => Failed(s)
    case Found(Symlink(_)) => Done(s.(outside := true))
    case ThroughLink => Done(s.(outside := true))
    case NotDirectory => Failed(s)
    case NotExist =>
      if p == [] then Failed(s)
      else match MkdirAll(s, Parent(p))
        case Failed(f) => Failed(f)
        case Done(m) =>
          if m.budget == 0 then Failed(m)
          else Done(Spend(m).(tree := m.tree[p := Dir(DEFAULT_DIR_MODE)]))
  }

  /** What commit notes about a directory entry before it makes the directory. */
  function NoteDir(s: Tx, p: Path): Outcome {
    match Lstat(s.tree, p)
    case NotExist => Done(s.(created := s.created + [p]))
    case Found(Dir(mode)) => Done(s.(modes := s.modes[p := mode]))
    case Found(File(_, mode)) => Done(s.(modes := s.modes[p := mode]))
    case _ => Failed(s)
  }

  function MakeDir(s: Tx, p: Path): Outcome {
    match NoteDir(s, p)
    case Failed(f) => Failed(f)
    case Done(m) => MkdirAll(m, p)
  }

  predicate IsDirEntry(e: Entry) {
    e.kind == KindDir && e.path != []
  }

  function MakeDirs(s: Tx, entries: seq<Entry>, k: nat): Outcome
    requires k <= |entries|
  {
    if k == 0 then Done(s)
    else match MakeDirs(s, entries, k - 1)
      case Failed(f) => Failed(f)
      case Done(m) => if IsDirEntry(entries[k - 1]) then MakeDir(m, entries[k - 1].path) else Done(m)
  }

  // ---- Phase 3: move staged files and links into place ----

  /** The missing parents from `p` upwards, in the order in which commit records them. */
  function MissingParents(t: Tree, p: Path): seq<Path>
    decreases |p|
  {
    if p == [] || Lstat(t, p) != NotExist then [] else [p] + MissingParents(t, Parent(p))
  }

  function RenameInto(s: Tx, p: Path, node: Node): Outcome
    requires p != []
  {
    if s.budget == 0 || (Lstat(s.tree, p).Found? && s.tree[p].Dir?) then Failed(s)
    else match Lstat(s.tree, Parent(p))
      case Found(Dir(_)) => Done(Spend(s).(tree := s.tree[p := node], installed := s.installed + [p]))
      case _ => Failed(s)
  }

  function InstallEntry(s: Tx, stage: map<Path, Node>, p: Path): Outcome
    requires p != [] && p in stage
  {
    var noted := s.(created := s.created + MissingParents(s.tree, Parent(p)));
    match MkdirAll(noted, Parent(p))
    case Failed(f) => Failed(f)
    case Done(m) => RenameInto(m, p, stage[p])
  }

  ghost predicate Staged(entries: seq<Entry>, stage: map<Path, Node>) {
    forall e :: e in entries && e.kind != KindDir ==>
      e.path != [] && e.path in stage && !stage[e.path].Dir?
  }

  function Install(s: Tx, stage: map<Path, Node>, entries: seq<Entry>, k: nat): Outcome
    requires k <= |entries| && Staged(entries, stage)
  {
    if k == 0 then Done(s)
    else match Install(s, stage, entries, k - 1)
      case Failed(f) => Failed(f)
      case Done(m) =>
        var e := entries[k - 1];
        assert e in entries;
        if e.kind != KindDir then InstallEntry(m, stage, e.path) else Done(m)
  }

  /** An install that has failed stays failed. */
  lemma {:induction false} InstallStaysFailed(s: Tx, stage: map<Path, Node>, entries: seq<Entry>, k: nat, n: nat)
    requires k <= n <= |entries| && Staged(entries, stage) && Install(s, stage, entries, k).Failed?
    ensures Install(s, stage, entries, n) == Install(s, stage, entries, k)
    decreases n
  {
    if k < n {
      InstallStaysFailed(s, stage, entries, k, n - 1);
    }
  }

  // ---- Phase 4: give the directories their modes ----

  function ChmodDir(s: Tx, p: Path, mode: nat): Outcome {
    if s.budget == 0 then Failed(s)
    else match Lstat(s.tree, p)
      case Found(Symlink(_)) => Done(Spend(s).(outside := true))
      case ThroughLink => Done(Spend(s).(outside := true))
      case Found(_) => Done(Spend(s).(tree := Chmod(s.tree, p, mode)))
      case _ => Failed(s)
  }

  function ChmodDirs(s: Tx, entries: seq<Entry>, k: nat): Outcome
    requires k <= |entries|
  {
    if k == 0 then Done(s)
    else match ChmodDirs(s, entries, k - 1)
      case Failed(f) => Failed(f)
      case Done(m) =>
        var e := entries[k - 1];
        if IsDirEntry(e) then ChmodDir(m, e.path, FileMode(e.mode, DEFAULT_DIR_MODE)) else Done(m)
  }

  // ---- The whole commit ----

  /** A change set as commit receives it: the backup order is any order of increasing depth. */
  ghost predicate IsBackupOrder(order: seq<Path>, entries: seq<Entry>, deleted: seq<Path>) {
    && (forall n :: n in order <==> n != [] && (n in deleted || n in PathsOf(entries)))
    && (forall i, j :: 0 <= i < j < |order| ==> order[i] != order[j])
    && (forall i, j :: 0 <= i < j < |order| ==> |order[i]| <= |order[j]|)
  }

  /** What cleanApplyChanges guarantees about the entries it lets through. */
  ghost predicate CleanEntries(entries: seq<Entry>) {
    && UniquePaths(entries)
    && (forall e :: e in entries ==> !e.kind.KindOther? && (e.path == [] ==> e.kind == KindDir))
    && (forall e, f :: e in entries && f in entries && Below(f.path, e.path) && e.path != [] ==> e.kind == KindDir)
  }

  /** The first three phases. */
  ghost function UntilInstalled(s: Tx, stage: map<Path, Node>, order: seq<Path>, entries: seq<Entry>, deleted: seq<Path>): Outcome
    requires IsBackupOrder(order, entries, deleted) && Staged(entries, stage)
  {
    match BackupAll(s, order, entries, deleted, |order|)
    case Failed(f) => Failed(f)
    case Done(m) =>
      match MakeDirs(m, entries, |entries|)
      case Failed(f) => Failed(f)
      case Done(d) => Install(d, stage, entries, |entries|)
  }

  ghost function Commit(s: Tx, stage: map<Path, Node>, order: seq<Path>, entries: seq<Entry>, deleted: seq<Path>): Outcome
    requires IsBackupOrder(order, entries, deleted) && Staged(entries, stage)
  {
    match UntilInstalled(s, stage, order, entries, deleted)
    case Failed(f) => Failed(f)
    case Done(m) => ChmodDirs(m, entries, |entries|)
  }

  // ---- Rollback ----

  /** The tree once installed paths are removed and every backup is back in place. */
  function Unstashed(s: Tx): Tree {
    map p | p in s.tree.Keys + s.stash.Keys &&
            (if Covered(s.backups, p) then p in s.stash else p in s.tree && p !in s.installed)
      :: if Covered(s.backups, p) then s.stash[p] else s.tree[p]
  }

  /** A chmod that follows a link, or a lookup that passes through one. */
  predicate FollowsLink(t: Tree, p: Path) {
    match Lstat(t, p)
    case ThroughLink => true
    case Found(node) => node.Symlink?
    case _ => false
  }

  function Rechmodded(t: Tree, modes: map<Path, nat>): Tree {
    map p | p in t :: if p in modes then WithMode(t[p], modes[p]) else t[p]
  }

  /** Deepest-first removal deletes a recorded path exactly when all that lies below it is recorded too. */
  predicate Removable(t: Tree, created: set<Path>, p: Path) {
    p in created && forall q :: q in t && AtOrBelow(q, p) ==> q in created
  }

  function Pruned(t: Tree, created: set<Path>): Tree {
    map p | p in t && !Removable(t, created, p) :: t[p]
  }

  function Elements(s: seq<Path>): set<Path> {
    set p | p in s
  }

  /** The tree after rollback, as long as no call of it is resolved through a link. */
  function RolledBack(s: Tx): Tree {
    Pruned(Rechmodded(Unstashed(s), s.modes), Elements(s.created))
  }

  /** Some call of the rollback is resolved through a link of the restored tree. */
  predicate RollbackLeavesTree(s: Tx) {
    || (exists p :: p in s.modes && FollowsLink(Unstashed(s), p))
    || (exists p :: p in s.created && Lstat(Unstashed(s), p) == ThroughLink)
  }

  /**
   Rollback put the original tree back and touched nothing else. A call that is resolved through a link
   counts as touching something else, even if the link leads to nothing.
   */
  predicate Restores(s: Tx, original: Tree) {
    RolledBack(s) == original && !RollbackLeavesTree(s) && !s.outside
  }
}
