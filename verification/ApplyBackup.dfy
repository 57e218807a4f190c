/** The backup phase: which paths it moves aside, and when it refuses to go on. */
module ApplyBackup {
  import opened FileTree
  import opened Entries
  import opened ApplySpec
  import opened ApplyRollback

  ghost predicate IsTarget(entries: seq<Entry>, deleted: seq<Path>, n: Path) {
    n != [] && (n in deleted || n in PathsOf(entries))
  }

  /** The node at `n` is deleted, or replaced by something a directory entry cannot keep. */
  ghost predicate Replaced(original: Tree, entries: seq<Entry>, deleted: seq<Path>, n: Path) {
    IsTarget(entries, deleted, n) && n in original && !(KeepsDir(entries, deleted, n) && original[n].Dir?)
  }

  /** `p` lies at or below a path that is deleted or replaced. */
  ghost predicate Displaced(original: Tree, entries: seq<Entry>, deleted: seq<Path>, p: Path) {
    exists n :: Replaced(original, entries, deleted, n) && AtOrBelow(p, n)
  }

  /** `n` lies below a file or link that stays where it is. */
  ghost predicate BlockedAt(original: Tree, entries: seq<Entry>, deleted: seq<Path>, n: Path) {
    exists a :: a in original && Below(n, a) && !original[a].Dir? && !Displaced(original, entries, deleted, a)
  }

  ghost predicate Blocked(original: Tree, entries: seq<Entry>, deleted: seq<Path>) {
    exists n :: IsTarget(entries, deleted, n) && BlockedAt(original, entries, deleted, n)
  }

  lemma {:induction false} RejectsMeaning(t: Tree, p: Path)
    requires Closed(t)
    ensures RejectsParents(t, p) <==>
              || (exists a :: a in t && AtOrBelow(p, a) && t[a].Symlink?)
              || (exists a :: a in t && Below(p, a) && t[a].File?)
    decreases |p|
  {
    LstatMeaning(t, p);
    if p == [] {
      forall a | AtOrBelow(p, a)
        ensures a == []
      {
      }
    } else {
      var up := Parent(p);
      RejectsMeaning(t, up);
      forall a
        ensures AtOrBelow(p, a) <==> a == p || AtOrBelow(up, a)
        ensures Below(p, a) <==> a == up || Below(up, a)
      {
        if Below(p, a) {
          ParentIsAbove(p, a);
        }
        if AtOrBelow(up, a) {
          assert AtOrBelow(p, up);
          AtOrBelowTransitive(p, up, a);
        }
      }
      if p in t {
        AncestorsAreDirs(t, p, up);
      }
    }
  }

  /** The parents of a target let the backup go on exactly when they are all directories. */
  lemma BackupRefusal(t: Tree, n: Path)
    requires Closed(t) && n != []
    ensures (RejectsParents(t, Parent(n)) || Lstat(t, n) == NotDirectory || Lstat(t, n) == ThroughLink) <==>
              exists a :: a in t && Below(n, a) && !t[a].Dir?
  {
    var up := Parent(n);
    RejectsMeaning(t, up);
    LstatMeaning(t, n);
    forall a
      ensures Below(n, a) <==> AtOrBelow(up, a)
    {
      if Below(n, a) {
        ParentIsAbove(n, a);
      }
      if AtOrBelow(up, a) {
        assert AtOrBelow(n, up);
        AtOrBelowTransitive(n, up, a);
      }
    }
  }

  /** The state of a backup phase that has gone through the first `k` paths of its order. */
  ghost predicate BackedUp(original: Tree, entries: seq<Entry>, deleted: seq<Path>, order: seq<Path>, k: nat, s: Tx)
    requires k <= |order|
  {
    && CommitInv(original, entries, s)
    && OnlyBackups(original, s)
    && (forall b :: b in s.backups ==> Replaced(original, entries, deleted, b) && b in order[..k])
    && (forall i :: 0 <= i < k && Replaced(original, entries, deleted, order[i]) ==> Covered(s.backups, order[i]))
    && (forall i :: 0 <= i < k ==> !BlockedAt(original, entries, deleted, order[i]))
  }

  /** Above the next path of the order, "backed up" and "displaced" already coincide. */
  lemma CoveredIsDisplaced(original: Tree, entries: seq<Entry>, deleted: seq<Path>, order: seq<Path>, k: nat, s: Tx, p: Path)
    requires IsBackupOrder(order, entries, deleted) && k <= |order|
    requires BackedUp(original, entries, deleted, order, k, s)
    requires k < |order| ==> |p| < |order[k]|
    ensures Covered(s.backups, p) <==> Displaced(original, entries, deleted, p)
  {
    if n :| Replaced(original, entries, deleted, n) && AtOrBelow(p, n) {
      assert n in order;
      var i :| 0 <= i < |order| && order[i] == n;
      assert i < k;
      CoveredDown(s.backups, n, p);
    }
  }

  lemma BlockedInTree(original: Tree, entries: seq<Entry>, deleted: seq<Path>, order: seq<Path>, k: nat, s: Tx)
    requires IsBackupOrder(order, entries, deleted) && k < |order|
    requires BackedUp(original, entries, deleted, order, k, s)
    ensures (exists a :: a in s.tree && Below(order[k], a) && !s.tree[a].Dir?) <==>
              BlockedAt(original, entries, deleted, order[k])
  {
    forall a | Below(order[k], a)
      ensures Covered(s.backups, a) <==> Displaced(original, entries, deleted, a)
    {
      CoveredIsDisplaced(original, entries, deleted, order, k, s, a);
    }
  }

  /** The tree is the original without its backed-up part, and nothing else is recorded yet. */
  ghost predicate OnlyBackups(original: Tree, s: Tx) {
    && s.created == [] && s.installed == [] && s.modes == map[]
    && s.tree == map p | p in original && !Covered(s.backups, p) :: original[p]
  }

  lemma OnlyBackupsInv(original: Tree, entries: seq<Entry>, s: Tx)
    requires Closed(original) && Closed(s.tree) && BackupsApart(original, s.backups) && StashExact(original, s)
    requires OnlyBackups(original, s) && !s.outside
    ensures CommitInv(original, entries, s)
  {
  }

  lemma CoveredAfterMove(s: Tx, n: Path, p: Path)
    ensures Covered(MoveToStash(s, n).backups, p) <==> Covered(s.backups, p) || AtOrBelow(p, n)
  {
    var after := MoveToStash(s, n).backups;
    if b :| b in s.backups && AtOrBelow(p, b) {
      assert b in after;
    }
    assert n in after;
  }

  lemma MoveSplitsAt(original: Tree, s: Tx, n: Path, p: Path)
    requires StashExact(original, s) && OnlyBackups(original, s)
    ensures var r := MoveToStash(s, n);
            && (p in r.stash <==> p in original && Covered(r.backups, p))
            && (p in r.stash ==> r.stash[p] == original[p])
            && (p in r.tree <==> p in original && !Covered(r.backups, p))
            && (p in r.tree ==> r.tree[p] == original[p])
  {
    CoveredAfterMove(s, n, p);
    hide Covered, AtOrBelow;
  }

  lemma MoveSplitsTree(original: Tree, s: Tx, n: Path)
    requires StashExact(original, s) && OnlyBackups(original, s)
    ensures StashExact(original, MoveToStash(s, n)) && OnlyBackups(original, MoveToStash(s, n))
  {
    var r := MoveToStash(s, n);
    forall p
      ensures p in r.stash <==> p in original && Covered(r.backups, p)
      ensures p in r.stash ==> r.stash[p] == original[p]
      ensures p in r.tree <==> p in original && !Covered(r.backups, p)
      ensures p in r.tree ==> r.tree[p] == original[p]
    {
      MoveSplitsAt(original, s, n, p);
    }
    assert r.created == [] && r.installed == [] && r.modes == map[];
    hide Covered, MoveToStash, StashExact, OnlyBackups;
    StashPointwise(original, r);
    TreePointwise(original, r);
  }

  lemma StashPointwise(original: Tree, r: Tx)
    requires forall p :: p in r.stash <==> p in original && Covered(r.backups, p)
    requires forall p :: p in r.stash ==> r.stash[p] == original[p]
    ensures StashExact(original, r)
  {
    hide Covered;
  }

  lemma TreePointwise(original: Tree, r: Tx)
    requires r.created == [] && r.installed == [] && r.modes == map[]
    requires forall p :: p in r.tree <==> p in original && !Covered(r.backups, p)
    requires forall p :: p in r.tree ==> r.tree[p] == original[p]
    ensures OnlyBackups(original, r)
  {
    hide Covered;
  }

  lemma MoveKeepsApart(original: Tree, s: Tx, n: Path)
    requires BackupsApart(original, s.backups) && n != [] && n in original && !Covered(s.backups, n)
    requires forall b :: b in s.backups ==> |b| <= |n|
    ensures BackupsApart(original, MoveToStash(s, n).backups)
  {
    var r := MoveToStash(s, n);
    forall b, c | b in r.backups && c in r.backups && AtOrBelow(b, c)
      ensures b == c
    {
      if c == n && b in s.backups {
        assert false;
      }
    }
    assert AtOrBelow(n, n);
  }

  /** Moving an uncovered existing node aside keeps the whole invariant. */
  lemma MoveKeepsInv(original: Tree, entries: seq<Entry>, s: Tx, n: Path)
    requires CommitInv(original, entries, s) && OnlyBackups(original, s) && n != [] && n in s.tree
    requires forall b :: b in s.backups ==> |b| <= |n|
    ensures CommitInv(original, entries, MoveToStash(s, n)) && OnlyBackups(original, MoveToStash(s, n))
  {
    MoveSplitsTree(original, s, n);
    MoveKeepsApart(original, s, n);
    RemoveAllClosed(s.tree, n);
    hide StashExact, OnlyBackups, BackupsApart, Closed;
    OnlyBackupsInv(original, entries, MoveToStash(s, n));
  }

  lemma BackupStepMoves(original: Tree, entries: seq<Entry>, deleted: seq<Path>, order: seq<Path>, k: nat, s: Tx)
    requires IsBackupOrder(order, entries, deleted) && k < |order|
    requires BackedUp(original, entries, deleted, order, k, s)
    requires !BlockedAt(original, entries, deleted, order[k]) && order[k] in s.tree
    requires Replaced(original, entries, deleted, order[k])
    ensures BackedUp(original, entries, deleted, order, k + 1, MoveToStash(s, order[k]))
  {
    hide CommitInv, OnlyBackups, BlockedAt, Replaced, Covered;
    var n := order[k];
    assert n in order;
    BackupsShallow(original, entries, deleted, order, k, s);
    MoveKeepsInv(original, entries, s, n);
    assert order[..k + 1] == order[..k] + [n];
    forall i | 0 <= i <= k
      ensures Covered(s.backups, order[i]) || i == k ==> Covered(MoveToStash(s, n).backups, order[i])
    {
      CoveredAfterMove(s, n, order[i]);
      assert AtOrBelow(n, n);
    }
  }

  lemma BackupsShallow(original: Tree, entries: seq<Entry>, deleted: seq<Path>, order: seq<Path>, k: nat, s: Tx)
    requires IsBackupOrder(order, entries, deleted) && k < |order|
    requires BackedUp(original, entries, deleted, order, k, s)
    ensures forall b :: b in s.backups ==> |b| <= |order[k]|
  {
    hide CommitInv, OnlyBackups, BlockedAt, Replaced, Covered;
    forall b | b in s.backups
      ensures |b| <= |order[k]|
    {
      var i :| 0 <= i < k && order[..k][i] == b;
    }
  }

  ghost predicate BackupOutcome(original: Tree, entries: seq<Entry>, deleted: seq<Path>, order: seq<Path>, k: nat, o: Outcome)
    requires k <= |order|
  {
    && (o.Done? ==> BackedUp(original, entries, deleted, order, k, o.tx))
    && (o.Failed? ==> CommitInv(original, entries, o.tx) && OnlyBackups(original, o.tx))
    && (o.Failed? && o.tx.budget < 0 ==> Blocked(original, entries, deleted))
  }

  lemma SpendKeepsBackedUp(original: Tree, entries: seq<Entry>, deleted: seq<Path>, order: seq<Path>, k: nat, s: Tx, budget: int)
    requires k <= |order| && BackedUp(original, entries, deleted, order, k, s)
    ensures BackedUp(original, entries, deleted, order, k, s.(budget := budget))
  {
    hide BlockedAt, Replaced, Covered, Closed, Solid, WantsDir;
  }

  /** A blocked target stops the phase; an unblocked one passes the parent checks. */
  lemma BackupRefuses(original: Tree, entries: seq<Entry>, deleted: seq<Path>, order: seq<Path>, k: nat, s: Tx)
    requires IsBackupOrder(order, entries, deleted) && k < |order|
    requires BackedUp(original, entries, deleted, order, k, s)
    ensures order[k] != []
    ensures BlockedAt(original, entries, deleted, order[k]) ==>
              forall keeps :: BackupPath(s, order[k], keeps) == Failed(s)
    ensures !BlockedAt(original, entries, deleted, order[k]) ==>
              && !RejectsParents(s.tree, Parent(order[k]))
              && (Lstat(s.tree, order[k]).Found? || Lstat(s.tree, order[k]) == NotExist)
  {
    var n := order[k];
    assert n in order;
    BackupRefusal(s.tree, n);
    BlockedInTree(original, entries, deleted, order, k, s);
    if BlockedAt(original, entries, deleted, n) && Covered(s.backups, n) {
      var a :| a in s.tree && Below(n, a) && !s.tree[a].Dir?;
      AboveBackup(original, s, n, a);
      assert false;
    }
  }

  /** Leaving a target alone is right when it is covered, missing or a directory to keep. */
  lemma BackupStepSkips(original: Tree, entries: seq<Entry>, deleted: seq<Path>, order: seq<Path>, k: nat, s: Tx)
    requires IsBackupOrder(order, entries, deleted) && k < |order|
    requires BackedUp(original, entries, deleted, order, k, s)
    requires !BlockedAt(original, entries, deleted, order[k])
    requires Replaced(original, entries, deleted, order[k]) ==> Covered(s.backups, order[k])
    ensures BackedUp(original, entries, deleted, order, k + 1, s)
  {
    hide CommitInv, OnlyBackups, BlockedAt, Replaced, Covered;
    assert order[..k + 1] == order[..k] + [order[k]];
  }

  /** What the lookup of an uncovered target tells about the original tree. */
  lemma BackupLooks(original: Tree, entries: seq<Entry>, deleted: seq<Path>, order: seq<Path>, k: nat, s: Tx)
    requires IsBackupOrder(order, entries, deleted) && k < |order|
    requires BackedUp(original, entries, deleted, order, k, s)
    ensures Lstat(s.tree, order[k]).Found? <==> order[k] in s.tree
    ensures order[k] in s.tree ==> Lstat(s.tree, order[k]) == Found(s.tree[order[k]])
    ensures !Covered(s.backups, order[k]) ==>
              (Replaced(original, entries, deleted, order[k]) <==>
                order[k] in s.tree && !(KeepsDir(entries, deleted, order[k]) && s.tree[order[k]].Dir?))
  {
    var n := order[k];
    assert n in order;
    LstatMeaning(s.tree, n);
    hide Displaced, BlockedAt, Lstat, KeepsDir;
  }

  lemma BackupStep(original: Tree, entries: seq<Entry>, deleted: seq<Path>, order: seq<Path>, k: nat, s: Tx)
    requires IsBackupOrder(order, entries, deleted) && k < |order|
    requires BackedUp(original, entries, deleted, order, k, s)
    ensures order[k] != []
    ensures BackupOutcome(original, entries, deleted, order, k + 1,
                          BackupPath(s, order[k], KeepsDir(entries, deleted, order[k])))
  {
    hide CommitInv, OnlyBackups, BlockedAt, RejectsParents, Lstat, Covered, KeepsDir;
    var n := order[k];
    assert n in order;
    BackupLooks(original, entries, deleted, order, k, s);
    BackupRefuses(original, entries, deleted, order, k, s);
    if BlockedAt(original, entries, deleted, n) {
      assert IsTarget(entries, deleted, n);
    } else {
      SpendKeepsBackedUp(original, entries, deleted, order, k, s, s.budget - 1);
      SpendKeepsBackedUp(original, entries, deleted, order, k, s, s.budget - 2);
      if Covered(s.backups, n) || n !in s.tree || (KeepsDir(entries, deleted, n) && s.tree[n].Dir?) {
        BackupStepSkips(original, entries, deleted, order, k, s);
      } else {
        BackupStepMoves(original, entries, deleted, order, k, Spend(Spend(s)));
      }
    }
  }

  /** The backup phase keeps the invariant, and without faults it stops only at a blocked target. */
  lemma {:induction false} BackupPhase(original: Tree, entries: seq<Entry>, deleted: seq<Path>, order: seq<Path>, k: nat, s: Tx)
    requires IsBackupOrder(order, entries, deleted) && k <= |order|
    requires BackedUp(original, entries, deleted, order, 0, s)
    ensures BackupOutcome(original, entries, deleted, order, k, BackupAll(s, order, entries, deleted, k))
  {
    hide BackedUp, CommitInv;
    if k > 0 {
      BackupPhase(original, entries, deleted, order, k - 1, s);
      var o := BackupAll(s, order, entries, deleted, k - 1);
      if o.Done? {
        BackupStep(original, entries, deleted, order, k - 1, o.tx);
      }
    }
  }

  lemma BeginBackedUp(original: Tree, entries: seq<Entry>, deleted: seq<Path>, order: seq<Path>, budget: int)
    requires Closed(original)
    ensures BackedUp(original, entries, deleted, order, 0, Begin(original, budget))
  {
    assert Begin(original, budget).tree == map p | p in original && !Covered([], p) :: original[p];
  }

  /** After the whole phase, the backed-up part of the tree is exactly the displaced part. */
  lemma BackedUpIsDisplaced(original: Tree, entries: seq<Entry>, deleted: seq<Path>, order: seq<Path>, s: Tx)
    requires IsBackupOrder(order, entries, deleted)
    requires BackedUp(original, entries, deleted, order, |order|, s)
    ensures forall p :: Covered(s.backups, p) <==> Displaced(original, entries, deleted, p)
    ensures !Blocked(original, entries, deleted)
  {
    forall p
      ensures Covered(s.backups, p) <==> Displaced(original, entries, deleted, p)
    {
      CoveredIsDisplaced(original, entries, deleted, order, |order|, s, p);
    }
    forall n | IsTarget(entries, deleted, n)
      ensures !BlockedAt(original, entries, deleted, n)
    {
      assert n in order;
    }
  }
}
