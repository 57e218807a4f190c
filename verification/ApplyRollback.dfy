/**
 Rollback undoes a stopped commit exactly when three conditions on the commit's records
 hold. The invariant here is what every state of a commit keeps, whichever call fails.
 */
module ApplyRollback {
  import opened FileTree
  import opened Entries
  import opened ApplySpec

  /** No node at or above `p` is anything but a directory. */
  ghost predicate Solid(t: Tree, p: Path) {
    forall a :: a in t && AtOrBelow(p, a) ==> t[a].Dir?
  }

  /** The change set needs a directory at `p`. */
  ghost predicate WantsDir(entries: seq<Entry>, p: Path) {
    exists e :: e in entries && (Below(e.path, p) || (e.path == p && e.kind == KindDir))
  }

  ghost predicate WantsLeaf(entries: seq<Entry>, p: Path) {
    exists e :: e in entries && e.path == p && e.kind != KindDir
  }

  /** `p` is not a node that commit left where it was. */
  ghost predicate Extra(original: Tree, s: Tx, p: Path) {
    p !in original || Covered(s.backups, p)
  }

  /** Backed-up paths existed and no two of them are nested. */
  ghost predicate BackupsApart(original: Tree, backups: seq<Path>) {
    && (forall b :: b in backups ==> b != [] && b in original)
    && (forall b, c :: b in backups && c in backups && AtOrBelow(b, c) ==> b == c)
    && (forall i, j :: 0 <= i < j < |backups| ==> backups[i] != backups[j])
  }

  /** The stash is the part of the original tree at and below the backed-up paths. */
  ghost predicate StashExact(original: Tree, s: Tx) {
    s.stash == map p | p in original && Covered(s.backups, p) :: original[p]
  }

  /** Nodes outside the backups are in place; only recorded directories changed, and only their mode. */
  ghost predicate KeptInPlace(original: Tree, s: Tx) {
    forall p :: p in original && !Covered(s.backups, p) ==>
      p in s.tree &&
      (s.tree[p] == original[p] || (p in s.modes && s.tree[p].Dir? && original[p].Dir?))
  }

  ghost predicate ModesExact(original: Tree, s: Tx) {
    forall p :: p in s.modes ==>
      && p in s.tree && s.tree[p].Dir?
      && (!Extra(original, s, p) ==> original[p] == Dir(s.modes[p]))
      && (Extra(original, s, p) ==> s.modes[p] == DEFAULT_DIR_MODE)
  }

  ghost predicate InstalledExact(original: Tree, entries: seq<Entry>, s: Tx) {
    forall p :: p in s.installed ==>
      WantsLeaf(entries, p) && Extra(original, s, p) && p in s.tree && !s.tree[p].Dir?
  }

  /** Whatever is in the tree and was not left in place is a made directory or an installed path. */
  ghost predicate ExtrasKnown(original: Tree, s: Tx) {
    forall p :: p in s.tree && Extra(original, s, p) ==> s.tree[p].Dir? || p in s.installed
  }

  ghost predicate CreatedExact(original: Tree, entries: seq<Entry>, s: Tx) {
    forall p :: p in s.created ==>
      p != [] && Extra(original, s, p) && WantsDir(entries, p) && Solid(s.tree, p)
  }

  /** What holds in every state of a commit of `entries` that started from `original`. */
  ghost predicate CommitInv(original: Tree, entries: seq<Entry>, s: Tx) {
    && Closed(original)
    && Closed(s.tree)
    && BackupsApart(original, s.backups)
    && StashExact(original, s)
    && KeptInPlace(original, s)
    && ModesExact(original, s)
    && InstalledExact(original, entries, s)
    && ExtrasKnown(original, s)
    && CreatedExact(original, entries, s)
    && !s.outside
  }

  // ---- The three conditions on a stopped commit ----

  /** Every directory made outside the backups is recorded. */
  ghost predicate MadeDirsRecorded(original: Tree, s: Tx) {
    forall p :: p in s.tree && p !in original && !Covered(s.backups, p) && p !in s.installed ==> p in s.created
  }

  /** Removing a recorded directory cannot hit a restored node. */
  ghost predicate CreatedHarmless(original: Tree, s: Tx) {
    forall p :: p in s.created && Covered(s.backups, p) ==> Lstat(original, p) != ThroughLink && !IsLeaf(original, p)
  }

  /** Resetting a recorded mode cannot change a restored node. */
  ghost predicate ModesHarmless(original: Tree, s: Tx) {
    forall p :: p in s.modes && Covered(s.backups, p) ==>
      !FollowsLink(original, p) && (p in original ==> WithMode(original[p], s.modes[p]) == original[p])
  }

  // ---- The tree that rollback works on ----

  lemma CoveredDown(backups: seq<Path>, p: Path, q: Path)
    requires Covered(backups, p) && AtOrBelow(q, p)
    ensures Covered(backups, q)
  {
    var b :| b in backups && AtOrBelow(p, b);
    AtOrBelowTransitive(q, p, b);
  }

  /** Nothing of the original tree lies above a backed-up path except directories that stayed. */
  lemma AboveBackup(original: Tree, s: Tx, p: Path, a: Path)
    requires Closed(original) && BackupsApart(original, s.backups)
    requires Covered(s.backups, p) && AtOrBelow(p, a) && !Covered(s.backups, a)
    ensures a in original && original[a].Dir?
  {
    var b :| b in s.backups && AtOrBelow(p, b);
    if |b| <= |a| {
      PrefixesNest(p, b, a);
    } else {
      PrefixesNest(p, a, b);
      AncestorsAreDirs(original, b, a);
    }
  }

  lemma UnstashedMeaning(original: Tree, entries: seq<Entry>, s: Tx, p: Path)
    requires CommitInv(original, entries, s)
    ensures p in Unstashed(s) <==> p in original || (p in s.tree && !Covered(s.backups, p) && p !in s.installed)
    ensures p in original && Covered(s.backups, p) ==> Unstashed(s)[p] == original[p]
    ensures p in original && !Covered(s.backups, p) ==> p in s.tree && Unstashed(s)[p] == s.tree[p]
    ensures p in Unstashed(s) && p !in original ==> Unstashed(s)[p].Dir?
  {
  }

  lemma UnstashedClosed(original: Tree, entries: seq<Entry>, s: Tx)
    requires CommitInv(original, entries, s)
    ensures Closed(Unstashed(s))
  {
    var u := Unstashed(s);
    UnstashedMeaning(original, entries, s, []);
    forall p | p in u && p != []
      ensures Parent(p) in u && u[Parent(p)].Dir?
    {
      UnstashedMeaning(original, entries, s, p);
      UnstashedMeaning(original, entries, s, Parent(p));
      if p !in original && Covered(s.backups, Parent(p)) {
        CoveredDown(s.backups, Parent(p), p);
      }
    }
  }

  lemma CoveredAbove(original: Tree, entries: seq<Entry>, s: Tx, p: Path, a: Path)
    requires CommitInv(original, entries, s) && Covered(s.backups, p) && Below(p, a)
    ensures a in Unstashed(s) && Unstashed(s)[a].Symlink? <==> a in original && original[a].Symlink?
  {
    UnstashedMeaning(original, entries, s, a);
    if !Covered(s.backups, a) {
      AboveBackup(original, s, p, a);
    }
  }

  /** For a covered path the restored tree answers lookups exactly like the original. */
  lemma CoveredLookup(original: Tree, entries: seq<Entry>, s: Tx, p: Path)
    requires CommitInv(original, entries, s) && Covered(s.backups, p)
    ensures Lstat(Unstashed(s), p) == ThroughLink <==> Lstat(original, p) == ThroughLink
    ensures FollowsLink(Unstashed(s), p) <==> FollowsLink(original, p)
  {
    var u := Unstashed(s);
    UnstashedClosed(original, entries, s);
    LstatMeaning(u, p);
    LstatMeaning(original, p);
    UnstashedMeaning(original, entries, s, p);
    forall a | Below(p, a)
      ensures a in u && u[a].Symlink? <==> a in original && original[a].Symlink?
    {
      CoveredAbove(original, entries, s, p, a);
    }
    hide CommitInv, Unstashed, Covered, Below, Closed;
  }

  /** An uncovered recorded path is never resolved through a link. */
  lemma UncoveredLookup(original: Tree, entries: seq<Entry>, s: Tx, p: Path)
    requires CommitInv(original, entries, s) && !Covered(s.backups, p)
    ensures p in s.created ==> Lstat(Unstashed(s), p) != ThroughLink
    ensures p in s.modes ==> !FollowsLink(Unstashed(s), p)
  {
    var u := Unstashed(s);
    UnstashedClosed(original, entries, s);
    LstatMeaning(u, p);
    UnstashedMeaning(original, entries, s, p);
    if p in s.created {
      forall a | a in u && Below(p, a)
        ensures !u[a].Symlink?
      {
        UnstashedMeaning(original, entries, s, a);
        if Covered(s.backups, a) {
          CoveredDown(s.backups, a, p);
        }
      }
    }
  }

  lemma RollbackStaysInside(original: Tree, entries: seq<Entry>, s: Tx)
    requires CommitInv(original, entries, s)
    ensures RollbackLeavesTree(s) <==>
              || (exists p :: p in s.modes && Covered(s.backups, p) && FollowsLink(original, p))
              || (exists p :: p in s.created && Covered(s.backups, p) && Lstat(original, p) == ThroughLink)
  {
    forall p | p in s.modes || p in s.created
      ensures !Covered(s.backups, p) && p in s.created ==> Lstat(Unstashed(s), p) != ThroughLink
      ensures !Covered(s.backups, p) && p in s.modes ==> !FollowsLink(Unstashed(s), p)
      ensures Covered(s.backups, p) ==> (FollowsLink(Unstashed(s), p) <==> FollowsLink(original, p))
      ensures Covered(s.backups, p) ==> (Lstat(Unstashed(s), p) == ThroughLink <==> Lstat(original, p) == ThroughLink)
    {
      if Covered(s.backups, p) {
        CoveredLookup(original, entries, s, p);
      } else {
        UncoveredLookup(original, entries, s, p);
      }
    }
  }

  // ---- Exactness, one path at a time ----

  /** With all made directories recorded, each of them is removed again. */
  lemma MadeDirRemoved(original: Tree, entries: seq<Entry>, s: Tx, p: Path)
    requires CommitInv(original, entries, s) && MadeDirsRecorded(original, s)
    requires p in Unstashed(s) && p !in original
    ensures Removable(Rechmodded(Unstashed(s), s.modes), Elements(s.created), p)
  {
    var u := Unstashed(s);
    UnstashedMeaning(original, entries, s, p);
    forall q | q in u && AtOrBelow(q, p)
      ensures q in s.created
    {
      UnstashedMeaning(original, entries, s, q);
      if q in original {
        if q != p {
          assert Below(q, p);
          AncestorsAreDirs(original, q, p);
        }
        assert false;
      }
    }
  }

  /** No restored original node is removable when the recorded directories are harmless. */
  lemma OriginalStays(original: Tree, entries: seq<Entry>, s: Tx, p: Path)
    requires CommitInv(original, entries, s) && CreatedHarmless(original, s)
    requires p in original
    ensures !Removable(Rechmodded(Unstashed(s), s.modes), Elements(s.created), p)
  {
    if Removable(Rechmodded(Unstashed(s), s.modes), Elements(s.created), p) {
      var leaf := LeafBelow(original, p);
      UnstashedMeaning(original, entries, s, leaf);
      assert false;
    }
  }

  lemma OriginalModes(original: Tree, entries: seq<Entry>, s: Tx, p: Path)
    requires CommitInv(original, entries, s) && p in original
    ensures p in Unstashed(s)
    ensures !Covered(s.backups, p) ==> Rechmodded(Unstashed(s), s.modes)[p] == original[p]
    ensures Covered(s.backups, p) ==>
              Rechmodded(Unstashed(s), s.modes)[p] ==
              if p in s.modes then WithMode(original[p], s.modes[p]) else original[p]
  {
    UnstashedMeaning(original, entries, s, p);
  }

  lemma RolledBackAt(original: Tree, entries: seq<Entry>, s: Tx, p: Path)
    requires CommitInv(original, entries, s)
    requires MadeDirsRecorded(original, s) && CreatedHarmless(original, s) && ModesHarmless(original, s)
    ensures p in RolledBack(s) <==> p in original
    ensures p in original ==> RolledBack(s)[p] == original[p]
  {
    UnstashedMeaning(original, entries, s, p);
    if p in original {
      OriginalStays(original, entries, s, p);
      OriginalModes(original, entries, s, p);
    } else if p in Unstashed(s) {
      MadeDirRemoved(original, entries, s, p);
    }
    hide CommitInv, MadeDirsRecorded, CreatedHarmless, Unstashed, Removable, Covered;
  }

  /** The conditions are enough. */
  lemma RollbackSufficient(original: Tree, entries: seq<Entry>, s: Tx)
    requires CommitInv(original, entries, s)
    requires MadeDirsRecorded(original, s) && CreatedHarmless(original, s) && ModesHarmless(original, s)
    ensures Restores(s, original)
  {
    RollbackStaysInside(original, entries, s);
    var back := RolledBack(s);
    forall p
      ensures p in back <==> p in original
      ensures p in original ==> back[p] == original[p]
    {
      RolledBackAt(original, entries, s, p);
    }
    hide RolledBack, RollbackLeavesTree, Covered, FollowsLink, Lstat;
    assert back == original;
  }

  /** A recorded path where the original had a leaf is lost. */
  lemma LeafLost(original: Tree, entries: seq<Entry>, s: Tx, p: Path)
    requires CommitInv(original, entries, s)
    requires p in s.created && Covered(s.backups, p) && IsLeaf(original, p)
    ensures p !in RolledBack(s)
  {
    forall q | q in Unstashed(s) && AtOrBelow(q, p)
      ensures q == p
    {
      CoveredDown(s.backups, p, q);
      UnstashedMeaning(original, entries, s, q);
    }
  }

  /** A made directory that was not recorded stays behind. */
  lemma UnrecordedStays(original: Tree, entries: seq<Entry>, s: Tx, p: Path)
    requires CommitInv(original, entries, s)
    requires p in s.tree && p !in original && !Covered(s.backups, p) && p !in s.installed && p !in s.created
    ensures p in RolledBack(s)
  {
    UnstashedMeaning(original, entries, s, p);
  }

  /** A restored node whose path has a recorded mode gets that mode, if it is not lost. */
  lemma ModeForced(original: Tree, entries: seq<Entry>, s: Tx, p: Path)
    requires CommitInv(original, entries, s)
    requires p in s.modes && Covered(s.backups, p) && p in original
    ensures p in RolledBack(s) ==> RolledBack(s)[p] == WithMode(original[p], s.modes[p])
  {
    OriginalModes(original, entries, s, p);
  }

  /** The conditions are needed. */
  lemma RollbackNecessary(original: Tree, entries: seq<Entry>, s: Tx)
    requires CommitInv(original, entries, s) && Restores(s, original)
    ensures MadeDirsRecorded(original, s) && CreatedHarmless(original, s) && ModesHarmless(original, s)
  {
    RollbackStaysInside(original, entries, s);
    forall p | p in s.tree && p !in original && !Covered(s.backups, p) && p !in s.installed
      ensures p in s.created
    {
      if p !in s.created {
        UnrecordedStays(original, entries, s, p);
      }
    }
    forall p | p in s.created && Covered(s.backups, p)
      ensures !IsLeaf(original, p)
    {
      if IsLeaf(original, p) {
        LeafLost(original, entries, s, p);
      }
    }
    forall p | p in s.modes && Covered(s.backups, p) && p in original
      ensures WithMode(original[p], s.modes[p]) == original[p]
    {
      ModeForced(original, entries, s, p);
    }
  }

  /**
   Rollback of a stopped commit gives back exactly the original tree, and nothing outside it is
   touched, if and only if the three conditions hold.
   */
  lemma RollbackExact(original: Tree, entries: seq<Entry>, s: Tx)
    requires CommitInv(original, entries, s)
    ensures Restores(s, original) <==>
              MadeDirsRecorded(original, s) && CreatedHarmless(original, s) && ModesHarmless(original, s)
  {
    if Restores(s, original) {
      RollbackNecessary(original, entries, s);
    }
    if MadeDirsRecorded(original, s) && CreatedHarmless(original, s) && ModesHarmless(original, s) {
      RollbackSufficient(original, entries, s);
    }
  }

  // ---- Nothing lost, though something may be left over ----

  /** Rollback puts every original node back as it was; besides, only directories may be left. */
  ghost predicate KeepsOriginal(s: Tx, original: Tree) {
    && !RollbackLeavesTree(s)
    && (forall p :: p in original ==> p in RolledBack(s) && RolledBack(s)[p] == original[p])
    && (forall p :: p in RolledBack(s) && p !in original ==> RolledBack(s)[p].Dir?)
  }

  lemma KeptAt(original: Tree, entries: seq<Entry>, s: Tx, p: Path)
    requires CommitInv(original, entries, s) && CreatedHarmless(original, s) && ModesHarmless(original, s)
    ensures p in original ==> p in RolledBack(s) && RolledBack(s)[p] == original[p]
    ensures p in RolledBack(s) && p !in original ==> RolledBack(s)[p].Dir?
  {
    UnstashedMeaning(original, entries, s, p);
    if p in original {
      OriginalStays(original, entries, s, p);
      OriginalModes(original, entries, s, p);
    }
    hide CommitInv, CreatedHarmless, Unstashed, Removable, Covered;
  }

  /** Two of the three conditions are exactly what the original nodes need. */
  lemma KeepsOriginalExact(original: Tree, entries: seq<Entry>, s: Tx)
    requires CommitInv(original, entries, s)
    ensures KeepsOriginal(s, original) <==> CreatedHarmless(original, s) && ModesHarmless(original, s)
  {
    RollbackStaysInside(original, entries, s);
    if CreatedHarmless(original, s) && ModesHarmless(original, s) {
      forall p
        ensures p in original ==> p in RolledBack(s) && RolledBack(s)[p] == original[p]
        ensures p in RolledBack(s) && p !in original ==> RolledBack(s)[p].Dir?
      {
        KeptAt(original, entries, s, p);
      }
    }
    if KeepsOriginal(s, original) {
      KeptHarmless(original, entries, s);
    }
    hide CommitInv, RolledBack, RollbackLeavesTree, Covered, FollowsLink, Lstat, IsLeaf;
  }

  lemma KeptHarmless(original: Tree, entries: seq<Entry>, s: Tx)
    requires CommitInv(original, entries, s) && KeepsOriginal(s, original)
    ensures CreatedHarmless(original, s) && ModesHarmless(original, s)
  {
    RollbackStaysInside(original, entries, s);
    hide CommitInv, RolledBack, RollbackLeavesTree, FollowsLink, Lstat;
    forall p | p in s.created && Covered(s.backups, p)
      ensures !IsLeaf(original, p)
    {
      if IsLeaf(original, p) {
        LeafLost(original, entries, s, p);
      }
    }
    forall p | p in s.modes && Covered(s.backups, p) && p in original
      ensures WithMode(original[p], s.modes[p]) == original[p]
    {
      ModeForced(original, entries, s, p);
    }
    hide Covered, IsLeaf;
  }

  // ---- Fewer records ----

  /** The same state with some entries of the created list missing. */
  ghost predicate Fewer(s: Tx, t: Tx) {
    t == s.(created := t.created) && forall p :: p in t.created ==> p in s.created
  }

  lemma FewerInv(original: Tree, entries: seq<Entry>, s: Tx, t: Tx)
    requires CommitInv(original, entries, s) && Fewer(s, t)
    ensures CommitInv(original, entries, t)
    ensures CreatedHarmless(original, s) ==> CreatedHarmless(original, t)
    ensures ModesHarmless(original, s) ==> ModesHarmless(original, t)
  {
    hide Closed, BackupsApart, Covered, WantsDir, WantsLeaf, Solid, Lstat, IsLeaf, FollowsLink;
  }
}
