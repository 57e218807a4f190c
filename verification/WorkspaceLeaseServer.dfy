/** The lease operations of the host, as methods that change its tables and its disk. */
module WorkspaceLeaseServer {
  import opened FileTree
  import opened Entries
  import opened Options
  import opened ContextWorkspace
  import opened WorkspaceLeases

  predicate Deletable(h: Host, id: string) {
    BeginDelete(h, id).Some?
  }

  /** What the deletion of some leases leaves: theirs are gone, all others are as they were. */
  ghost predicate Deleted(before: Host, ids: seq<string>, after: Host) {
    && after.leases == (map id | id in before.leases && id !in ids :: before.leases[id])
    && (forall id :: id !in ids ==> (id in after.trees <==> id in before.trees))
    && (forall id :: id !in ids && id in after.trees ==> after.trees[id] == before.trees[id])
    && (forall id :: id in ids && id in before.leases ==> id !in after.trees)
    && after.active == before.active && after.deleting == before.deleting && after.run == before.run && after.deleters == before.deleters
  }

  lemma DeletedMore(before: Host, ids: seq<string>, middle: Host, id: string, after: Host)
    requires Deleted(before, ids, middle)
    requires after == RemoveLease(middle, id) || (id !in middle.leases && after == middle)
    ensures Deleted(before, ids + [id], after)
  {
  }

  /** The lease has no term, or its term is not over. */
  predicate StillGood(l: Lease, now: int) {
    l.expires.None? || now < l.expires.value
  }

  predicate InUse(active: map<string, nat>, id: string) {
    id in active && active[id] > 0
  }

  /** The listed leases that pruning removes. */
  function PrunableIn(h: Host, listing: seq<string>, now: int): seq<string> {
    if listing == [] then []
    else
      var last := listing[|listing| - 1];
      PrunableIn(h, listing[..|listing| - 1], now) + if Prunable(h, last, now) then [last] else []
  }

  /** Removing some prunable leases does not change which others are prunable. */
  lemma SamePrunable(before: Host, gone: seq<string>, middle: Host, id: string, now: int)
    requires Deleted(before, gone, middle) && forall g :: g in gone ==> Prunable(before, g, now)
    ensures Prunable(middle, id, now) <==> Prunable(before, id, now)
  {
  }

  lemma {:induction false} PrunableMeaning(h: Host, listing: seq<string>, now: int)
    ensures forall id :: id in PrunableIn(h, listing, now) <==> id in listing && Prunable(h, id, now)
  {
    if listing != [] {
      PrunableMeaning(h, listing[..|listing| - 1], now);
      assert listing == listing[..|listing| - 1] + [listing[|listing| - 1]];
    }
  }

  class LeaseServer {
    var leases: map<string, Lease>
    var trees: map<string, Tree>
    var activeLeases: map<string, nat>
    var deletingLeases: set<string>
    var run: Run
    ghost var deleters: seq<Deleter>

    constructor (leases: map<string, Lease>, trees: map<string, Tree>)
      ensures State() == Host(leases, trees, map[], {}, NoRun, [])
    {
      this.leases, this.trees := leases, trees;
      activeLeases, deletingLeases, run, deleters := map[], {}, NoRun, [];
    }

    ghost function State(): Host
      reads this
    {
      Host(leases, trees, activeLeases, deletingLeases, run, deleters)
    }

    method AcquireWorkspaceLease(id: string) returns (ok: bool)
      modifies this
      ensures ok <==> Acquire(old(State()), id).Some?
      ensures State() == if ok then Acquire(old(State()), id).value else old(State())
    {
      if id in deletingLeases {
        return false;
      }
      var count := if id in activeLeases then activeLeases[id] else 0;
      activeLeases := activeLeases[id := count + 1];
      ok := true;
    }

    method ReleaseWorkspaceLease(id: string)
      modifies this
      ensures State() == Release(old(State()), id)
    {
      if id !in activeLeases || activeLeases[id] <= 1 {
        activeLeases := activeLeases - {id};
      } else {
        activeLeases := activeLeases[id := activeLeases[id] - 1];
      }
    }

    method BeginWorkspaceLeaseDelete(id: string) returns (ok: bool)
      modifies this
      ensures ok <==> Deletable(old(State()), id)
      ensures State() == if ok then BeginDelete(old(State()), id).value else old(State())
    {
      if id in activeLeases && activeLeases[id] > 0 {
        return false;
      }
      if id in deletingLeases {
        return false;
      }
      deletingLeases := deletingLeases + {id};
      ok := true;
    }

    method EndWorkspaceLeaseDelete(id: string)
      modifies this
      ensures State() == EndDelete(old(State()), id)
    {
      deletingLeases := deletingLeases - {id};
    }

    /** A save that fails leaves the stored lease as it was. */
    method SaveWorkspaceLease(id: string, state: Lease) returns (ok: bool)
      modifies this
      ensures State() == if ok then old(State()).(leases := old(State()).leases[id := state]) else old(State())
    {
      ok := *;
      if ok {
        leases := leases[id := state];
      }
    }

    method RemoveWorkspaceLease(id: string) returns (ok: bool)
      modifies this
      ensures State() == if ok then RemoveLease(old(State()), id) else old(State())
    {
      ok := *;
      if ok {
        leases := leases - {id};
        trees := trees - {id};
      }
    }

    method PrepareReusedWorkspaceLease(id: string, now: int, keep: nat) returns (prepared: bool, ghost fault: bool)
      requires run.NoRun?
      modifies this
      ensures Acquire(old(State()), id).None? ==> !prepared && State() == old(State())
      ensures Acquire(old(State()), id).Some? ==>
                State() == PrepareReused(Acquire(old(State()), id).value, id, now, keep, fault) && (prepared <==> run.Unsynced?)
    {
      fault := false;
      prepared := AcquireWorkspaceLease(id);
      if !prepared {
        return;
      }
      if id !in leases || leases[id].dirty {
        ReleaseWorkspaceLease(id);
        return false, false;
      }
      var state := leases[id];
      if state.expires.Some? && !(state.expires.value > now) {
        var removed := RemoveWorkspaceLease(id);
        ReleaseWorkspaceLease(id);
        return false, !removed;
      }
      if id !in trees {
        var marked := SaveWorkspaceLease(id, state.(dirty := true));
        ReleaseWorkspaceLease(id);
        return false, !marked;
      }
      if keep > 0 {
        state := state.(expires := Some(now + keep));
      }
      state := state.(dirty := true);
      prepared := SaveWorkspaceLease(id, state);
      if !prepared {
        ReleaseWorkspaceLease(id);
        return false, true;
      }
      run := Unsynced(id, state);
    }

    /** pruneExpiredWorkspaceLeases, over the listing of the lease directories; a record that cannot be read or a removal that fails stops it. */
    method PruneExpiredWorkspaceLeases(listing: seq<string>, now: int) returns (ok: bool)
      modifies this
      ensures exists n :: 0 <= n <= |listing| && (ok <==> n == |listing|) &&
                          Deleted(old(State()), PrunableIn(old(State()), listing[..n], now), State())
      ensures forall id :: id in old(leases) && (StillGood(old(leases)[id], now) || InUse(old(activeLeases), id)) ==>
                id in leases && leases[id] == old(leases)[id]
      ensures ok ==> forall id :: id in listing && id in old(leases) && !StillGood(old(leases)[id], now) && !InUse(old(activeLeases), id) ==>
                id !in leases && id !in trees
    {
      forall n | 0 <= n <= |listing|
        ensures forall id :: id in PrunableIn(old(State()), listing[..n], now) <==> id in listing[..n] && Prunable(old(State()), id, now)
      {
        PrunableMeaning(old(State()), listing[..n], now);
      }
      for i := 0 to |listing|
        invariant Deleted(old(State()), PrunableIn(old(State()), listing[..i], now), State())
      {
        var id := listing[i];
        ghost var middle := State();
        assert listing[..i + 1][..i] == listing[..i];
        PrunableMeaning(old(State()), listing[..i], now);
        SamePrunable(old(State()), PrunableIn(old(State()), listing[..i], now), middle, id, now);
        var readable: bool := *;
        if !readable {
          return false;
        }
        if id !in leases || (Expired(leases[id], now) && !(id in activeLeases && activeLeases[id] > 0)) {
          var removed := RemoveWorkspaceLease(id);
          if !removed {
            return false;
          }
          DeletedMore(old(State()), PrunableIn(old(State()), listing[..i], now), middle, id, State());
        }
      }
      assert listing[..|listing|] == listing;
      ok := true;
    }

    /** newWorkspaceLeaseID: the first identifier, of those that the nonces give, without a directory. */
    method NewWorkspaceLeaseID(candidates: seq<string>) returns (id: Option<string>)
      ensures id.None? <==> forall c :: c in candidates ==> c in leases || c in trees
      ensures id.Some? ==> id.value in candidates && id.value !in leases && id.value !in trees
    {
      for i := 0 to |candidates|
        invariant forall c :: c in candidates[..i] ==> c in leases || c in trees
      {
        assert candidates[..i + 1] == candidates[..i] + [candidates[i]];
        if candidates[i] !in leases && candidates[i] !in trees {
          return Some(candidates[i]);
        }
      }
      assert candidates[..|candidates|] == candidates;
      id := None;
    }

    /**
     prepareNewWorkspaceLease: expired leases go first, then a fresh identifier is acquired. From
     there on the outcome is that of PrepareNew, for the fault that was met.
     */
    method PrepareNewWorkspaceLease(listing: seq<string>, candidates: seq<string>, now: int, keep: nat)
      returns (prepared: bool, id: Option<string>, ghost pruned: Host, ghost fault: NewFault)
      requires run.NoRun?
      modifies this
      ensures exists n :: 0 <= n <= |listing| && (n < |listing| ==> id.None?) &&
                          Deleted(old(State()), PrunableIn(old(State()), listing[..n], now), pruned)
      ensures id.Some? ==> id.value in candidates && id.value !in pruned.leases && id.value !in pruned.trees
      ensures id.None? || Acquire(pruned, id.value).None? ==> !prepared && State() == pruned
      ensures id.Some? && Acquire(pruned, id.value).Some? ==>
                State() == PrepareNew(Acquire(pruned, id.value).value, id.value, now, keep, fault) && (prepared <==> fault == NoFault)
    {
      fault := NoFault;
      var ok := PruneExpiredWorkspaceLeases(listing, now);
      pruned := State();
      if !ok {
        return false, None, pruned, fault;
      }
      id := NewWorkspaceLeaseID(candidates);
      if id.None? {
        return false, None, pruned, fault;
      }
      prepared := AcquireWorkspaceLease(id.value);
      if prepared {
        hide PrepareNew, Deleted, PrunableIn;
        prepared, fault := RecordNewWorkspaceLease(id.value, now, keep);
      }
    }

    /** What follows once the new lease is acquired: its record, then its empty workspace. */
    method RecordNewWorkspaceLease(id: string, now: int, keep: nat) returns (prepared: bool, ghost fault: NewFault)
      requires run.NoRun? && id !in leases && id !in trees
      modifies this
      ensures State() == PrepareNew(old(State()), id, now, keep, fault) && (prepared <==> fault == NoFault)
    {
      fault := NoFault;
      var state := Lease(true, Some(now + keep), []);
      prepared := SaveWorkspaceLease(id, state);
      if !prepared {
        ReleaseWorkspaceLease(id);
        return false, SaveFails;
      }
      prepared := *;
      if !prepared {
        var removed := RemoveWorkspaceLease(id);
        ReleaseWorkspaceLease(id);
        return false, MkdirFails(removed);
      }
      trees := trees[id := EMPTY_WORKSPACE];
      run := Unsynced(id, state);
    }

    method FinalizeWorkspaceLease(scan: seq<Entry>, now: int, keep: nat) returns (ok: bool)
      requires run.Working?
      modifies this
      ensures State() == Finalize(old(State()), scan, now, keep, !ok)
    {
      var state := run.state;
      if keep > 0 {
        state := state.(expires := Some(now + keep));
      }
      state := state.(dirty := false, manifest := scan);
      var id := run.id;
      run := Finalized(id, state);
      ok := SaveWorkspaceLease(id, state);
    }

    method MarkWorkspaceLeaseDirty() returns (ghost fault: bool)
      requires run.Working? || run.Finalized?
      modifies this
      ensures State() == FailRun(old(State()), fault)
    {
      var id, state := run.id, run.state.(dirty := true);
      var saved := SaveWorkspaceLease(id, state);
      run := NoRun;
      ReleaseWorkspaceLease(id);
      fault := !saved;
    }

    /**
     deleteWorkspaceLeases: on success all listed leases are gone and nothing else changed. A lease in
     use, one that someone else is deleting, or a failed removal stops it, and then the leases before
     it are gone. A lease in use is never touched.
     */
    method DeleteWorkspaceLeases(ids: seq<string>) returns (ok: bool, deleted: seq<string>, notFound: seq<string>)
      modifies this
      ensures exists n :: 0 <= n <= |ids| && Deleted(old(State()), ids[..n], State()) && (ok <==> n == |ids|) &&
                          forall k :: 0 <= k < n ==> Deletable(old(State()), ids[k])
      ensures (exists k :: 0 <= k < |ids| && !Deletable(old(State()), ids[k])) ==> !ok
      ensures ok ==> forall id :: id in deleted <==> id in ids && id in old(leases)
      ensures ok ==> forall id :: id in ids && id !in old(leases) ==> id in notFound
      ensures !ok ==> deleted == [] && notFound == []
    {
      deleted, notFound := [], [];
      for i := 0 to |ids|
        invariant Deleted(old(State()), ids[..i], State())
        invariant forall k :: 0 <= k < i ==> Deletable(old(State()), ids[k])
        invariant forall id :: id in deleted <==> id in ids[..i] && id in old(leases)
        invariant forall id :: id in ids[..i] && id !in old(leases) ==> id in notFound
      {
        ghost var middle := State();
        var id := ids[i];
        assert ids[..i + 1] == ids[..i] + [id];
        var begun := BeginWorkspaceLeaseDelete(id);
        if !begun {
          return false, [], [];
        }
        if id !in leases {
          var swept := RemoveWorkspaceLease(id);
          EndWorkspaceLeaseDelete(id);
          BeginEnd(middle, id);
          DeletedMore(old(State()), ids[..i], middle, id, State());
          notFound := notFound + [id];
        } else {
          var removed := RemoveWorkspaceLease(id);
          EndWorkspaceLeaseDelete(id);
          BeginEnd(middle, id);
          if !removed {
            return false, [], [];
          }
          DeletedMore(old(State()), ids[..i], middle, id, State());
          deleted := deleted + [id];
        }
      }
      assert ids[..|ids|] == ids;
      ok := true;
    }
  }

  lemma BeginEnd(h: Host, id: string)
    requires Deletable(h, id)
    ensures EndDelete(BeginDelete(h, id).value, id) == h
    ensures EndDelete(RemoveLease(BeginDelete(h, id).value, id), id) == RemoveLease(h, id)
  {
  }
}
