/**
 Reusable workspace leases of one context: when a stored lease counts as clean, who may reuse or
 delete it, and what a sync into a leased workspace may rely on.

 Runs of one context follow one another (they hold the context's mutex); lease deletions do not.
 */
module WorkspaceLeases {
  import opened FileTree
  import opened Entries
  import opened Options
  import opened SyncTheorem
  import opened ContextWorkspace

  /** The stored record of a lease. No expiry time means that it never expires. */
  datatype Lease = Lease(dirty: bool, expires: Option<int>, manifest: seq<Entry>)

  /** What the current run of the context does with a lease. */
  datatype Run =
    | NoRun
    | Acquired(id: string)
    | Unsynced(id: string, state: Lease) // prepared; the next sync starts from its manifest
    | Working(id: string, state: Lease) // the sync and the command change the workspace
    | Finalized(id: string, state: Lease)

  /** A deletion in progress: between begin and the removal, between the removal and the end. */
  datatype Deleter = Resting | Began(id: string) | Removed(id: string)

  datatype Host = Host(
    leases: map<string, Lease>, // on disk
    trees: map<string, Tree>, // on disk
    active: map<string, nat>,
    deleting: set<string>,
    run: Run,
    deleters: seq<Deleter>)

  function ActiveCount(h: Host, id: string): nat {
    if id in h.active then h.active[id] else 0
  }

  // ---- The mutex regions ----

  /** acquireWorkspaceLease, refused while the lease is being deleted. */
  function Acquire(h: Host, id: string): Option<Host> {
    if id in h.deleting then None
    else Some(h.(active := h.active[id := ActiveCount(h, id) + 1]))
  }

  function Release(h: Host, id: string): Host {
    if ActiveCount(h, id) <= 1 then h.(active := h.active - {id})
    else h.(active := h.active[id := ActiveCount(h, id) - 1])
  }

  /** beginWorkspaceLeaseDelete, refused while the lease is active or already being deleted. */
  function BeginDelete(h: Host, id: string): Option<Host> {
    if ActiveCount(h, id) > 0 || id in h.deleting then None
    else Some(h.(deleting := h.deleting + {id}))
  }

  function EndDelete(h: Host, id: string): Host {
    h.(deleting := h.deleting - {id})
  }

  function RemoveLease(h: Host, id: string): Host {
    h.(leases := h.leases - {id}, trees := h.trees - {id})
  }

  // ---- What a run does ----

  predicate Expired(l: Lease, now: int) {
    l.expires.Some? && l.expires.value <= now
  }

  function KeepUntil(l: Lease, now: int, keep: nat): Option<int> {
    if keep > 0 then Some(now + keep) else l.expires
  }

  /** prepareReusedWorkspaceLease, after the lease is acquired. A fault is a save or removal that fails. */
  function PrepareReused(h: Host, id: string, now: int, keep: nat, fault: bool): Host {
    var refused := Release(h.(run := NoRun), id);
    if id !in h.leases then refused
    else
      var l := h.leases[id];
      if l.dirty then refused
      else if Expired(l, now) then if fault then refused else RemoveLease(refused, id)
      else if id !in h.trees then if fault then refused else refused.(leases := refused.leases[id := l.(dirty := true)])
      else if fault then refused
      else
        var state := l.(dirty := true, expires := KeepUntil(l, now, keep));
        h.(leases := h.leases[id := state], run := Unsynced(id, state))
  }

  /** Where preparing a new lease fails; a lease that got no workspace is removed if that succeeds. */
  datatype NewFault = NoFault | SaveFails | MkdirFails(removed: bool)

  /** prepareNewWorkspaceLease for an acquired identifier that no lease directory has. */
  function PrepareNew(h: Host, id: string, now: int, keep: nat, fault: NewFault): Host {
    var refused := Release(h.(run := NoRun), id);
    var state := Lease(true, Some(now + keep), []);
    match fault
    case SaveFails => refused
    case MkdirFails(removed) =>
      if removed then RemoveLease(refused, id) else refused.(leases := refused.leases[id := state])
    case NoFault =>
      h.(leases := h.leases[id := state], trees := h.trees[id := EMPTY_WORKSPACE], run := Unsynced(id, state))
  }

  /** finalizeWorkspaceLease with the manifest of the scan after the command. */
  function Finalize(h: Host, scan: seq<Entry>, now: int, keep: nat, fault: bool): Host
    requires h.run.Working?
  {
    var state := h.run.state.(dirty := false, expires := KeepUntil(h.run.state, now, keep), manifest := scan);
    h.(leases := if fault then h.leases else h.leases[h.run.id := state], run := Finalized(h.run.id, state))
  }

  /** markWorkspaceLeaseDirty, after a run that failed in execution or at its end; then the lease is released. */
  function FailRun(h: Host, fault: bool): Host
    requires h.run.Working? || h.run.Finalized?
  {
    Release(h.(leases := if fault then h.leases else h.leases[h.run.id := h.run.state.(dirty := true)], run := NoRun), h.run.id)
  }

  /** What pruneExpiredWorkspaceLeases removes: expired leases that are not active, and directories without a record. */
  predicate Prunable(h: Host, id: string, now: int) {
    id !in h.leases || (Expired(h.leases[id], now) && ActiveCount(h, id) == 0)
  }

  // ---- All steps ----

  datatype Event =
    | AcquireReuse(id: string)
    | Reuse(now: int, keep: nat, fault: bool)
    | New(id: string, now: int, keep: nat, trouble: NewFault)
    | StartSync
    | Change(tree: Tree) // the sync or the command writes
    | FinalizeRun(scan: seq<Entry>, now: int, keep: nat, fault: bool)
    | Fail(fault: bool)
    | AbortUnsaved // an error before execution: the lease is only released
    | Finish
    | Prune(id: string, now: int)
    | Begin(d: nat, id: string) | Remove(d: nat) | End(d: nat)
    | Restart // the process dies: what is in memory is lost

  /** The scan lists the workspace truthfully. */
  ghost predicate Scanned(digest: Digest, t: Tree, m: seq<Entry>) {
    WellFormed(m) && ShowsAll(digest, t, m)
  }

  ghost predicate Enabled(digest: Digest, h: Host, e: Event) {
    match e
    case AcquireReuse(id) => h.run.NoRun? && Acquire(h, id).Some?
    case Reuse(_, _, _) => h.run.Acquired?
    case New(id, _, _, _) => h.run.NoRun? && id !in h.leases && id !in h.trees && Acquire(h, id).Some?
    case StartSync => h.run.Unsynced?
    case Change(_) => h.run.Working?
    case FinalizeRun(scan, _, _, _) => h.run.Working? && h.run.id in h.trees && Scanned(digest, h.trees[h.run.id], scan)
    case Fail(_) => h.run.Working? || h.run.Finalized?
    case AbortUnsaved => h.run.Unsynced? || h.run.Working?
    case Finish => h.run.Finalized?
    case Prune(id, now) => h.run.NoRun? && Prunable(h, id, now)
    case Begin(d, id) => d < |h.deleters| && h.deleters[d].Resting? && BeginDelete(h, id).Some?
    case Remove(d) => d < |h.deleters| && h.deleters[d].Began?
    case End(d) => d < |h.deleters| && !h.deleters[d].Resting?
    case Restart => true
  }

  ghost function Effect(digest: Digest, h: Host, e: Event): Host
    requires Enabled(digest, h, e)
  {
    match e
    case AcquireReuse(id) => Acquire(h, id).value.(run := Acquired(id))
    case Reuse(now, keep, fault) => PrepareReused(h, h.run.id, now, keep, fault)
    case New(id, now, keep, fault) => PrepareNew(Acquire(h, id).value, id, now, keep, fault)
    case StartSync => h.(run := Working(h.run.id, h.run.state))
    case Change(t) => h.(trees := h.trees[h.run.id := t])
    case FinalizeRun(scan, now, keep, fault) => Finalize(h, scan, now, keep, fault)
    case Fail(fault) => FailRun(h, fault)
    case AbortUnsaved => Release(h.(run := NoRun), h.run.id)
    case Finish => Release(h.(run := NoRun), h.run.id)
    case Prune(id, _) => RemoveLease(h, id)
    case Begin(d, id) => BeginDelete(h, id).value.(deleters := h.deleters[d := Began(id)])
    case Remove(d) => RemoveLease(h, h.deleters[d].id).(deleters := h.deleters[d := Removed(h.deleters[d].id)])
    case End(d) => EndDelete(h, h.deleters[d].id).(deleters := h.deleters[d := Resting])
    case Restart => h.(active := map[], deleting := {}, run := NoRun, deleters := seq(|h.deleters|, i => Resting))
  }

  ghost function Next(digest: Digest, h: Host, e: Event): Host {
    if Enabled(digest, h, e) then Effect(digest, h, e) else h
  }

  ghost function Execute(digest: Digest, h: Host, events: seq<Event>): Host {
    if events == [] then h else Next(digest, Execute(digest, h, events[..|events| - 1]), events[|events| - 1])
  }

  // ---- The invariant ----

  /** A lease stored as clean carries the manifest of the last scan, and the workspace still shows it. */
  ghost predicate CleanInStep(digest: Digest, h: Host) {
    forall id :: id in h.leases && !h.leases[id].dirty && id in h.trees ==> Scanned(digest, h.trees[id], h.leases[id].manifest)
  }

  /** From preparation to finalize the stored lease is dirty; before the sync the workspace shows its manifest. */
  ghost predicate RunInv(digest: Digest, h: Host) {
    match h.run
    case NoRun => true
    case Acquired(id) => true
    case Unsynced(id, state) =>
      && id in h.leases && h.leases[id] == state && state.dirty
      && id in h.trees && Scanned(digest, h.trees[id], state.manifest)
    case Working(id, state) => id in h.leases && h.leases[id] == state && state.dirty && id in h.trees
    case Finalized(id, state) =>
      id in h.leases && id in h.trees && !state.dirty && Scanned(digest, h.trees[id], state.manifest)
  }

  ghost predicate ActiveInv(h: Host) {
    && (!h.run.NoRun? ==> ActiveCount(h, h.run.id) == 1)
    && (forall id :: id in h.active ==> !h.run.NoRun? && id == h.run.id)
  }

  /** A lease under deletion is marked, by one deleter, and not active. */
  ghost predicate DeleteInv(h: Host) {
    && (forall d :: 0 <= d < |h.deleters| && !h.deleters[d].Resting? ==> h.deleters[d].id in h.deleting)
    && (forall c, d :: 0 <= c < d < |h.deleters| && !h.deleters[c].Resting? && !h.deleters[d].Resting? ==> h.deleters[c].id != h.deleters[d].id)
    && (forall id :: id in h.deleting ==> ActiveCount(h, id) == 0)
  }

  /** A lease is marked only while someone deletes it. */
  ghost predicate MarkedInv(h: Host) {
    forall id :: id in h.deleting ==> exists d :: 0 <= d < |h.deleters| && !h.deleters[d].Resting? && h.deleters[d].id == id
  }

  ghost predicate HostInv(digest: Digest, h: Host) {
    CleanInStep(digest, h) && RunInv(digest, h) && ActiveInv(h) && DeleteInv(h) && MarkedInv(h)
  }

  lemma EmptyScanned(digest: Digest)
    ensures Scanned(digest, EMPTY_WORKSPACE, [])
  {
  }

  lemma ActiveKept(digest: Digest, h: Host, e: Event)
    requires RunInv(digest, h) && ActiveInv(h) && DeleteInv(h) && Enabled(digest, h, e)
    ensures ActiveInv(Effect(digest, h, e))
  {
    hide Scanned, Expired, KeepUntil;
  }

  predicate OfDeleter(e: Event) {
    e.Begin? || e.Remove? || e.End? || e.Restart?
  }

  lemma ReleaseLeavesDeleters(h: Host, id: string)
    ensures Release(h, id).deleters == h.deleters && Release(h, id).deleting == h.deleting
    ensures forall i :: ActiveCount(Release(h, id), i) <= ActiveCount(h, i)
  {
  }

  lemma ReuseLeavesDeleters(h: Host, id: string, now: int, keep: nat, fault: bool)
    ensures var g := PrepareReused(h, id, now, keep, fault);
            && g.deleters == h.deleters && g.deleting == h.deleting
            && forall i :: ActiveCount(g, i) <= ActiveCount(h, i)
  {
    ReleaseLeavesDeleters(h.(run := NoRun), id);
    hide Release, Expired, KeepUntil;
  }

  lemma NewLeavesDeleters(h: Host, id: string, now: int, keep: nat, trouble: NewFault)
    ensures var g := PrepareNew(h, id, now, keep, trouble);
            && g.deleters == h.deleters && g.deleting == h.deleting
            && forall i :: ActiveCount(g, i) <= ActiveCount(h, i)
  {
    ReleaseLeavesDeleters(h.(run := NoRun), id);
    hide Release;
  }

  /** A run acquires only leases that nobody deletes, and otherwise only gives them up. */
  lemma RunLeavesDeleters(digest: Digest, h: Host, e: Event)
    requires DeleteInv(h) && Enabled(digest, h, e) && !OfDeleter(e)
    ensures Effect(digest, h, e).deleters == h.deleters && Effect(digest, h, e).deleting == h.deleting
    ensures forall id :: id in h.deleting ==> ActiveCount(Effect(digest, h, e), id) == 0
  {
    hide Scanned, Release, PrepareReused, PrepareNew, Expired, KeepUntil;
    match e
    case Reuse(now, keep, fault) => ReuseLeavesDeleters(h, h.run.id, now, keep, fault);
    case New(id, now, keep, trouble) =>
      NewLeavesDeleters(Acquire(h, id).value, id, now, keep, trouble);
    case Fail(fault) =>
      ReleaseLeavesDeleters(h.(leases := if fault then h.leases else h.leases[h.run.id := h.run.state.(dirty := true)], run := NoRun), h.run.id);
    case AbortUnsaved => ReleaseLeavesDeleters(h.(run := NoRun), h.run.id);
    case Finish => ReleaseLeavesDeleters(h.(run := NoRun), h.run.id);
    case _ =>
  }

  lemma DeleterSteps(digest: Digest, h: Host, e: Event)
    requires DeleteInv(h) && Enabled(digest, h, e) && OfDeleter(e)
    ensures DeleteInv(Effect(digest, h, e))
  {
  }

  lemma DeleteKept(digest: Digest, h: Host, e: Event)
    requires DeleteInv(h) && Enabled(digest, h, e)
    ensures DeleteInv(Effect(digest, h, e))
  {
    if OfDeleter(e) {
      DeleterSteps(digest, h, e);
    } else {
      RunLeavesDeleters(digest, h, e);
      hide Effect, Enabled, ActiveCount;
    }
  }

  lemma MarkedKept(digest: Digest, h: Host, e: Event)
    requires DeleteInv(h) && MarkedInv(h) && Enabled(digest, h, e)
    ensures MarkedInv(Effect(digest, h, e))
  {
    var g := Effect(digest, h, e);
    if !OfDeleter(e) {
      RunLeavesDeleters(digest, h, e);
      hide Effect, Enabled, DeleteInv;
    } else {
      forall id | id in g.deleting
        ensures exists d :: 0 <= d < |g.deleters| && !g.deleters[d].Resting? && g.deleters[d].id == id
      {
        if id in h.deleting {
          var d :| 0 <= d < |h.deleters| && !h.deleters[d].Resting? && h.deleters[d].id == id;
          assert !g.deleters[d].Resting? && g.deleters[d].id == id;
        } else {
          assert e.Begin? && !g.deleters[e.d].Resting? && g.deleters[e.d].id == id;
        }
      }
    }
  }

  /** A deletion in progress never touches the lease of the current run. */
  lemma DeletedNotRun(h: Host, d: nat)
    requires ActiveInv(h) && DeleteInv(h) && d < |h.deleters| && !h.deleters[d].Resting?
    ensures !h.run.NoRun? ==> h.run.id != h.deleters[d].id
  {
  }

  lemma RunKept(digest: Digest, h: Host, e: Event)
    requires HostInv(digest, h) && Enabled(digest, h, e)
    ensures RunInv(digest, Effect(digest, h, e))
  {
    EmptyScanned(digest);
    if e.Remove? {
      DeletedNotRun(h, e.d);
    }
    hide Scanned, Expired, KeepUntil, DeleteInv;
  }

  lemma CleanKept(digest: Digest, h: Host, e: Event)
    requires HostInv(digest, h) && Enabled(digest, h, e)
    ensures CleanInStep(digest, Effect(digest, h, e))
  {
    hide Scanned, Expired, KeepUntil, DeleteInv, ActiveInv;
  }

  lemma NextKeeps(digest: Digest, h: Host, e: Event)
    requires HostInv(digest, h)
    ensures HostInv(digest, Next(digest, h, e))
  {
    if Enabled(digest, h, e) {
      ActiveKept(digest, h, e);
      DeleteKept(digest, h, e);
      MarkedKept(digest, h, e);
      RunKept(digest, h, e);
      CleanKept(digest, h, e);
      hide Effect, Enabled, CleanInStep, RunInv, ActiveInv, DeleteInv, MarkedInv;
    }
  }

  lemma {:induction false} AlwaysInStep(digest: Digest, h: Host, events: seq<Event>)
    requires HostInv(digest, h)
    ensures HostInv(digest, Execute(digest, h, events))
  {
    if events != [] {
      AlwaysInStep(digest, h, events[..|events| - 1]);
      NextKeeps(digest, Execute(digest, h, events[..|events| - 1]), events[|events| - 1]);
    }
    hide HostInv, Next;
  }

  ghost predicate Starting(digest: Digest, h: Host) {
    && h.active == map[] && h.deleting == {} && h.run.NoRun?
    && (forall d :: 0 <= d < |h.deleters| ==> h.deleters[d].Resting?)
    && CleanInStep(digest, h)
  }

  /**
   Over every run of the host, restarts included: a lease stored as clean belongs to a workspace
   that still shows its manifest; a lease in use is stored as dirty until its run is finalized; a lease in
   use is never the one that a deletion is removing; and no lease stays marked once its deletion is over.
   */
  lemma LeasesSafe(digest: Digest, h: Host, events: seq<Event>)
    requires Starting(digest, h)
    ensures var g := Execute(digest, h, events);
            && CleanInStep(digest, g)
            && ((g.run.Unsynced? || g.run.Working?) ==> g.run.id in g.leases && g.leases[g.run.id].dirty)
            && (forall d :: 0 <= d < |g.deleters| && g.deleters[d].Began? ==> ActiveCount(g, g.deleters[d].id) == 0)
            && MarkedInv(g)
  {
    AlwaysInStep(digest, h, events);
    hide Execute, CleanInStep, Scanned;
  }

  /** Whatever lease a sync is about to use, its workspace shows the manifest that the sync will start from. */
  lemma LeaseSyncGrounded(digest: Digest, h: Host, events: seq<Event>, target: seq<Entry>, t: Tree)
    requires Starting(digest, h)
    requires Execute(digest, h, events).run.Unsynced? && WellFormed(target)
    requires var g := Execute(digest, h, events);
             g.run.id in g.trees ==> Synced(digest, g.trees[g.run.id], g.run.state.manifest, target, t)
    ensures ShowsAll(digest, t, target)
  {
    AlwaysInStep(digest, h, events);
    hide Execute, ShowsAll, WellFormed, ExactlyShows, CleanInStep;
  }

  /** Reuse accepts exactly the leases that are stored, clean, unexpired and still have their workspace. */
  lemma ReuseAccepts(h: Host, id: string, now: int, keep: nat, fault: bool)
    requires h.run == Acquired(id)
    ensures PrepareReused(h, id, now, keep, fault).run.Unsynced? <==>
              !fault && id in h.leases && !h.leases[id].dirty && !Expired(h.leases[id], now) && id in h.trees
    ensures PrepareReused(h, id, now, keep, fault).run.Unsynced? ==>
              && PrepareReused(h, id, now, keep, fault).run.state.manifest == h.leases[id].manifest
              && PrepareReused(h, id, now, keep, fault).leases[id].dirty
    ensures !PrepareReused(h, id, now, keep, fault).run.Unsynced? ==>
              ActiveCount(PrepareReused(h, id, now, keep, fault), id) == if ActiveCount(h, id) == 0 then 0 else ActiveCount(h, id) - 1
  {
  }

  /**
   Why reuse is refused, and what is left: a dirty lease stays as it is, an expired one is removed, one without
   its workspace is marked dirty. In each case the lease is given back.
   */
  lemma ReuseRefuses(h: Host, id: string, now: int, keep: nat)
    requires h.run == Acquired(id) && id in h.leases
    ensures var g, l := PrepareReused(h, id, now, keep, false), h.leases[id];
            var expired := l.expires.Some? && l.expires.value <= now;
            && (l.dirty ==> g.run.NoRun? && g.leases == h.leases && g.trees == h.trees)
            && (!l.dirty && expired ==> g.run.NoRun? && g.leases == h.leases - {id} && g.trees == h.trees - {id})
            && (!l.dirty && !expired && id !in h.trees ==> g.run.NoRun? && g.leases == h.leases[id := l.(dirty := true)] && g.trees == h.trees)
  {
  }

  /** After a run that failed, its lease is dirty and released, and no later run reuses it. */
  lemma FailedNotReused(digest: Digest, h: Host, later: int, next: nat)
    requires HostInv(digest, h) && (h.run.Working? || h.run.Finalized?)
    ensures var id := h.run.id;
            var g := Execute(digest, h, [Fail(false), AcquireReuse(id), Reuse(later, next, false)]);
            g.run.NoRun? && id in g.leases && g.leases[id].dirty && ActiveCount(g, id) == 0
  {
    var id := h.run.id;
    assert ActiveCount(h, id) == 1 && id !in h.deleting;
    ThreeSteps(digest, h, Fail(false), AcquireReuse(id), Reuse(later, next, false));
    hide HostInv, Execute;
  }

  lemma ThreeSteps(digest: Digest, h: Host, a: Event, b: Event, c: Event)
    ensures Execute(digest, h, [a, b, c]) == Next(digest, Next(digest, Next(digest, h, a), b), c)
  {
    hide Next;
    assert [a, b, c][..2] == [a, b] && [a, b][..1] == [a] && [a][..0] == [];
    assert Execute(digest, h, [a]) == Next(digest, h, a);
    assert Execute(digest, h, [a, b]) == Next(digest, Execute(digest, h, [a]), b);
  }

  /** A new lease that cannot be prepared leaves the counts and the workspaces as they were, and at most a dirty record. */
  lemma NewGivesBack(h: Host, id: string, now: int, keep: nat, fault: NewFault)
    requires h.run.NoRun? && id !in h.leases && id !in h.trees && Acquire(h, id).Some? && fault != NoFault
    ensures var g := PrepareNew(Acquire(h, id).value, id, now, keep, fault);
            && g.run.NoRun? && (forall i :: ActiveCount(g, i) == ActiveCount(h, i))
            && g.trees == h.trees && g.deleting == h.deleting
            && (g.leases == h.leases || (fault == MkdirFails(false) && g.leases == h.leases[id := Lease(true, Some(now + keep), [])]))
  {
    assert h.leases - {id} == h.leases && h.trees - {id} == h.trees;
  }

  /**
   A run that is finalized at `now` and finished leaves a lease that the next run can reuse exactly
   within its term: the keep time from then on, or what was left of it if no time was given. The
   next sync starts from the manifest of the scan.
   */
  lemma FinalizedThenReused(digest: Digest, h: Host, scan: seq<Entry>, now: int, keep: nat, later: int, next: nat)
    requires HostInv(digest, h) && h.run.Working? && Scanned(digest, h.trees[h.run.id], scan)
    ensures var id := h.run.id;
            var g := Execute(digest, h, [FinalizeRun(scan, now, keep, false), Finish, AcquireReuse(id), Reuse(later, next, false)]);
            && (g.run.Unsynced? <==> if keep > 0 then later < now + keep else !Expired(h.run.state, later))
            && (g.run.Unsynced? ==> g.run.id == id && g.run.state.manifest == scan && g.trees == h.trees)
  {
    var id := h.run.id;
    var a, b, c, d := FinalizeRun(scan, now, keep, false), Finish, AcquireReuse(id), Reuse(later, next, false);
    assert ActiveCount(h, id) == 1;
    assert id !in h.deleting;
    FourSteps(digest, h, a, b, c, d);
    hide HostInv, Scanned, Execute;
  }

  lemma FourSteps(digest: Digest, h: Host, a: Event, b: Event, c: Event, d: Event)
    ensures Execute(digest, h, [a, b, c, d]) == Next(digest, Next(digest, Next(digest, Next(digest, h, a), b), c), d)
  {
    hide Next;
    assert [a, b, c, d][..3] == [a, b, c] && [a, b, c][..2] == [a, b] && [a, b][..1] == [a] && [a][..0] == [];
    assert Execute(digest, h, [a]) == Next(digest, h, a);
    assert Execute(digest, h, [a, b]) == Next(digest, Execute(digest, h, [a]), b);
    assert Execute(digest, h, [a, b, c]) == Next(digest, Execute(digest, h, [a, b]), c);
  }
}
