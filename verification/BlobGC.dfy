/** Blob garbage collection: which files it deletes, and why a running sync never loses one. */
module BlobGC {
  import opened FileTree
  import opened Entries
  import opened Options
  import opened BlobChunks
  import opened BlobSources
  import opened BlobStores

  type Files = map<string, BlobFile>

  /** The tracked manifest file of a context. Unreadable metadata counts as an unreadable manifest. */
  datatype TrackedFile = NoManifest | Unreadable | Tracked(entries: seq<Entry>)

  datatype Context = Context(root: string, tracked: TrackedFile)

  predicate NeedsBlob(e: Entry) {
    e.kind == KindFile && e.hash != ""
  }

  function Needed(entries: seq<Entry>): set<string> {
    set e | e in entries && NeedsBlob(e) :: e.hash
  }

  function FilesOf(stores: map<string, Files>, root: string): Files {
    if root in stores then stores[root] else map[]
  }

  // ---- References ----

  /** Some entry is a file with this content hash. */
  ghost predicate FileWithHash(entries: seq<Entry>, hash: string) {
    hash != "" && exists e :: e in entries && e.kind == KindFile && e.hash == hash
  }

  lemma NeededMeaning(entries: seq<Entry>, hash: string)
    ensures hash in Needed(entries) <==> FileWithHash(entries, hash)
  {
  }

  /** The tracked manifest of some context on this data root names the hash. */
  ghost predicate Referenced(contexts: map<string, Context>, root: string, hash: string) {
    exists id :: id in contexts && contexts[id].root == root && contexts[id].tracked.Tracked? && FileWithHash(contexts[id].tracked.entries, hash)
  }

  function HashesAt(refs: map<string, set<string>>, root: string): set<string> {
    if root in refs then refs[root] else {}
  }

  /** referencedBlobHashesByRoot: one unreadable context aborts the collection. */
  method ReferencedBlobHashesByRoot(contexts: map<string, Context>) returns (ok: bool, refs: map<string, set<string>>)
    ensures ok <==> forall id :: id in contexts ==> !contexts[id].tracked.Unreadable?
    ensures ok ==> forall root, hash :: hash in HashesAt(refs, root) <==> Referenced(contexts, root, hash)
  {
    refs := map[];
    var rest := contexts.Keys;
    while rest != {}
      invariant rest <= contexts.Keys
      invariant forall id :: id in contexts && id !in rest ==> !contexts[id].tracked.Unreadable?
      invariant forall root, hash :: hash in HashesAt(refs, root) <==> Referenced(Without(contexts, rest), root, hash)
      decreases rest
    {
      var id :| id in rest;
      var context := contexts[id];
      if context.tracked.Unreadable? {
        return false, refs;
      }
      var more := if context.tracked.Tracked? then Needed(context.tracked.entries) else {};
      ReferencesMore(contexts, rest, id);
      MoreMeaning(context, more);
      refs := refs[context.root := HashesAt(refs, context.root) + more];
      rest := rest - {id};
    }
    assert Without(contexts, {}) == contexts;
    ok := true;
  }

  lemma MoreMeaning(context: Context, more: set<string>)
    requires more == if context.tracked.Tracked? then Needed(context.tracked.entries) else {}
    ensures forall hash :: hash in more <==> context.tracked.Tracked? && FileWithHash(context.tracked.entries, hash)
  {
    forall hash
      ensures hash in more <==> context.tracked.Tracked? && FileWithHash(context.tracked.entries, hash)
    {
      if context.tracked.Tracked? {
        NeededMeaning(context.tracked.entries, hash);
      }
    }
  }

  ghost function Without(contexts: map<string, Context>, rest: set<string>): map<string, Context> {
    map id | id in contexts && id !in rest :: contexts[id]
  }

  lemma ReferencesMore(contexts: map<string, Context>, rest: set<string>, id: string)
    requires id in rest && id in contexts
    ensures forall root, hash :: Referenced(Without(contexts, rest - {id}), root, hash) <==>
              || Referenced(Without(contexts, rest), root, hash)
              || (contexts[id].root == root && contexts[id].tracked.Tracked? && FileWithHash(contexts[id].tracked.entries, hash))
  {
    var few, more := Without(contexts, rest), Without(contexts, rest - {id});
    forall root, hash
      ensures Referenced(more, root, hash) <==>
                || Referenced(few, root, hash)
                || (contexts[id].root == root && contexts[id].tracked.Tracked? && FileWithHash(contexts[id].tracked.entries, hash))
    {
      hide FileWithHash;
      if Referenced(few, root, hash) {
        var c :| c in few && few[c].root == root && few[c].tracked.Tracked? && FileWithHash(few[c].tracked.entries, hash);
        assert c in more && more[c] == few[c];
      }
      if contexts[id].root == root && contexts[id].tracked.Tracked? && FileWithHash(contexts[id].tracked.entries, hash) {
        assert id in more;
      }
      if Referenced(more, root, hash) {
        var c :| c in more && more[c].root == root && more[c].tracked.Tracked? && FileWithHash(more[c].tracked.entries, hash);
        assert c != id ==> c in few && few[c] == contexts[c];
      }
    }
  }

  // ---- The sweep ----

  function SizeOf(files: Files, names: seq<string>): nat
    requires forall n :: n in names ==> n in files
  {
    if names == [] then 0
    else SizeOf(files, names[..|names| - 1]) + |files[names[|names| - 1]].content|
  }

  ghost predicate NoRepeats(names: seq<string>) {
    forall i, j :: 0 <= i < j < |names| ==> names[i] != names[j]
  }

  /** A collection of one root may only remove files, and never a referenced one. */
  ghost predicate Reduced(contexts: map<string, Context>, root: string, before: Files, after: Files) {
    && (forall n :: n in before && Referenced(contexts, root, n) ==> n in after)
    && (forall n :: n in after ==> n in before && after[n] == before[n])
  }

  ghost predicate OnlyReferenced(contexts: map<string, Context>, root: string, files: Files) {
    forall n :: n in files ==> Referenced(contexts, root, n)
  }

  lemma PrunedReduced(contexts: map<string, Context>, root: string, refs: map<string, set<string>>, before: Files, after: Files)
    requires forall r, hash :: hash in HashesAt(refs, r) <==> Referenced(contexts, r, hash)
    requires forall n :: n in after ==> n in before && after[n] == before[n]
    requires forall n :: n in before && n in HashesAt(refs, root) ==> n in after
    ensures Reduced(contexts, root, before, after)
    ensures after.Keys == before.Keys * HashesAt(refs, root) ==> OnlyReferenced(contexts, root, after)
  {
  }

  lemma Untouched(contexts: map<string, Context>, root: string, files: Files)
    ensures Reduced(contexts, root, files, files)
  {
  }

  class BlobRoots {
    var stores: map<string, Files>

    constructor (stores: map<string, Files>)
      ensures this.stores == stores
    {
      this.stores := stores;
    }

    /**
     pruneUnreferencedBlobsInRoot: deletes exactly the unreferenced files, lists each of them once
     and adds up their sizes. A deletion that fails stops it, but never costs a referenced file.
     */
    method PruneUnreferencedBlobsInRoot(root: string, refs: set<string>) returns (ok: bool, deleted: seq<string>, bytes: nat, ghost fault: bool)
      modifies this
      ensures forall r :: r != root ==> FilesOf(stores, r) == FilesOf(old(stores), r)
      ensures forall n :: n in FilesOf(stores, root) ==> n in FilesOf(old(stores), root) && FilesOf(stores, root)[n] == FilesOf(old(stores), root)[n]
      ensures forall n :: n in FilesOf(old(stores), root) && n in refs ==> n in FilesOf(stores, root)
      ensures ok ==> FilesOf(stores, root).Keys == FilesOf(old(stores), root).Keys * refs
      ensures ok ==> NoRepeats(deleted) && forall n :: n in deleted <==> n in FilesOf(old(stores), root) && n !in refs
      ensures ok ==> bytes == SizeOf(FilesOf(old(stores), root), deleted)
      ensures !ok ==> deleted == [] && bytes == 0
      ensures ok <==> !fault
    {
      var files := FilesOf(stores, root);
      var all := files;
      deleted, bytes, fault := [], 0, false;
      var rest := files.Keys;
      while rest != {}
        invariant rest <= files.Keys <= all.Keys && !fault
        invariant forall n :: n in files ==> files[n] == all[n]
        invariant forall n :: n in files <==> n in all && (n in rest || n in refs)
        invariant forall n :: n in deleted <==> n in all && n !in rest && n !in refs
        invariant NoRepeats(deleted)
        invariant bytes == SizeOf(all, deleted)
        decreases rest
      {
        var name :| name in rest;
        rest := rest - {name};
        if name !in refs {
          bytes := bytes + |files[name].content|;
          assert (deleted + [name])[..|deleted|] == deleted;
          deleted := deleted + [name];
          var broken: bool := *;
          if broken {
            stores := stores[root := files];
            return false, [], 0, true;
          }
          files := files - {name};
        }
      }
      stores := stores[root := files];
      ok := true;
    }

    /** One turn of the loop over the roots, judged by the manifests. */
    method PruneOneRoot(contexts: map<string, Context>, root: string, refs: map<string, set<string>>) returns (ok: bool, bytes: nat, ghost fault: bool)
      requires forall r, hash :: hash in HashesAt(refs, r) <==> Referenced(contexts, r, hash)
      modifies this
      ensures forall r :: r != root ==> FilesOf(stores, r) == FilesOf(old(stores), r)
      ensures Reduced(contexts, root, FilesOf(old(stores), root), FilesOf(stores, root))
      ensures ok ==> OnlyReferenced(contexts, root, FilesOf(stores, root))
      ensures ok <==> !fault
    {
      hide Referenced, SizeOf, NoRepeats, Reduced, OnlyReferenced;
      ghost var before := FilesOf(stores, root);
      var deleted;
      ok, deleted, bytes, fault := PruneUnreferencedBlobsInRoot(root, HashesAt(refs, root));
      PrunedReduced(contexts, root, refs, before, FilesOf(stores, root));
    }

    /**
     pruneUnreferencedBlobsInRoots, under the write lock: no outcome deletes a blob that a tracked
     manifest names on its own root, an unreadable context deletes nothing at all, and success
     leaves nothing else on the listed roots.
     */
    method PruneUnreferencedBlobsInRoots(contexts: map<string, Context>, roots: seq<string>) returns (ok: bool, total: nat, ghost fault: bool)
      modifies this
      ensures forall root :: Reduced(contexts, root, FilesOf(old(stores), root), FilesOf(stores, root))
      ensures forall root :: root !in roots ==> FilesOf(stores, root) == FilesOf(old(stores), root)
      ensures (exists id :: id in contexts && contexts[id].tracked.Unreadable?) ==> !ok && stores == old(stores)
      ensures ok ==> forall root :: root in roots ==> OnlyReferenced(contexts, root, FilesOf(stores, root))
      ensures ok <==> !fault && forall id :: id in contexts ==> !contexts[id].tracked.Unreadable?
    {
      var refs;
      total, fault := 0, false;
      ok, refs := ReferencedBlobHashesByRoot(contexts);
      forall root
        ensures Reduced(contexts, root, FilesOf(stores, root), FilesOf(stores, root))
      {
        Untouched(contexts, root, FilesOf(stores, root));
      }
      if !ok {
        return;
      }
      hide Referenced, SizeOf, NoRepeats, Reduced, OnlyReferenced, FilesOf;
      for i := 0 to |roots|
        invariant forall root :: Reduced(contexts, root, FilesOf(old(stores), root), FilesOf(stores, root))
        invariant forall root :: root !in roots[..i] ==> FilesOf(stores, root) == FilesOf(old(stores), root)
        invariant !fault
        invariant forall root :: root in roots[..i] ==> OnlyReferenced(contexts, root, FilesOf(stores, root))
      {
        assert roots[..i + 1] == roots[..i] + [roots[i]];
        if roots[i] !in roots[..i] {
          var pruned, bytes, broken := PruneOneRoot(contexts, roots[i], refs);
          if !pruned {
            return false, 0, true;
          }
          total := total + bytes;
        }
      }
      assert roots[..|roots|] == roots;
    }
  }

  // ---- Syncs and collections at once ----

  datatype Phase = Queued | Entered | Planned | Ready | Applied | Saved | Left

  /** One pre-run sync: the lock region of syncClientManifestAndSave. */
  datatype SyncRun = SyncRun(
    phase: Phase,
    context: string,
    root: string,
    target: seq<Entry>,
    changed: seq<Entry>,
    missing: set<string>,
    received: set<string>)

  datatype Collector = Waiting | Holding | Sweeping(refs: iset<(string, string)>) | Finished

  datatype Host = Host(
    stores: map<string, Files>,
    contexts: map<string, Context>,
    readers: set<nat>,
    writer: Option<nat>,
    syncs: seq<SyncRun>,
    collectors: seq<Collector>)

  datatype Event =
    // a sync: take the read lock; diff and look for missing blobs; store a received blob;
    // see the transfer end well; apply; save the manifest; release, at the end or on any error
    | Enter(i: nat) | Plan(i: nat, changes: seq<Entry>) | Receive(i: nat, hash: string, file: BlobFile)
    | Proceed(i: nat) | Apply(i: nat) | Save(i: nat) | Leave(i: nat)
    // a collection: take the write lock; read the references; delete one file; release
    | Lock(j: nat) | Collect(j: nat) | Sweep(j: nat, root: string, name: string) | Unlock(j: nat)
    // outside the lock: a finished run stores changed files and saves its manifest; a context goes
    | PostStore(root: string, hash: string, file: BlobFile) | PostSave(id: string, tracked: TrackedFile) | Forget(id: string)

  predicate Holds(p: Phase) {
    p != Queued && p != Left
  }

  predicate CollectorHolds(c: Collector) {
    c.Holding? || c.Sweeping?
  }

  ghost function MissingOf(digest: Digest, files: Files, changed: seq<Entry>): set<string> {
    set h | h in Needed(changed) && IsMissing(digest, files, changed, h)
  }

  function PutFile(stores: map<string, Files>, root: string, hash: string, file: BlobFile): map<string, Files> {
    stores[root := FilesOf(stores, root)[hash := file]]
  }

  predicate Verified(digest: Digest, hash: string, file: BlobFile) {
    ValidHash(hash) && digest(file.content) == hash
  }

  /** What lets an event happen. */
  ghost predicate Enabled(digest: Digest, h: Host, e: Event) {
    match e
    case Enter(i) => i < |h.syncs| && h.syncs[i].phase == Queued && h.writer.None?
    case Plan(i, _) => i < |h.syncs| && h.syncs[i].phase == Entered
    case Receive(i, hash, file) => i < |h.syncs| && h.syncs[i].phase == Planned && hash in h.syncs[i].missing && Verified(digest, hash, file)
    case Proceed(i) => i < |h.syncs| && h.syncs[i].phase == Planned && h.syncs[i].missing <= h.syncs[i].received
    case Apply(i) => i < |h.syncs| && h.syncs[i].phase == Ready
    case Save(i) => i < |h.syncs| && h.syncs[i].phase == Applied
    case Leave(i) => i < |h.syncs| && Holds(h.syncs[i].phase)
    case Lock(j) => j < |h.collectors| && h.collectors[j].Waiting? && h.writer.None? && h.readers == {}
    case Collect(j) => j < |h.collectors| && h.collectors[j].Holding?
    case Sweep(j, root, name) => j < |h.collectors| && h.collectors[j].Sweeping? && (root, name) !in h.collectors[j].refs
    case Unlock(j) => j < |h.collectors| && CollectorHolds(h.collectors[j])
    case PostStore(_, hash, file) => Verified(digest, hash, file)
    case PostSave(id, _) => id in h.contexts
    case Forget(_) => true
  }

  ghost function Effect(digest: Digest, h: Host, e: Event): Host
    requires Enabled(digest, h, e)
  {
    match e
    case Enter(i) => h.(readers := h.readers + {i}, syncs := h.syncs[i := h.syncs[i].(phase := Entered)])
    case Plan(i, changes) =>
      var missing := MissingOf(digest, FilesOf(h.stores, h.syncs[i].root), changes);
      h.(syncs := h.syncs[i := h.syncs[i].(phase := Planned, changed := changes, missing := missing, received := {})])
    case Receive(i, hash, file) =>
      h.(stores := PutFile(h.stores, h.syncs[i].root, hash, file),
         syncs := h.syncs[i := h.syncs[i].(received := h.syncs[i].received + {hash})])
    case Proceed(i) => h.(syncs := h.syncs[i := h.syncs[i].(phase := Ready)])
    case Apply(i) => h.(syncs := h.syncs[i := h.syncs[i].(phase := Applied)])
    case Save(i) =>
      h.(contexts := h.contexts[h.syncs[i].context := Context(h.syncs[i].root, Tracked(h.syncs[i].target))],
         syncs := h.syncs[i := h.syncs[i].(phase := Saved)])
    case Leave(i) => h.(readers := h.readers - {i}, syncs := h.syncs[i := h.syncs[i].(phase := Left)])
    case Lock(j) => h.(writer := Some(j), collectors := h.collectors[j := Holding])
    case Collect(j) =>
      if exists id :: id in h.contexts && h.contexts[id].tracked.Unreadable? then h
      else h.(collectors := h.collectors[j := Sweeping(iset root, hash | Referenced(h.contexts, root, hash) :: (root, hash))])
    case Sweep(j, root, name) => h.(stores := h.stores[root := FilesOf(h.stores, root) - {name}])
    case Unlock(j) => h.(writer := None, collectors := h.collectors[j := Finished])
    case PostStore(root, hash, file) => h.(stores := PutFile(h.stores, root, hash, file))
    case PostSave(id, tracked) => h.(contexts := h.contexts[id := h.contexts[id].(tracked := tracked)])
    case Forget(id) => h.(contexts := h.contexts - {id})
  }

  /** An event that is not possible yet does nothing. */
  ghost function Next(digest: Digest, h: Host, e: Event): Host {
    if Enabled(digest, h, e) then Effect(digest, h, e) else h
  }

  ghost function Run(digest: Digest, h: Host, events: seq<Event>): Host {
    if events == [] then h else Next(digest, Run(digest, h, events[..|events| - 1]), events[|events| - 1])
  }

  ghost predicate Idle(h: Host) {
    && h.readers == {} && h.writer.None?
    && (forall i :: 0 <= i < |h.syncs| ==> h.syncs[i].phase == Queued)
    && (forall j :: 0 <= j < |h.collectors| ==> h.collectors[j].Waiting?)
  }

  /** The store can serve this blob to an apply. */
  ghost predicate Serves(digest: Digest, h: Host, root: string, hash: string) {
    Usable(digest, FilesOf(h.stores, root), hash, -1)
  }

  ghost predicate LockInv(h: Host) {
    && (h.writer.Some? ==> h.readers == {})
    && (forall i :: 0 <= i < |h.syncs| && Holds(h.syncs[i].phase) ==> i in h.readers)
    && (forall j :: 0 <= j < |h.collectors| && CollectorHolds(h.collectors[j]) ==> h.writer == Some(j))
  }

  /** What a sync may rely on: a needed blob is there, unless it is still to be received. */
  ghost predicate SyncInv(digest: Digest, h: Host, s: SyncRun) {
    s.phase in {Planned, Ready, Applied, Saved} ==>
      forall hash :: FileWithHash(s.changed, hash) ==>
        Serves(digest, h, s.root, hash) || (s.phase == Planned && hash in s.missing - s.received)
  }

  ghost predicate HostInv(digest: Digest, h: Host) {
    LockInv(h) && forall i :: 0 <= i < |h.syncs| ==> SyncInv(digest, h, h.syncs[i])
  }

  /** Whatever is not missing can be served. */
  lemma NotMissingServed(digest: Digest, files: Files, changed: seq<Entry>, hash: string)
    requires FileWithHash(changed, hash) && hash !in MissingOf(digest, files, changed)
    ensures Usable(digest, files, hash, -1)
  {
    NeededMeaning(changed, hash);
    var e :| e in changed && e.kind == KindFile && e.hash == hash;
    var n :| 0 <= n < |changed| && changed[n] == e;
    var k := HasSource(changed, hash, n);
    hide IsSource, ValidHash;
    assert !IsMissing(digest, files, changed, hash);
    assert Usable(digest, files, hash, changed[k].size);
  }

  /** A verified file put into place never takes a served blob away. */
  lemma PutKeepsServed(digest: Digest, h: Host, g: Host, root: string, name: string, file: BlobFile)
    requires g.stores == PutFile(h.stores, root, name, file) && Verified(digest, name, file)
    ensures Serves(digest, g, root, name)
    ensures forall r, n :: Serves(digest, h, r, n) ==> Serves(digest, g, r, n)
  {
    hide ValidHash;
  }

  lemma SyncInvKept(digest: Digest, h: Host, g: Host, s: SyncRun)
    requires SyncInv(digest, h, s)
    requires forall r, n :: Serves(digest, h, r, n) ==> Serves(digest, g, r, n)
    ensures SyncInv(digest, g, s)
  {
    hide Serves, FileWithHash;
  }

  /** Deleting needs the write lock, and then no sync is past its start. */
  lemma SweepHarmless(digest: Digest, h: Host, e: Event)
    requires HostInv(digest, h) && e.Sweep? && Enabled(digest, h, e)
    ensures HostInv(digest, Effect(digest, h, e))
  {
    var g := Effect(digest, h, e);
    forall i | 0 <= i < |g.syncs|
      ensures SyncInv(digest, g, g.syncs[i])
    {
      assert !Holds(h.syncs[i].phase);
    }
  }

  lemma LockKept(digest: Digest, h: Host, e: Event)
    requires LockInv(h) && Enabled(digest, h, e)
    ensures LockInv(Effect(digest, h, e))
  {
    hide MissingOf, Verified, PutFile, FilesOf, Referenced;
  }

  lemma OthersKept(digest: Digest, h: Host, e: Event)
    requires Enabled(digest, h, e) && !e.Sweep?
    ensures forall r, n :: Serves(digest, h, r, n) ==> Serves(digest, Effect(digest, h, e), r, n)
  {
    var g := Effect(digest, h, e);
    match e
    case Receive(i, hash, file) => PutKeepsServed(digest, h, g, h.syncs[i].root, hash, file);
    case PostStore(root, hash, file) => PutKeepsServed(digest, h, g, root, hash, file);
    case _ => assert g.stores == h.stores;
  }

  /** The sync that moves, moves to a state it can rely on. */
  lemma MovedSync(digest: Digest, h: Host, e: Event, i: nat)
    requires HostInv(digest, h) && Enabled(digest, h, e) && !e.Sweep?
    requires i < |Effect(digest, h, e).syncs|
    ensures SyncInv(digest, Effect(digest, h, e), Effect(digest, h, e).syncs[i])
  {
    var g := Effect(digest, h, e);
    OthersKept(digest, h, e);
    assert SyncInv(digest, h, h.syncs[i]);
    SyncInvKept(digest, h, g, h.syncs[i]);
    if g.syncs[i] != h.syncs[i] {
      match e
      case Plan(_, changes) =>
        forall hash | FileWithHash(changes, hash) && hash !in g.syncs[i].missing
          ensures Serves(digest, g, g.syncs[i].root, hash)
        {
          NotMissingServed(digest, FilesOf(h.stores, h.syncs[i].root), changes, hash);
        }
      case Receive(_, hash, file) =>
        PutKeepsServed(digest, h, g, h.syncs[i].root, hash, file);
      case _ =>
    }
  }

  lemma NextKeeps(digest: Digest, h: Host, e: Event)
    requires HostInv(digest, h)
    ensures HostInv(digest, Next(digest, h, e))
  {
    if Enabled(digest, h, e) {
      if e.Sweep? {
        SweepHarmless(digest, h, e);
      } else {
        LockKept(digest, h, e);
        forall i | 0 <= i < |Effect(digest, h, e).syncs|
          ensures SyncInv(digest, Effect(digest, h, e), Effect(digest, h, e).syncs[i])
        {
          MovedSync(digest, h, e, i);
        }
        hide Effect, Enabled, SyncInv, LockInv;
      }
    }
  }

  lemma IdleInv(digest: Digest, h: Host)
    requires Idle(h)
    ensures HostInv(digest, h)
  {
  }

  lemma ReadyServed(digest: Digest, h: Host)
    requires HostInv(digest, h)
    ensures forall i, e :: 0 <= i < |h.syncs| && h.syncs[i].phase in {Ready, Applied} &&
                           e in h.syncs[i].changed && e.kind == KindFile && e.hash != "" ==>
              var files := FilesOf(h.stores, h.syncs[i].root);
              e.hash in files && digest(files[e.hash].content) == e.hash
  {
    hide LockInv;
    forall i, e | 0 <= i < |h.syncs| && h.syncs[i].phase in {Ready, Applied} &&
                  e in h.syncs[i].changed && e.kind == KindFile && e.hash != ""
      ensures Serves(digest, h, h.syncs[i].root, e.hash)
    {
      assert SyncInv(digest, h, h.syncs[i]);
      assert FileWithHash(h.syncs[i].changed, e.hash);
    }
  }

  /**
   In every interleaving of any number of syncs, collections and finished runs, a sync that
   reaches the apply step finds every blob it needs in the store, with the right content.
   */
  lemma {:induction false} SyncsNeverMissBlobs(digest: Digest, h: Host, events: seq<Event>)
    requires Idle(h)
    ensures HostInv(digest, Run(digest, h, events))
    ensures forall i, e :: 0 <= i < |Run(digest, h, events).syncs| && Run(digest, h, events).syncs[i].phase in {Ready, Applied} &&
                           e in Run(digest, h, events).syncs[i].changed && e.kind == KindFile && e.hash != "" ==>
              var files := FilesOf(Run(digest, h, events).stores, Run(digest, h, events).syncs[i].root);
              e.hash in files && digest(files[e.hash].content) == e.hash
  {
    hide HostInv, Next, Idle;
    if events == [] {
      IdleInv(digest, h);
    } else {
      SyncsNeverMissBlobs(digest, h, events[..|events| - 1]);
      NextKeeps(digest, Run(digest, h, events[..|events| - 1]), events[|events| - 1]);
    }
    hide Run, Next, HostInv;
    ReadyServed(digest, Run(digest, h, events));
  }

  // ---- What a collection deletes ----

  /** What a collection read as referenced stays with it until it is over. */
  lemma {:induction false} RefsStay(digest: Digest, h: Host, events: seq<Event>, m: nat, k: nat, j: nat, refs: iset<(string, string)>)
    requires m <= k <= |events| && j < |Run(digest, h, events[..m]).collectors|
    requires Run(digest, h, events[..m]).collectors[j] == Sweeping(refs)
    ensures j < |Run(digest, h, events[..k]).collectors|
    ensures var c := Run(digest, h, events[..k]).collectors[j]; c == Sweeping(refs) || c == Finished
    decreases k
  {
    hide Next;
    if m < k {
      RefsStay(digest, h, events, m, k - 1, j, refs);
      assert events[..k][..k - 1] == events[..k - 1];
      CollectorStep(digest, Run(digest, h, events[..k - 1]), events[k - 1], j, refs);
    }
  }

  lemma CollectorStep(digest: Digest, h: Host, e: Event, j: nat, refs: iset<(string, string)>)
    requires j < |h.collectors| && (h.collectors[j] == Sweeping(refs) || h.collectors[j] == Finished)
    ensures j < |Next(digest, h, e).collectors|
    ensures Next(digest, h, e).collectors[j] == Sweeping(refs) || Next(digest, h, e).collectors[j] == Finished
  {
    hide MissingOf, Referenced, PutFile, FilesOf, Verified;
  }

  lemma CollectReads(digest: Digest, h: Host, j: nat)
    requires j < |h.collectors| && h.collectors[j].Holding?
    requires forall id :: id in h.contexts ==> !h.contexts[id].tracked.Unreadable?
    ensures var refs := iset r, n | Referenced(h.contexts, r, n) :: (r, n);
            var g := Next(digest, h, Collect(j)); j < |g.collectors| && g.collectors[j] == Sweeping(refs)
  {
    hide Referenced;
  }

  lemma SweepRefused(digest: Digest, h: Host, j: nat, root: string, name: string)
    requires j < |h.collectors| && (h.collectors[j].Finished? || (h.collectors[j].Sweeping? && (root, name) in h.collectors[j].refs))
    ensures Next(digest, h, Sweep(j, root, name)) == h
  {
  }

  lemma RunLast(digest: Digest, h: Host, events: seq<Event>, k: nat)
    requires k < |events|
    ensures Run(digest, h, events[..k + 1]) == Next(digest, Run(digest, h, events[..k]), events[k])
  {
    assert events[..k + 1][..k] == events[..k];
    hide Next;
  }

  /**
   A file that a tracked manifest named when a collection read the references is never deleted by that collection,
   however syncs, runs and other collections go on meanwhile.
   */
  lemma SweepSparesReferenced(digest: Digest, h: Host, events: seq<Event>, m: nat, k: nat, j: nat, root: string, name: string)
    requires m < k < |events| && events[m] == Collect(j) && events[k] == Sweep(j, root, name)
    requires var s := Run(digest, h, events[..m]);
             j < |s.collectors| && s.collectors[j].Holding? && Referenced(s.contexts, root, name) &&
             forall id :: id in s.contexts ==> !s.contexts[id].tracked.Unreadable?
    ensures Run(digest, h, events[..k + 1]) == Run(digest, h, events[..k])
  {
    hide Next, Run, Referenced;
    var s := Run(digest, h, events[..m]);
    RunLast(digest, h, events, m);
    CollectReads(digest, s, j);
    var refs := iset r, n | Referenced(s.contexts, r, n) :: (r, n);
    RefsStay(digest, h, events, m + 1, k, j, refs);
    SweepRefused(digest, Run(digest, h, events[..k]), j, root, name);
    RunLast(digest, h, events, k);
  }
}
