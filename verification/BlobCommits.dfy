/** However the calls interleave and chunks are repeated, no blob is committed twice. */
module BlobCommits {
  import opened FileTree
  import opened Options
  import opened BlobChunks
  import opened BlobReceiver

  /** The event runs the commit of this blob's writer. */
  predicate Commits(n: Net, e: Event, h: string) {
    e.Step? && e.id < |n.calls| && n.calls[e.id].Committing? && n.calls[e.id].info.hash == h
  }

  predicate Spent(s: Shared, h: string) {
    h in s.writers && s.writers[h].committed
  }

  ghost function CommitCount(digest: Digest, n: Net, events: seq<Event>, h: string): nat
    requires NetInv(digest, n)
  {
    if events == [] then 0
    else
      var front := events[..|events| - 1];
      CommitCount(digest, n, front, h) + if Commits(Run(digest, n, front), events[|events| - 1], h) then 1 else 0
  }

  lemma FailSpends(s: Shared, h: string)
    ensures Spent(Fail(s), h) <==> Spent(s, h)
  {
  }

  lemma WriteSpends(s: Shared, info: Chunk, payload: Bytes, fault: bool, h: string)
    requires info.hash in s.writers && WriterShape(s.writers[info.hash], s.cs)
    ensures var w := WriteChunk(s.writers[info.hash], info.hash, s.cs, info, payload, fault).0;
            Spent(s.(writers := s.writers[info.hash := w]), h) <==> Spent(s, h)
  {
    WriteKeepsFlag(s.writers[info.hash], info.hash, s.cs, info, payload, fault);
    hide WriteChunk, WriterShape;
  }

  lemma WriteKeepsFlag(w: Writer, hash: string, cs: int, info: Chunk, payload: Bytes, fault: bool)
    requires WriterShape(w, cs)
    ensures WriteChunk(w, hash, cs, info, payload, fault).0.committed == w.committed
  {
    hide ValidChunkShape;
  }

  lemma CommitSpends(digest: Digest, s: Shared, hash: string, fault: bool, h: string)
    requires hash in s.writers
    ensures Spent(CommitBlob(digest, s, hash, fault).0, h) <==> Spent(s, h) || h == hash
  {
  }

  /** One region spends the writer of `h` exactly if it is the commit of `h`. */
  lemma RegionSpends(digest: Digest, s: Shared, c: Call, read: Option<Bytes>, fault: bool, h: string)
    requires Ready(s, c)
    ensures Spent(StepCall(digest, s, c, read, fault).0, h) <==> Spent(s, h) || (c.Committing? && c.info.hash == h)
  {
    hide WriteChunk, CommitBlob, ValidChunkShape, LookUp, WriterShape, Fail;
    match c
    case Writing(info, payload) => WriteSpends(s, info, payload, fault, h);
    case Committing(info) => CommitSpends(digest, s, info.hash, fault, h);
    case Failing(info) => FailSpends(s, h);
    case _ =>
  }

  lemma CommittingUnspent(s: Shared, c: Call)
    requires CallInv(s, c) && c.Committing?
    ensures !Spent(s, c.info.hash)
  {
  }

  lemma CallFits(digest: Digest, n: Net, id: nat)
    requires NetInv(digest, n) && id < |n.calls|
    ensures CallInv(n.shared, n.calls[id])
  {
    assert n.calls[id] in n.calls;
    hide CallInv, SharedInv, DueOnce;
  }

  lemma StepSpends(digest: Digest, n: Net, id: nat, read: Option<Bytes>, fault: bool, h: string)
    requires NetInv(digest, n) && id < |n.calls|
    ensures Spent(Next(digest, n, Step(id, read, fault)).shared, h) <==>
              Spent(n.shared, h) || Commits(n, Step(id, read, fault), h)
    ensures Commits(n, Step(id, read, fault), h) ==> !Spent(n.shared, h)
  {
    CallReady(digest, n, id);
    CallFits(digest, n, id);
    hide NetInv, CallInv, Ready, Spent, StepCall;
    RegionSpends(digest, n.shared, n.calls[id], read, fault, h);
    if n.calls[id].Committing? {
      CommittingUnspent(n.shared, n.calls[id]);
    }
  }

  lemma NextSpends(digest: Digest, n: Net, e: Event, h: string)
    requires NetInv(digest, n)
    ensures Spent(Next(digest, n, e).shared, h) <==> Spent(n.shared, h) || Commits(n, e, h)
    ensures Commits(n, e, h) ==> !Spent(n.shared, h)
  {
    match e
    case Begin(info, len) =>
    case Step(id, read, fault) =>
      if id < |n.calls| {
        StepSpends(digest, n, id, read, fault, h);
      }
    case FailAll => FailSpends(n.shared, h);
  }

  lemma {:induction false} CountIsSpent(digest: Digest, n: Net, events: seq<Event>, h: string)
    requires NetInv(digest, n) && !Spent(n.shared, h)
    ensures CommitCount(digest, n, events, h) == if Spent(Run(digest, n, events).shared, h) then 1 else 0
  {
    hide NetInv, Next, Spent, Commits;
    if events != [] {
      var front, last := events[..|events| - 1], events[|events| - 1];
      CountIsSpent(digest, n, front, h);
      NextSpends(digest, Run(digest, n, front), last, h);
    }
  }

  lemma NothingSpent(digest: Digest, n: Net, h: string)
    requires Initial(digest, n)
    ensures !Spent(n.shared, h)
  {
    if h in n.shared.writers {
      InvParts(digest, n.shared);
      WriterFits(n.shared, h);
      TruesFull(n.shared.writers[h].completed);
      assert |n.shared.writers[h].completed| > 0;
      assert !n.shared.writers[h].completed[0];
    }
  }

  /** In every run of a new receiver each blob is committed at most once. */
  lemma CommitsOnce(digest: Digest, n: Net, events: seq<Event>, h: string)
    requires Initial(digest, n)
    ensures NetInv(digest, n) && CommitCount(digest, n, events, h) <= 1
  {
    InitialInv(digest, n);
    NothingSpent(digest, n, h);
    hide Initial, NetInv, Spent;
    CountIsSpent(digest, n, events, h);
  }
}
