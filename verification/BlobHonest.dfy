/** With an honest sender the receiver's files, and then its store, hold exactly the source bytes. */
module BlobHonest {
  import opened FileTree
  import opened Options
  import opened BlobChunks
  import opened BlobReceiver

  /** The number of the chunk that holds a byte. */
  function Slot(x: int, cs: int): int
    requires 0 < cs
  {
    x / cs
  }

  lemma SlotMeaning(x: int, index: int, cs: int)
    requires 0 < cs
    ensures Slot(x, cs) == index <==> index * cs <= x < index * cs + cs
  {
    assert x == (x / cs) * cs + x % cs;
    MultiplesApart(x / cs, index, cs);
    MultiplesApart(index, x / cs, cs);
  }

  lemma SlotInside(x: int, size: int, cs: int)
    requires 0 <= x < size && 0 < cs
    ensures 0 <= Slot(x, cs) < CountOf(size, cs)
  {
    assert x == (x / cs) * cs + x % cs;
    MultiplesBelow(size, cs, x / cs);
  }

  /** Every byte of a completed chunk is the source's byte. */
  ghost predicate FileHonest(w: Writer, cs: int, source: Bytes) {
    && 0 < cs && |source| == w.size == |w.file|
    && forall x :: 0 <= x < w.size && 0 <= Slot(x, cs) < |w.completed| && w.completed[Slot(x, cs)] ==> w.file[x] == source[x]
  }

  ghost predicate PayloadHonest(info: Chunk, payload: Bytes, source: map<string, Bytes>) {
    info.hash in source && 0 <= info.offset && info.offset + |payload| <= |source[info.hash]| ==>
      payload == source[info.hash][info.offset..info.offset + |payload|]
  }

  ghost predicate Honest(n: Net, source: map<string, Bytes>) {
    && (forall h :: h in n.shared.writers ==> h in source && FileHonest(n.shared.writers[h], n.shared.cs, source[h]))
    && (forall h :: h in n.shared.writers && Has(n.shared.store, h, n.shared.writers[h].size) ==>
          n.shared.store[h] == source[h])
    && (forall c :: c in n.calls && c.Writing? ==> PayloadHonest(c.info, c.payload, source))
  }

  /** The network delivers the bytes of the source, or breaks off. */
  ghost predicate EventHonest(n: Net, e: Event, source: map<string, Bytes>) {
    e.Step? && e.id < |n.calls| && n.calls[e.id].Reading? && e.read.Some? ==>
      PayloadHonest(n.calls[e.id].info, e.read.value, source)
  }

  lemma WriteHonest(w: Writer, hash: string, cs: int, info: Chunk, payload: Bytes, fault: bool, source: map<string, Bytes>)
    requires WriterShape(w, cs) && hash in source && info.hash == hash
    requires FileHonest(w, cs, source[hash]) && PayloadHonest(info, payload, source)
    ensures FileHonest(WriteChunk(w, hash, cs, info, payload, fault).0, cs, source[hash])
  {
    var (v, result) := WriteChunk(w, hash, cs, info, payload, fault);
    if v != w {
      var blob := Descriptor(hash, w.size);
      ReceiverAcceptsPlan(info, blob, cs, |payload|);
      PlannedIndex(info, blob, cs);
      var index := IndexOf(info, w.size, cs);
      PlannedOffset(info, blob, cs);
      hide PlanOf, ValidChunkShape, WriterShape, CountOf, Slot, IndexOf;
      forall x | 0 <= x < w.size && 0 <= Slot(x, cs) < |v.completed| && v.completed[Slot(x, cs)]
        ensures v.file[x] == source[hash][x]
      {
        SlotMeaning(x, index, cs);
        if Slot(x, cs) == index {
          assert info.offset <= x < info.offset + |payload|;
          assert v.file[x] == payload[x - info.offset];
        } else {
          assert w.completed[Slot(x, cs)];
          assert !(info.offset <= x < info.offset + |payload|);
          assert v.file[x] == w.file[x];
        }
      }
    }
  }

  lemma PlannedOffset(info: Chunk, blob: Descriptor, cs: int)
    requires 0 <= blob.size && 0 < cs && info in PlanOf(blob, cs)
    ensures info.offset == IndexOf(info, blob.size, cs) * cs && info.size == blob.size
  {
    PlannedIndex(info, blob, cs);
  }

  /** A full honest file is the source. */
  lemma FullFile(w: Writer, cs: int, source: Bytes)
    requires WriterShape(w, cs) && w.count == Trues(w.completed) == |w.completed| && FileHonest(w, cs, source)
    ensures w.file == source
  {
    TruesFull(w.completed);
    hide Slot, CountOf, Trues;
    forall x | 0 <= x < w.size
      ensures w.file[x] == source[x]
    {
      SlotInside(x, w.size, cs);
    }
  }

  lemma CommitHonest(digest: Digest, n: Net, h: string, fault: bool, source: map<string, Bytes>)
    requires NetInv(digest, n) && Honest(n, source)
    requires h in n.shared.writers && n.shared.writers[h].count == |n.shared.writers[h].completed| && !n.shared.writers[h].committed
    ensures var t := CommitBlob(digest, n.shared, h, fault).0;
            && (forall g :: g in t.writers ==> g in source && FileHonest(t.writers[g], t.cs, source[g]))
            && (forall g :: g in t.writers && Has(t.store, g, t.writers[g].size) ==> t.store[g] == source[g])
  {
    InvParts(digest, n.shared);
    WriterFits(n.shared, h);
    FullFile(n.shared.writers[h], n.shared.cs, source[h]);
    CommitShape(digest, n.shared, h, fault);
    hide NetInv, CommitBlob, SharedInv, WritersGood, WriterGood, CountsGood, StoreGood, SettledStored, WriterShape, Trues;
    HonestMarked(n.shared.writers[h], n.shared.cs, source[h]);
    hide FileHonest;
  }

  lemma HonestMarked(w: Writer, cs: int, source: Bytes)
    requires FileHonest(w, cs, source)
    ensures FileHonest(w.(committed := true), cs, source) && FileHonest(w.(aborted := true), cs, source)
  {
  }

  lemma FailHonest(s: Shared, source: map<string, Bytes>)
    requires forall h :: h in s.writers ==> h in source && FileHonest(s.writers[h], s.cs, source[h])
    ensures forall h :: h in Fail(s).writers ==> h in source && FileHonest(Fail(s).writers[h], Fail(s).cs, source[h])
    ensures forall h :: h in Fail(s).writers ==> Fail(s).writers[h].size == s.writers[h].size
  {
    forall h | h in s.writers
      ensures FileHonest(s.writers[h].(aborted := true), s.cs, source[h])
    {
      HonestMarked(s.writers[h], s.cs, source[h]);
    }
    hide FileHonest;
  }

  /** A step that replaces one call and leaves writers and store alone. */
  lemma CallHonest(n: Net, id: nat, c: Call, source: map<string, Bytes>)
    requires Honest(n, source) && id < |n.calls|
    requires c.Writing? ==> PayloadHonest(c.info, c.payload, source)
    ensures Honest(n.(calls := n.calls[id := c]), source)
  {
    hide FileHonest, PayloadHonest, Has;
  }

  lemma WriteSize(w: Writer, hash: string, cs: int, info: Chunk, payload: Bytes, fault: bool)
    requires WriterShape(w, cs)
    ensures WriteChunk(w, hash, cs, info, payload, fault).0.size == w.size
  {
  }

  lemma WriterHonest(n: Net, h: string, w: Writer, source: map<string, Bytes>)
    requires Honest(n, source) && h in n.shared.writers && w.size == n.shared.writers[h].size
    requires h in source && FileHonest(w, n.shared.cs, source[h])
    ensures Honest(n.(shared := n.shared.(writers := n.shared.writers[h := w])), source)
  {
    hide FileHonest, PayloadHonest;
  }

  lemma WritingHonest(digest: Digest, n: Net, id: nat, fault: bool, source: map<string, Bytes>)
    requires NetInv(digest, n) && Honest(n, source) && id < |n.calls| && n.calls[id].Writing?
    ensures forall read :: Honest(Next(digest, n, Step(id, read, fault)), source)
  {
    var s, call := n.shared, n.calls[id];
    assert call in n.calls && CallInv(s, call);
    var info := call.info;
    InvParts(digest, s);
    WriterFits(s, info.hash);
    WriteHonest(s.writers[info.hash], info.hash, s.cs, info, call.payload, fault, source);
    WriteSize(s.writers[info.hash], info.hash, s.cs, info, call.payload, fault);
    hide CallInv, WritersGood, WriterGood, WriteChunk, SharedInv, CountsGood, StoreGood, SettledStored, WriterShape, FileHonest, Honest, DueOnce;
    var (w, result) := WriteChunk(s.writers[info.hash], info.hash, s.cs, info, call.payload, fault);
    WriterHonest(n, info.hash, w, source);
    CallHonest(n.(shared := s.(writers := s.writers[info.hash := w])), id, AfterWrite(info, result), source);
  }

  lemma SharedHonest(n: Net, t: Shared, source: map<string, Bytes>)
    requires Honest(n, source) && t.cs == n.shared.cs
    requires forall g :: g in t.writers ==> g in source && FileHonest(t.writers[g], t.cs, source[g])
    requires forall g :: g in t.writers && Has(t.store, g, t.writers[g].size) ==> t.store[g] == source[g]
    ensures Honest(n.(shared := t), source)
  {
    hide FileHonest, PayloadHonest, Has;
  }

  lemma CommittingHonest(digest: Digest, n: Net, id: nat, fault: bool, source: map<string, Bytes>)
    requires NetInv(digest, n) && Honest(n, source) && id < |n.calls| && n.calls[id].Committing?
    ensures forall read :: Honest(Next(digest, n, Step(id, read, fault)), source)
  {
    var s, call := n.shared, n.calls[id];
    assert call in n.calls && CallInv(s, call);
    InvParts(digest, s);
    CommitHonest(digest, n, call.info.hash, fault, source);
    var (t, ok) := CommitBlob(digest, s, call.info.hash, fault);
    assert t.cs == s.cs;
    hide CallInv, WritersGood, WriterGood, CommitBlob, SharedInv, CountsGood, StoreGood, SettledStored, FileHonest, Honest, DueOnce, Has;
    SharedHonest(n, t, source);
    CallHonest(n.(shared := t), id, AfterCommit(call.info, ok), source);
  }

  lemma FailingHonest(n: Net, source: map<string, Bytes>)
    requires Honest(n, source)
    ensures Honest(n.(shared := Fail(n.shared)), source)
  {
    FailHonest(n.shared, source);
    assert Fail(n.shared).cs == n.shared.cs && Fail(n.shared).store == n.shared.store;
    hide FileHonest, Fail, PayloadHonest;
    SharedHonest(n, Fail(n.shared), source);
  }

  lemma StepHonest(digest: Digest, n: Net, id: nat, read: Option<Bytes>, fault: bool, source: map<string, Bytes>)
    requires NetInv(digest, n) && Honest(n, source) && id < |n.calls|
    requires EventHonest(n, Step(id, read, fault), source)
    ensures Honest(Next(digest, n, Step(id, read, fault)), source)
  {
    var s, call := n.shared, n.calls[id];
    assert call in n.calls && CallInv(s, call);
    hide SharedInv, DueOnce, PayloadHonest, Honest, CallInv, LookUp, ValidChunkShape, WriteChunk, CommitBlob, Fail;
    match call
    case Writing(info, payload) =>
      WritingHonest(digest, n, id, fault, source);
    case Committing(info) =>
      CommittingHonest(digest, n, id, fault, source);
    case Failing(info) =>
      FailingHonest(n, source);
      CallHonest(n.(shared := Fail(s)), id, Ended(info, Failed), source);
    case Finishing(info) =>
      FinishingHonest(n, info.hash, source);
      CallHonest(n.(shared := Finish(s, info.hash)), id, Ended(info, Accepted), source);
    case Begun(info, len) =>
      CallHonest(n, id, Next(digest, n, Step(id, read, fault)).calls[id], source);
    case Checking(info, len) =>
      CallHonest(n, id, Next(digest, n, Step(id, read, fault)).calls[id], source);
    case Reading(info, len) =>
      CallHonest(n, id, Next(digest, n, Step(id, read, fault)).calls[id], source);
    case Draining(info, len) =>
      CallHonest(n, id, Next(digest, n, Step(id, read, fault)).calls[id], source);
    case Ended(_, _) =>
      CallHonest(n, id, call, source);
  }

  lemma FinishingHonest(n: Net, h: string, source: map<string, Bytes>)
    requires Honest(n, source)
    ensures Honest(n.(shared := Finish(n.shared, h)), source)
  {
    hide FileHonest, PayloadHonest, Has;
  }

  lemma NextHonest(digest: Digest, n: Net, e: Event, source: map<string, Bytes>)
    requires NetInv(digest, n) && Honest(n, source) && EventHonest(n, e, source)
    ensures Honest(Next(digest, n, e), source)
  {
    match e
    case Begin(info, len) =>
      BeginHonest(n, Begun(info, len), source);
      hide NetInv, Honest;
    case FailAll =>
      FailingHonest(n, source);
      hide NetInv, Honest;
    case Step(id, read, fault) =>
      if id < |n.calls| {
        StepHonest(digest, n, id, read, fault, source);
      }
      hide NetInv, Honest;
  }

  lemma BeginHonest(n: Net, c: Call, source: map<string, Bytes>)
    requires Honest(n, source) && !c.Writing?
    ensures Honest(n.(calls := n.calls + [c]), source)
  {
    hide FileHonest, PayloadHonest, Has;
  }

  ghost predicate RunHonest(digest: Digest, n: Net, events: seq<Event>, source: map<string, Bytes>)
    requires Initial(digest, n)
  {
    forall k :: 0 <= k < |events| ==> EventHonest(RunFrom(digest, n, events[..k]), events[k], source)
  }

  /** The sources of the blobs to fetch have the sizes that the transfer names. */
  ghost predicate SourcesFit(n: Net, source: map<string, Bytes>) {
    forall h :: h in n.shared.writers ==> h in source && |source[h]| == n.shared.writers[h].size
  }

  lemma InitialHonest(digest: Digest, n: Net, source: map<string, Bytes>)
    requires Initial(digest, n) && SourcesFit(n, source)
    ensures Honest(n, source)
  {
    InvParts(digest, n.shared);
    forall h | h in n.shared.writers
      ensures FileHonest(n.shared.writers[h], n.shared.cs, source[h])
      ensures !Has(n.shared.store, h, n.shared.writers[h].size)
    {
      WriterFits(n.shared, h);
    }
    hide SharedInv, WritersGood, FileHonest, Has;
  }

  lemma {:induction false} RunKeepsHonest(digest: Digest, n: Net, events: seq<Event>, source: map<string, Bytes>)
    requires Initial(digest, n) && SourcesFit(n, source) && RunHonest(digest, n, events, source)
    ensures Honest(RunFrom(digest, n, events), source)
  {
    hide Initial, NetInv, Honest, Next, SourcesFit;
    if events == [] {
      InitialHonest(digest, n, source);
    } else {
      var front := events[..|events| - 1];
      forall k | 0 <= k < |front|
        ensures EventHonest(RunFrom(digest, n, front[..k]), front[k], source)
      {
        assert front[..k] == events[..k];
      }
      RunKeepsHonest(digest, n, front, source);
      NextHonest(digest, RunFrom(digest, n, front), events[|events| - 1], source);
    }
  }

  lemma StoredAfterWait(digest: Digest, s: Shared)
    requires SharedInv(digest, s) && WaitOk(s)
    ensures forall h :: h in s.writers ==> Has(s.store, h, s.writers[h].size)
  {
    InvParts(digest, s);
    assert s.open == {};
    forall h | h in s.writers
      ensures Has(s.store, h, s.writers[h].size)
    {
      WriterFits(s, h);
    }
  }

  /**
   With an honest sender, in any interleaving with any faults: a receiver that reports success has
   stored, for every blob it had to fetch, exactly the bytes of the source.
   */
  lemma HonestStored(digest: Digest, n: Net, events: seq<Event>, source: map<string, Bytes>)
    requires Initial(digest, n) && SourcesFit(n, source) && RunHonest(digest, n, events, source)
    ensures var r := RunFrom(digest, n, events);
            WaitOk(r.shared) ==> forall h :: h in r.shared.writers ==>
              h in r.shared.store && h in source && r.shared.store[h] == source[h]
  {
    RunKeepsHonest(digest, n, events, source);
    var r := RunFrom(digest, n, events);
    assert SharedInv(digest, r.shared);
    hide Initial, NetInv, SharedInv, FileHonest, PayloadHonest;
    if WaitOk(r.shared) {
      StoredAfterWait(digest, r.shared);
    }
  }
}
