/**
 The receiver in its own form: an object whose fields the calls update, one method for each
 region that holds a mutex, and ReceiveChunk as the sequence of them.
 */
module BlobReceiverObject {
  import opened FileTree
  import opened Options
  import opened BlobChunks
  import opened BlobReceiver

  function NewWriter(size: int, cs: int): Writer
    requires 0 <= size && 0 < cs
  {
    Writer(size, seq(size, i => 0), seq(CountOf(size, cs), i => false), 0, false, false)
  }

  /** One descriptor of NewChunkedBlobReceiver. */
  function AddBlob(s: Shared, blob: Descriptor): Option<Shared>
    requires Normal(s.cs)
  {
    if !ValidHash(blob.hash) || blob.size < 0 || blob.hash in s.blobs then None
    else
      var known := s.(blobs := s.blobs[blob.hash := blob]);
      if Has(s.store, blob.hash, blob.size) then Some(known)
      else if BlobChunkCount(blob.size, s.cs).None? then None
      else Some(known.(writers := s.writers[blob.hash := NewWriter(blob.size, s.cs)],
                       open := s.open + {blob.hash},
                       pending := s.pending + 1))
  }

  function Build(store: map<string, Bytes>, cs: int, blobs: seq<Descriptor>): (r: Option<Shared>)
    requires Normal(cs)
    ensures r.Some? ==> r.value.cs == cs && r.value.store == store
  {
    if blobs == [] then Some(Shared(cs, map[], map[], {}, 0, false, false, store))
    else match Build(store, cs, blobs[..|blobs| - 1])
      case None => None
      case Some(s) => AddBlob(s, blobs[|blobs| - 1])
  }

  /** A list of well-formed, different descriptors whose missing blobs are within the chunk limit. */
  ghost predicate Receivable(store: map<string, Bytes>, cs: int, blobs: seq<Descriptor>)
    requires 0 < cs
  {
    && (forall b :: b in blobs ==> ValidHash(b.hash) && 0 <= b.size)
    && DistinctHashes(blobs)
    && forall b :: b in blobs && 0 <= b.size && !(b.hash in store && |store[b.hash]| == b.size) ==> CountOf(b.size, cs) <= 0x10_0000
  }

  /** The constructor accepts exactly such lists. */
  lemma {:induction false} BuildAccepts(store: map<string, Bytes>, cs: int, blobs: seq<Descriptor>)
    requires Normal(cs)
    ensures Build(store, cs, blobs).Some? <==> Receivable(store, cs, blobs)
    ensures Build(store, cs, blobs).Some? ==> forall h :: h in Build(store, cs, blobs).value.blobs <==> exists b :: b in blobs && b.hash == h
  {
    if blobs != [] {
      var front, last := blobs[..|blobs| - 1], blobs[|blobs| - 1];
      assert blobs == front + [last];
      BuildAccepts(store, cs, front);
      CountAgrees(last.size, cs);
      DistinctLast(front, last);
      hide ValidHash, CountOf, BlobChunkCount, DistinctHashes, Normal;
    }
  }

  lemma DistinctLast(front: seq<Descriptor>, last: Descriptor)
    ensures DistinctHashes(front + [last]) <==> DistinctHashes(front) && forall b :: b in front ==> b.hash != last.hash
  {
    var blobs := front + [last];
    if DistinctHashes(blobs) {
      forall i, j | 0 <= i < j < |front|
        ensures front[i].hash != front[j].hash
      {
        assert blobs[i] == front[i] && blobs[j] == front[j];
      }
      forall b | b in front
        ensures b.hash != last.hash
      {
        var i :| 0 <= i < |front| && front[i] == b;
        assert blobs[i] == b && blobs[|front|] == last;
      }
    }
  }

  lemma {:induction false} TruesNone(n: nat)
    ensures Trues(seq(n, i => false)) == 0
  {
    if n > 0 {
      assert seq(n, i => false)[..n - 1] == seq(n - 1, i => false);
      TruesNone(n - 1);
    }
  }

  /** What the constructor has built so far. */
  ghost predicate Building(s: Shared) {
    && Normal(s.cs)
    && s.open == s.writers.Keys && s.pending == |s.open| && !s.failed && !s.done
    && (forall h :: h in s.blobs ==> s.blobs[h].hash == h && 0 <= s.blobs[h].size)
    && (forall h :: h in s.blobs && h !in s.writers ==> Has(s.store, h, s.blobs[h].size))
    && (forall h :: h in s.writers ==> h in s.blobs && Fresh(s, h))
  }

  ghost predicate Fresh(s: Shared, h: string)
    requires Normal(s.cs) && h in s.writers && h in s.blobs
  {
    && 0 <= s.blobs[h].size
    && CountOf(s.blobs[h].size, s.cs) <= MAX_CHUNKS
    && s.writers[h] == NewWriter(s.blobs[h].size, s.cs)
    && !Has(s.store, h, s.blobs[h].size)
  }

  lemma AddKeepsFresh(s: Shared, blob: Descriptor, h: string)
    requires Building(s) && AddBlob(s, blob).Some? && h in AddBlob(s, blob).value.writers
    ensures h in AddBlob(s, blob).value.blobs && Fresh(AddBlob(s, blob).value, h)
  {
    CountAgrees(blob.size, s.cs);
    if h != blob.hash {
      assert Fresh(s, h);
    }
    hide CountOf, NewWriter, ValidHash, BlobChunkCount, Has;
  }

  lemma AddKeepsTable(s: Shared, blob: Descriptor)
    requires Normal(s.cs) && AddBlob(s, blob).Some? && s.open == s.writers.Keys && s.pending == |s.open|
    requires blob.hash in s.writers ==> blob.hash in s.blobs
    ensures var t := AddBlob(s, blob).value;
            t.open == t.writers.Keys && t.pending == |t.open| && t.failed == s.failed && t.done == s.done
  {
    hide NewWriter, ValidHash, BlobChunkCount, Has;
  }

  lemma AddKeepsBlobs(s: Shared, blob: Descriptor, h: string)
    requires Building(s) && AddBlob(s, blob).Some? && h in AddBlob(s, blob).value.blobs
    ensures var t := AddBlob(s, blob).value;
            && t.blobs[h].hash == h && 0 <= t.blobs[h].size
            && (h !in t.writers ==> Has(t.store, h, t.blobs[h].size))
  {
    hide NewWriter, ValidHash, BlobChunkCount, Has, Fresh;
  }

  lemma AddKeepsBuilding(s: Shared, blob: Descriptor)
    requires Building(s) && AddBlob(s, blob).Some?
    ensures Building(AddBlob(s, blob).value)
  {
    var t := AddBlob(s, blob).value;
    AddKeepsTable(s, blob);
    assert t.cs == s.cs;
    hide NewWriter, ValidHash, BlobChunkCount, Has, Fresh, AddBlob;
    forall h | h in t.writers
      ensures h in t.blobs && Fresh(t, h)
    {
      AddKeepsFresh(s, blob, h);
    }
    forall h | h in t.blobs
      ensures t.blobs[h].hash == h && 0 <= t.blobs[h].size
      ensures h !in t.writers ==> Has(t.store, h, t.blobs[h].size)
    {
      AddKeepsBlobs(s, blob, h);
    }
  }

  lemma {:induction false} BuildBuilding(store: map<string, Bytes>, cs: int, blobs: seq<Descriptor>)
    requires Normal(cs)
    ensures Build(store, cs, blobs).Some? ==> Building(Build(store, cs, blobs).value)
  {
    hide Building, AddBlob;
    if blobs == [] {
      EmptyBuilding(store, cs);
    } else {
      BuildBuilding(store, cs, blobs[..|blobs| - 1]);
      var front := Build(store, cs, blobs[..|blobs| - 1]);
      if front.Some? && AddBlob(front.value, blobs[|blobs| - 1]).Some? {
        AddKeepsBuilding(front.value, blobs[|blobs| - 1]);
      }
    }
  }

  lemma EmptyBuilding(store: map<string, Bytes>, cs: int)
    requires Normal(cs)
    ensures Building(Shared(cs, map[], map[], {}, 0, false, false, store))
  {
  }

  lemma FreshGood(s: Shared, h: string)
    requires Building(s) && h in s.writers
    ensures WriterGood(s, h) && !s.writers[h].committed && !s.writers[h].aborted
    ensures forall i :: 0 <= i < |s.writers[h].completed| ==> !s.writers[h].completed[i]
    ensures h in s.blobs && !Has(s.store, h, s.blobs[h].size)
  {
    assert Fresh(s, h);
    TruesNone(CountOf(s.blobs[h].size, s.cs));
    hide CountOf, Trues;
  }

  lemma BuildingInv(digest: Digest, s: Shared)
    requires Building(s) && StoreGood(digest, s.store)
    ensures SharedInv(digest, s.(done := s.pending == 0))
  {
    var t := s.(done := s.pending == 0);
    hide StoreGood, Fresh, Has;
    forall h | h in t.writers
      ensures WriterGood(t, h)
    {
      FreshGood(s, h);
      assert WriterGood(s, h);
    }
    hide WriterGood;
    assert CountsGood(t);
    assert SettledStored(t);
    assert WritersGood(t);
    hide WritersGood, CountsGood, SettledStored;
  }

  /** A list that the constructor accepts gives a receiver in its initial state. */
  lemma BuiltInitial(digest: Digest, store: map<string, Bytes>, cs: int, blobs: seq<Descriptor>)
    requires Normal(cs) && StoreGood(digest, store) && Build(store, cs, blobs).Some?
    ensures var s := Build(store, cs, blobs).value;
            Initial(digest, Net(s.(done := s.pending == 0), []))
  {
    BuildBuilding(store, cs, blobs);
    var s := Build(store, cs, blobs).value;
    BuildingInv(digest, s);
    hide Build, StoreGood, Fresh, Has, SharedInv;
    forall h | h in s.writers
      ensures !s.writers[h].aborted
      ensures forall i :: 0 <= i < |s.writers[h].completed| ==> !s.writers[h].completed[i]
      ensures h in s.blobs && !Has(s.store, h, s.blobs[h].size)
    {
      FreshGood(s, h);
    }
  }

  lemma AddKeepsDone(s: Shared, blob: Descriptor)
    requires Normal(s.cs) && AddBlob(s, blob).Some?
    ensures AddBlob(s, blob).value.done == s.done
  {
  }

  class ChunkedBlobReceiver {
    const cs: int
    var blobs: map<string, Descriptor>
    var writers: map<string, Writer>
    var open: set<string>
    var pending: int
    var failed: bool
    var done: bool
    var store: map<string, Bytes>

    constructor (cs: int, store: map<string, Bytes>)
      ensures State() == Shared(cs, map[], map[], {}, 0, false, false, store)
    {
      this.cs, this.store := cs, store;
      blobs, writers, open, pending, failed, done := map[], map[], {}, 0, false, false;
    }

    function State(): Shared
      reads this
    {
      Shared(cs, blobs, writers, open, pending, failed, done, store)
    }

    /** One descriptor. Making its temporary file may fail as well. */
    method Add(blob: Descriptor) returns (ok: bool, ghost fault: bool)
      requires Normal(cs)
      modifies this
      ensures ok ==> AddBlob(old(State()), blob) == Some(State())
      ensures AddBlob(old(State()), blob).None? ==> !ok
      ensures AddBlob(old(State()), blob).Some? && !fault ==> ok
      ensures ok ==> !fault
    {
      fault := false;
      if !ValidHash(blob.hash) || blob.size < 0 || blob.hash in blobs {
        return false, false;
      }
      if !Has(store, blob.hash, blob.size) {
        var broken: bool := *;
        fault := broken;
        if broken || BlobChunkCount(blob.size, cs).None? {
          return false, broken;
        }
        writers := writers[blob.hash := NewWriter(blob.size, cs)];
        open := open + {blob.hash};
        pending := pending + 1;
      }
      blobs := blobs[blob.hash := blob];
      ok := true;
    }

    /** The loop of NewChunkedBlobReceiver. */
    method AddBlobs(list: seq<Descriptor>) returns (ok: bool, ghost fault: bool)
      requires Normal(cs) && State() == Shared(cs, map[], map[], {}, 0, false, false, store)
      modifies this
      ensures ok ==> Build(old(store), cs, list).Some?
      ensures ok ==> State() == Build(old(store), cs, list).value.(done := Build(old(store), cs, list).value.pending == 0)
      ensures Build(old(store), cs, list).None? ==> !ok
      ensures Build(old(store), cs, list).Some? && !fault ==> ok
    {
      fault := false;
      hide AddBlob;
      ghost var store0 := store;
      for i := 0 to |list|
        invariant Build(store0, cs, list[..i]) == Some(State()) && !done && !fault
      {
        assert list[..i + 1][..i] == list[..i];
        ghost var before := State();
        ok, fault := Add(list[i]);
        if !ok {
          if AddBlob(before, list[i]).None? {
            BuildStaysNone(store0, cs, list, i + 1);
          }
          return;
        }
        AddKeepsDone(before, list[i]);
      }
      assert list[..|list|] == list;
      if pending == 0 {
        done := true;
      }
      ok := true;
    }

    /** fail, which ReceiveChunk, Fail and a cancelled Wait share. */
    method FailReceiver()
      modifies this
      ensures State() == Fail(old(State())) && failed
    {
      if !failed {
        failed := true;
        writers := map h | h in writers :: if h in open then writers[h].(aborted := true) else writers[h];
        open := {};
        done := true;
      }
    }

    /** The last region of a call that committed its blob. */
    method FinishBlob(hash: string)
      modifies this
      ensures State() == Finish(old(State()), hash)
    {
      open := open - {hash};
      pending := pending - 1;
      if !done && (failed || pending == 0) {
        done := true;
      }
    }

    /** commit, including the move into the store. */
    method CommitWriter(digest: Digest, hash: string) returns (ok: bool, ghost fault: bool)
      requires hash in writers
      modifies this
      ensures (State(), ok) == CommitBlob(digest, old(State()), hash, fault)
      ensures writers[hash].committed
      ensures !old(writers[hash].committed) ==>
                var w := old(writers[hash]);
                && (ok <==> !fault && !w.aborted && digest(w.file) == hash)
                && store == if ok && !(hash in old(store) && |old(store)[hash]| == w.size) then old(store)[hash := w.file] else old(store)
    {
      var w := writers[hash];
      fault := false;
      if w.committed {
        return true, false;
      }
      writers := writers[hash := w.(committed := true)];
      var broken: bool := *;
      fault := broken;
      if broken || w.aborted || digest(w.file) != hash {
        return false, broken;
      }
      if !Has(store, hash, w.size) {
        store := store[hash := w.file];
      }
      ok := true;
    }

    /**
     ReceiveChunk run without interruption: a run of the receiver's steps for one call. A payload
     that breaks off leaves the receiver exactly as it was, so the chunk can be sent again.
     */
    method ReceiveChunk(digest: Digest, info: Chunk, payloadLen: int, read: Option<Bytes>) returns (outcome: Outcome)
      requires NetInv(digest, Net(State(), []))
      modifies this
      ensures NetInv(digest, Net(State(), []))
      ensures outcome == Broken ==> State() == old(State()) && !(read.Some? && |read.value| == payloadLen)
      ensures outcome == Accepted ==> AcceptedGood(State(), info) && !old(failed) && read.Some? && |read.value| == payloadLen
      ensures outcome == Failed ==> failed
    {
      hide NetInv, AcceptedGood, ValidChunkShape, WriterShape, WriteChunk, CommitBlob, Fail, Finish, LookUp;
      ghost var n := Net(State(), [Begun(info, payloadLen)]);
      OneCall(digest, State(), info, payloadLen);
      CallReady(digest, n, 0);
      var looked := LookUp(State(), info, payloadLen);
      n := Advance(digest, n, None, false);
      if looked == GiveUp {
        LookedGivesUp(old(State()), info, payloadLen);
        EndCall(digest, n);
        return Failed;
      }
      if looked == Reject {
        FailReceiver();
        n := Advance(digest, n, None, false);
        EndCall(digest, n);
        return Failed;
      }
      LookedAlive(old(State()), info, payloadLen);
      if looked == Drain {
        n := Advance(digest, n, read, false);
        EndCall(digest, n);
        return if read.Some? && |read.value| == payloadLen then Accepted else Broken;
      }
      CallReady(digest, n, 0);
      var checked := ValidChunkShape(info, info.hash, writers[info.hash].size, cs, payloadLen);
      n := Advance(digest, n, None, false);
      if !checked {
        FailReceiver();
        n := Advance(digest, n, None, false);
        EndCall(digest, n);
        return Failed;
      }
      n := Advance(digest, n, read, false);
      if !(read.Some? && |read.value| == payloadLen) {
        EndCall(digest, n);
        return Broken;
      }
      CallReady(digest, n, 0);
      outcome := Put(digest, info, read.value, n);
    }

    /** writeChunk and, after the last missing chunk, commit and the final region. */
    method Put(digest: Digest, info: Chunk, payload: Bytes, ghost start: Net) returns (outcome: Outcome)
      requires start == Net(State(), [Writing(info, payload)]) && NetInv(digest, start)
      requires Ready(State(), Writing(info, payload))
      modifies this
      ensures NetInv(digest, Net(State(), []))
      ensures outcome != Broken
      ensures outcome == Accepted ==> AcceptedGood(State(), info)
      ensures outcome == Failed ==> failed
    {
      hide NetInv, AcceptedGood, ValidChunkShape, WriterShape, WriteChunk, CommitBlob, Fail, Finish;
      ghost var n := start;
      var fault: bool := *;
      var (w, written) := WriteChunk(writers[info.hash], info.hash, cs, info, payload, fault);
      writers := writers[info.hash := w];
      n := Advance(digest, n, None, fault);
      if written == Noted {
        EndCall(digest, n);
        return Accepted;
      }
      var ok := false;
      if written == Complete {
        ghost var broken;
        ok, broken := CommitWriter(digest, info.hash);
        n := Advance(digest, n, None, broken);
      }
      if ok {
        FinishBlob(info.hash);
      } else {
        FailReceiver();
      }
      n := Advance(digest, n, None, false);
      EndCall(digest, n);
      FailFails(n.shared);
      return if ok then Accepted else Failed;
    }
  }

  lemma FailFails(s: Shared)
    ensures Fail(s).failed && (s.failed ==> Fail(s) == s)
  {
  }

  lemma LookedGivesUp(s: Shared, info: Chunk, len: int)
    requires Normal(s.cs) && LookUp(s, info, len) == GiveUp
    ensures s.failed
  {
  }

  lemma LookedAlive(s: Shared, info: Chunk, len: int)
    requires Normal(s.cs) && (LookUp(s, info, len) == TakeWriter || LookUp(s, info, len) == Drain)
    ensures !s.failed
  {
  }

  lemma {:induction false} BuildStaysNone(store: map<string, Bytes>, cs: int, list: seq<Descriptor>, k: nat)
    requires Normal(cs) && k <= |list| && Build(store, cs, list[..k]).None?
    ensures Build(store, cs, list).None?
    decreases |list|
  {
    if k < |list| {
      assert list[..|list| - 1][..k] == list[..k];
      BuildStaysNone(store, cs, list[..|list| - 1], k);
    } else {
      assert list[..k] == list;
    }
  }

  lemma OneCall(digest: Digest, s: Shared, info: Chunk, len: int)
    requires NetInv(digest, Net(s, []))
    ensures NetInv(digest, Net(s, [Begun(info, len)]))
  {
    BeginStep(digest, Net(s, []), info, len);
    assert [] + [Begun(info, len)] == [Begun(info, len)];
    hide NetInv;
  }

  /** The next region of the only call. */
  lemma Advance(digest: Digest, n: Net, read: Option<Bytes>, fault: bool) returns (m: Net)
    requires NetInv(digest, n) && |n.calls| == 1
    ensures Ready(n.shared, n.calls[0]) && NetInv(digest, m)
    ensures m == Net(StepCall(digest, n.shared, n.calls[0], read, fault).0, [StepCall(digest, n.shared, n.calls[0], read, fault).1])
  {
    CallReady(digest, n, 0);
    NextKeeps(digest, n, Step(0, read, fault));
    m := Next(digest, n, Step(0, read, fault));
    var c := StepCall(digest, n.shared, n.calls[0], read, fault).1;
    assert n.calls[0 := c] == [c];
    hide NetInv, StepCall;
  }

  /** The call has returned and leaves the table. */
  lemma EndCall(digest: Digest, n: Net)
    requires NetInv(digest, n) && |n.calls| == 1 && n.calls[0].Ended?
    ensures NetInv(digest, Net(n.shared, []))
    ensures n.calls[0].outcome == Accepted ==> AcceptedGood(n.shared, n.calls[0].info)
  {
    assert n.calls[0] in n.calls && CallInv(n.shared, n.calls[0]);
    hide SharedInv, AcceptedGood;
  }
}
