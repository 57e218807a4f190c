/**
 The chunk receiver of chunked_blob.go. Each region that the code runs under a mutex is one
 function on the shared state; a run interleaves the regions of any number of concurrent
 ReceiveChunk calls with reads that deliver or break off, I/O faults and outside failures.
 */
module BlobReceiver {
  import opened FileTree
  import opened Options
  import opened BlobChunks

  /** One chunkedBlobWriter: the temporary file and the record of what has been written to it. */
  datatype Writer = Writer(
    size: int,
    file: Bytes,
    completed: seq<bool>,
    count: nat, // the field `done`
    committed: bool,
    aborted: bool)

  datatype Shared = Shared(
    cs: int,
    blobs: map<string, Descriptor>,
    writers: map<string, Writer>, // every writer ever made; a running call may hold one that is no longer open
    open: set<string>, // the hashes in the receiver's writer table
    pending: int,
    failed: bool,
    done: bool,
    store: map<string, Bytes>)

  /** BlobStore.Has: the blob is there, with its digest and size. */
  predicate Has(store: map<string, Bytes>, hash: string, size: int) {
    hash in store && |store[hash]| == size
  }

  function CloseDone(s: Shared): Shared {
    if s.failed || s.pending == 0 then s.(done := true) else s
  }

  /** fail: the first error aborts every open writer and closes done. */
  function Fail(s: Shared): Shared {
    if s.failed then s
    else CloseDone(s.(failed := true,
                      open := {},
                      writers := map h | h in s.writers ::
                        if h in s.open then s.writers[h].(aborted := true) else s.writers[h]))
  }

  datatype Looked = TakeWriter | Drain | GiveUp | Reject

  /** The first region of ReceiveChunk: what to do with a chunk of this shape. */
  function LookUp(s: Shared, info: Chunk, payloadLen: int): Looked
    requires Normal(s.cs)
  {
    if payloadLen < 0 then Reject
    else if s.failed then GiveUp
    else if info.hash in s.open then TakeWriter
    else if info.hash in s.blobs && Has(s.store, info.hash, s.blobs[info.hash].size) then
      if ValidChunkShape(info, info.hash, s.blobs[info.hash].size, s.cs, payloadLen) then Drain else Reject
    else Reject
  }

  datatype Written = Refused | Noted | Complete

  function IndexOf(info: Chunk, size: int, cs: int): int
    requires 0 < cs
  {
    if size > 0 then info.offset / cs else 0
  }

  function WriteAt(file: Bytes, offset: int, payload: Bytes): Bytes
    requires 0 <= offset && offset + |payload| <= |file|
  {
    file[..offset] + payload + file[offset + |payload|..]
  }

  predicate WriterShape(w: Writer, cs: int) {
    && Normal(cs)
    && 0 <= w.size == |w.file|
    && CountOf(w.size, cs) <= MAX_CHUNKS
    && |w.completed| == CountOf(w.size, cs)
  }

  /** What writeChunk does to the writer it holds. */
  function WriteChunk(w: Writer, hash: string, cs: int, info: Chunk, payload: Bytes, fault: bool): (Writer, Written)
    requires WriterShape(w, cs)
  {
    if !ValidChunkShape(info, hash, w.size, cs, |payload|) then (w, Refused)
    else
      ReceiverAcceptsPlan(info, Descriptor(hash, w.size), cs, |payload|);
      PlannedIndex(info, Descriptor(hash, w.size), cs);
      var index := IndexOf(info, w.size, cs);
      if w.committed || w.completed[index] then (w, Noted)
      else if |payload| > 0 && (fault || w.aborted) then (w, Refused)
      else
        var next := w.(file := WriteAt(w.file, info.offset, payload),
                       completed := w.completed[index := true],
                       count := w.count + 1);
        (next, if next.count == |next.completed| then Complete else Noted)
  }

  /** What commit does: the writer is spent, and the file joins the store if its digest is right. */
  function CommitBlob(digest: Digest, s: Shared, hash: string, fault: bool): (Shared, bool)
    requires hash in s.writers
  {
    var w := s.writers[hash];
    if w.committed then (s, true)
    else
      var spent := s.(writers := s.writers[hash := w.(committed := true)]);
      if fault || w.aborted || digest(w.file) != hash then (spent, false)
      else if Has(s.store, hash, w.size) then (spent, true)
      else (spent.(store := s.store[hash := w.file]), true)
  }

  /** The last region: the writer leaves the table. */
  function Finish(s: Shared, hash: string): Shared {
    CloseDone(s.(open := s.open - {hash}, pending := s.pending - 1))
  }

  // ---- Calls and runs ----

  datatype Outcome = Accepted | Broken | Failed

  /** Where one ReceiveChunk call stands. */
  datatype Call =
    | Begun(info: Chunk, len: int)
    | Checking(info: Chunk, len: int)
    | Reading(info: Chunk, len: int)
    | Writing(info: Chunk, payload: Bytes)
    | Committing(info: Chunk)
    | Finishing(info: Chunk)
    | Draining(info: Chunk, len: int)
    | Failing(info: Chunk)
    | Ended(info: Chunk, outcome: Outcome)

  datatype Net = Net(shared: Shared, calls: seq<Call>)

  /** One step of the environment: a new call, the next region of a call, or an outside failure. */
  datatype Event =
    | Begin(info: Chunk, len: int)
    | Step(id: nat, read: Option<Bytes>, fault: bool)
    | FailAll

  function AfterWrite(info: Chunk, result: Written): Call {
    match result
    case Refused => Failing(info)
    case Noted => Ended(info, Accepted)
    case Complete => Committing(info)
  }

  function AfterCommit(info: Chunk, ok: bool): Call {
    if ok then Finishing(info) else Failing(info)
  }

  predicate HoldsWriter(c: Call) {
    c.Checking? || c.Reading? || c.Writing? || c.Committing? || c.Finishing?
  }

  /** The writer that a call holds exists. */
  ghost predicate Ready(s: Shared, c: Call) {
    && Normal(s.cs)
    && (forall h :: h in s.writers ==> WriterShape(s.writers[h], s.cs))
    && (HoldsWriter(c) ==> c.info.hash in s.writers)
  }

  /** The call after its next region, and the shared state. */
  ghost function StepCall(digest: Digest, s: Shared, c: Call, read: Option<Bytes>, fault: bool): (Shared, Call)
    requires Ready(s, c)
  {
    match c
    case Begun(info, len) =>
      (s, match LookUp(s, info, len)
          case TakeWriter => Checking(info, len)
          case Drain => Draining(info, len)
          case GiveUp => Ended(info, Failed)
          case Reject => Failing(info))
    case Checking(info, len) =>
      (s, if ValidChunkShape(info, info.hash, s.writers[info.hash].size, s.cs, len) then Reading(info, len)
          else Failing(info))
    case Reading(info, len) =>
      (s, if read.Some? && |read.value| == len then Writing(info, read.value) else Ended(info, Broken))
    case Writing(info, payload) =>
      var (w, result) := WriteChunk(s.writers[info.hash], info.hash, s.cs, info, payload, fault);
      (s.(writers := s.writers[info.hash := w]),
       AfterWrite(info, result))
    case Committing(info) =>
      var (next, ok) := CommitBlob(digest, s, info.hash, fault);
      (next, AfterCommit(info, ok))
    case Finishing(info) => (Finish(s, info.hash), Ended(info, Accepted))
    case Draining(info, len) =>
      (s, if read.Some? && |read.value| == len then Ended(info, Accepted) else Ended(info, Broken))
    case Failing(info) => (Fail(s), Ended(info, Failed))
    case Ended(_, _) => (s, c)
  }

  // ---- The invariant ----

  function Trues(s: seq<bool>): nat {
    if s == [] then 0 else Trues(s[..|s| - 1]) + if s[|s| - 1] then 1 else 0
  }

  lemma {:induction false} TruesFull(s: seq<bool>)
    ensures Trues(s) <= |s|
    ensures Trues(s) == |s| <==> forall i :: 0 <= i < |s| ==> s[i]
  {
    if s != [] {
      var front := s[..|s| - 1];
      TruesFull(front);
      if forall i :: 0 <= i < |front| ==> front[i] {
        forall i | 0 <= i < |s| - 1
          ensures s[i]
        {
          assert front[i];
        }
      } else {
        var i :| 0 <= i < |front| && !front[i];
        assert !s[i];
      }
    }
  }

  lemma {:induction false} TruesSet(s: seq<bool>, k: nat)
    requires k < |s| && !s[k]
    ensures Trues(s[k := true]) == Trues(s) + 1
  {
    var front, t := s[..|s| - 1], s[k := true];
    if k < |s| - 1 {
      assert t[..|t| - 1] == front[k := true];
      TruesSet(front, k);
    } else {
      assert t[..|t| - 1] == front;
    }
  }

  /** The writer of a planned blob, with a count that is the number of its completed chunks. */
  ghost predicate WriterGood(s: Shared, h: string) {
    && h in s.writers && h in s.blobs
    && WriterShape(s.writers[h], s.cs)
    && s.writers[h].size == s.blobs[h].size
    && s.writers[h].count == Trues(s.writers[h].completed)
    && (s.writers[h].committed ==> s.writers[h].count == |s.writers[h].completed|)
  }

  ghost predicate StoreGood(digest: Digest, store: map<string, Bytes>) {
    forall h :: h in store ==> digest(store[h]) == h
  }

  /** A blob without an open writer is in the store, as long as nothing has failed. */
  ghost predicate SettledStored(s: Shared) {
    forall h :: h in s.blobs && h !in s.open ==>
      (h !in s.writers ==> Has(s.store, h, s.blobs[h].size)) &&
      (h in s.writers && !s.failed ==> s.writers[h].committed && Has(s.store, h, s.blobs[h].size))
  }

  ghost predicate WritersGood(s: Shared) {
    && Normal(s.cs)
    && (forall h :: h in s.blobs ==> s.blobs[h].hash == h && 0 <= s.blobs[h].size)
    && (forall h :: h in s.writers ==> WriterGood(s, h))
    && s.open <= s.writers.Keys
  }

  /** The pending count is the number of open writers until something fails, and done says when to stop waiting. */
  ghost predicate CountsGood(s: Shared) {
    && (!s.failed ==> s.pending == |s.open|)
    && (s.failed ==> s.open == {})
    && (s.done <==> s.failed || s.pending == 0)
  }

  ghost predicate SharedInv(digest: Digest, s: Shared) {
    && WritersGood(s)
    && CountsGood(s)
    && StoreGood(digest, s.store)
    && SettledStored(s)
  }

  /** A call that was told its chunk was the last one missing. */
  predicate Due(c: Call) {
    c.Committing? || c.Finishing?
  }

  /** A call that will take the writer of `h` out of the table, or fail the receiver. */
  predicate SeesTo(c: Call, h: string) {
    (Due(c) || c.Failing?) && c.info.hash == h
  }

  /** An accepted chunk is in the plan of its blob, and its bytes are not asked for again. */
  ghost predicate AcceptedGood(s: Shared, info: Chunk) {
    && info.hash in s.blobs && 0 <= s.blobs[info.hash].size && Normal(s.cs)
    && info in PlanOf(s.blobs[info.hash], s.cs)
    && (info.hash in s.writers ==>
          && 0 <= IndexOf(info, s.blobs[info.hash].size, s.cs) < |s.writers[info.hash].completed|
          && s.writers[info.hash].completed[IndexOf(info, s.blobs[info.hash].size, s.cs)])
  }

  ghost predicate CallInv(s: Shared, c: Call) {
    && (HoldsWriter(c) ==> c.info.hash in s.writers)
    && (c.Committing? ==>
          && s.writers[c.info.hash].count == |s.writers[c.info.hash].completed|
          && !s.writers[c.info.hash].committed)
    && (c.Finishing? ==>
          s.writers[c.info.hash].committed && Has(s.store, c.info.hash, s.writers[c.info.hash].size))
    && (Due(c) ==> AcceptedGood(s, c.info))
    && (Due(c) && !s.failed ==> c.info.hash in s.open)
    && (c.Draining? ==>
          && c.info.hash in s.blobs && Normal(s.cs) && 0 <= s.blobs[c.info.hash].size
          && (c.info.hash in s.writers ==> s.writers[c.info.hash].committed)
          && ValidChunkShape(c.info, c.info.hash, s.blobs[c.info.hash].size, s.cs, c.len))
    && (c.Ended? && c.outcome == Accepted ==> AcceptedGood(s, c.info))
  }

  /** At most one call is ever due for a blob, and an open blob with every chunk written has one. */
  ghost predicate DueOnce(s: Shared, calls: seq<Call>) {
    && (forall i, j :: 0 <= i < j < |calls| && Due(calls[i]) && Due(calls[j]) ==> calls[i].info.hash != calls[j].info.hash)
    && (forall h :: h in s.open && h in s.writers && s.writers[h].count == |s.writers[h].completed| ==>
          exists i :: 0 <= i < |calls| && SeesTo(calls[i], h))
  }

  ghost predicate NetInv(digest: Digest, n: Net) {
    && SharedInv(digest, n.shared)
    && (forall c :: c in n.calls ==> CallInv(n.shared, c))
    && DueOnce(n.shared, n.calls)
  }

  lemma CallReady(digest: Digest, n: Net, id: nat)
    requires NetInv(digest, n) && id < |n.calls|
    ensures Ready(n.shared, n.calls[id])
  {
    assert n.calls[id] in n.calls && CallInv(n.shared, n.calls[id]);
    forall h | h in n.shared.writers
      ensures WriterShape(n.shared.writers[h], n.shared.cs)
    {
      assert WriterGood(n.shared, h);
    }
    hide WriterShape, WriterGood;
  }

  /** One event of a run. */
  ghost function Next(digest: Digest, n: Net, e: Event): Net
    requires NetInv(digest, n)
  {
    match e
    case Begin(info, len) => n.(calls := n.calls + [Begun(info, len)])
    case Step(id, read, fault) =>
      if id >= |n.calls| then n
      else
        CallReady(digest, n, id);
        var (s, c) := StepCall(digest, n.shared, n.calls[id], read, fault);
        Net(s, n.calls[id := c])
    case FailAll => n.(shared := Fail(n.shared))
  }

  // ---- Facts about single regions ----

  lemma PlannedIndex(info: Chunk, blob: Descriptor, cs: int)
    requires 0 <= blob.size && 0 < cs && info in PlanOf(blob, cs)
    ensures 0 <= IndexOf(info, blob.size, cs) < CountOf(blob.size, cs)
    ensures 0 <= info.offset && info.offset + LengthOf(info, cs) <= blob.size
    ensures PlanOf(blob, cs)[IndexOf(info, blob.size, cs)] == info
  {
    var i :| 0 <= i < CountOf(blob.size, cs) && PlanOf(blob, cs)[i] == info;
    DivideMultiple(i, cs);
    PlanStaysInside(blob, cs, info);
  }

  // ---- What every region keeps ----

  /** `t` is reachable from `s` by regions of other calls. */
  ghost predicate Later(s: Shared, t: Shared) {
    && t.cs == s.cs && t.blobs == s.blobs && t.writers.Keys == s.writers.Keys
    && (forall h :: h in s.writers ==>
          && t.writers[h].size == s.writers[h].size
          && |t.writers[h].completed| == |s.writers[h].completed|
          && (s.writers[h].committed ==> t.writers[h].committed)
          && (forall i :: 0 <= i < |s.writers[h].completed| && s.writers[h].completed[i] ==> t.writers[h].completed[i]))
    && (forall h :: h in s.blobs && Has(s.store, h, s.blobs[h].size) ==> Has(t.store, h, s.blobs[h].size))
    && (s.failed ==> t.failed)
    && t.open <= s.open
  }

  /** The writer of `h` and its place in the table are as before, unless the receiver has failed since. */
  ghost predicate Steady(s: Shared, t: Shared, h: string)
    requires h in s.writers && h in t.writers
  {
    && t.writers[h].count == s.writers[h].count
    && t.writers[h].completed == s.writers[h].completed
    && t.writers[h].committed == s.writers[h].committed
    && (h in s.open && !t.failed ==> h in t.open)
  }

  lemma AcceptedLater(s: Shared, t: Shared, info: Chunk)
    requires Later(s, t) && AcceptedGood(s, info)
    ensures AcceptedGood(t, info)
  {
    hide PlanOf;
  }

  lemma CallLater(s: Shared, t: Shared, c: Call)
    requires Later(s, t) && CallInv(s, c)
    requires forall h :: h in s.writers ==> h in s.blobs && s.writers[h].size == s.blobs[h].size
    requires Due(c) ==> c.info.hash in s.writers && Steady(s, t, c.info.hash)
    ensures CallInv(t, c)
  {
    if Due(c) || (c.Ended? && c.outcome == Accepted) {
      AcceptedLater(s, t, c.info);
    }
    hide AcceptedGood, ValidChunkShape;
  }

  lemma FailLater(s: Shared)
    ensures Later(s, Fail(s))
    ensures forall h :: h in s.writers ==> Steady(s, Fail(s), h)
    ensures Fail(s).failed
  {
  }

  lemma FailKeeps(digest: Digest, s: Shared)
    requires SharedInv(digest, s)
    ensures SharedInv(digest, Fail(s)) && Later(s, Fail(s))
    ensures forall h :: h in s.writers ==> Steady(s, Fail(s), h)
    ensures Fail(s).failed && Fail(s).open == {}
  {
    FailLater(s);
    InvParts(digest, s);
    FailWriters(s);
    FailSettled(s);
    FailCounts(s);
    hide SharedInv, WritersGood, SettledStored, CountsGood, StoreGood, Later, Steady;
    InvFromParts(digest, Fail(s));
  }

  lemma FailCounts(s: Shared)
    requires CountsGood(s)
    ensures CountsGood(Fail(s)) && Fail(s).open == {}
  {
  }

  lemma InvParts(digest: Digest, s: Shared)
    requires SharedInv(digest, s)
    ensures WritersGood(s) && CountsGood(s) && SettledStored(s) && StoreGood(digest, s.store)
  {
    hide WritersGood, CountsGood, SettledStored, StoreGood;
  }

  lemma InvFromParts(digest: Digest, s: Shared)
    requires WritersGood(s) && CountsGood(s) && SettledStored(s) && StoreGood(digest, s.store)
    ensures SharedInv(digest, s)
  {
    hide WritersGood, CountsGood, SettledStored, StoreGood;
  }

  lemma FailWriters(s: Shared)
    requires WritersGood(s)
    ensures WritersGood(Fail(s))
  {
    hide Trues, CountOf;
    forall h | h in Fail(s).writers
      ensures WriterGood(Fail(s), h)
    {
      assert WriterGood(s, h);
    }
    hide WriterGood;
  }

  lemma FailSettled(s: Shared)
    requires SettledStored(s) && WritersGood(s)
    ensures SettledStored(Fail(s))
  {
    assert s.open <= s.writers.Keys;
    hide WritersGood;
  }

  lemma SameWritersGood(s: Shared, t: Shared)
    requires WritersGood(s) && t.cs == s.cs && t.blobs == s.blobs && t.writers == s.writers && t.open <= s.open
    ensures WritersGood(t)
  {
    hide Trues, WriterShape;
    forall h | h in t.writers
      ensures WriterGood(t, h)
    {
      assert WriterGood(s, h);
    }
    hide WriterGood;
  }

  lemma FinishLater(s: Shared, h: string)
    ensures Later(s, Finish(s, h))
    ensures forall g :: g in s.writers && g != h ==> Steady(s, Finish(s, h), g)
  {
  }

  lemma FinishCounts(s: Shared, h: string)
    requires CountsGood(s) && (!s.failed ==> h in s.open)
    ensures CountsGood(Finish(s, h))
  {
    if !s.failed {
      assert |s.open - {h}| == |s.open| - 1;
    }
  }

  lemma FinishSettled(s: Shared, h: string)
    requires SettledStored(s)
    requires h in s.writers && s.writers[h].committed && Has(s.store, h, s.writers[h].size)
    requires h in s.blobs && s.writers[h].size == s.blobs[h].size
    ensures SettledStored(Finish(s, h))
  {
  }

  lemma FinishKeeps(digest: Digest, s: Shared, h: string)
    requires SharedInv(digest, s) && h in s.writers
    requires s.writers[h].committed && Has(s.store, h, s.writers[h].size)
    requires !s.failed ==> h in s.open
    ensures SharedInv(digest, Finish(s, h)) && Later(s, Finish(s, h))
    ensures forall g :: g in s.writers && g != h ==> Steady(s, Finish(s, h), g)
  {
    InvParts(digest, s);
    WriterFits(s, h);
    hide SharedInv, StoreGood, SettledStored, CountsGood, WritersGood, Later, Steady;
    SameWritersGood(s, Finish(s, h));
    FinishLater(s, h);
    FinishSettled(s, h);
    FinishCounts(s, h);
    InvFromParts(digest, Finish(s, h));
  }

  lemma WriterFits(s: Shared, h: string)
    requires WritersGood(s) && h in s.writers
    ensures WriterGood(s, h) && WriterShape(s.writers[h], s.cs)
    ensures s.writers[h].count == Trues(s.writers[h].completed)
    ensures s.writers[h].committed ==> s.writers[h].count == |s.writers[h].completed|
    ensures h in s.blobs && s.blobs[h] == Descriptor(h, s.writers[h].size)
    ensures |s.writers[h].file| == s.writers[h].size && 0 <= s.writers[h].size
  {
    hide Trues;
    assert WriterGood(s, h);
  }

  /** Replacing one writer by another good one. */
  lemma WriterReplaced(s: Shared, h: string, w: Writer)
    requires WritersGood(s) && h in s.writers
    requires WriterShape(w, s.cs) && w.size == s.writers[h].size && w.count == Trues(w.completed)
    requires w.committed ==> w.count == |w.completed|
    ensures WritersGood(s.(writers := s.writers[h := w]))
  {
    hide Trues, WriterShape;
    var t := s.(writers := s.writers[h := w]);
    assert WriterGood(s, h);
    forall g | g in t.writers
      ensures WriterGood(t, g)
    {
      if g != h {
        assert WriterGood(s, g);
      }
    }
    hide WriterGood;
  }

  lemma CommitShape(digest: Digest, s: Shared, h: string, fault: bool)
    requires h in s.writers && s.writers[h].size == |s.writers[h].file| && !s.writers[h].committed
    ensures var (t, ok) := CommitBlob(digest, s, h, fault);
            && t == s.(writers := s.writers[h := s.writers[h].(committed := true)], store := t.store)
            && (t.store == s.store || t.store == s.store[h := s.writers[h].file])
            && (Has(s.store, h, s.writers[h].size) ==> t.store == s.store)
            && (ok ==> Has(t.store, h, s.writers[h].size))
  {
  }

  lemma CommitLater(s: Shared, t: Shared, h: string)
    requires h in s.writers && h in s.blobs && s.writers[h].size == s.blobs[h].size
    requires t == s.(writers := s.writers[h := s.writers[h].(committed := true)], store := t.store)
    requires t.store == s.store || (!Has(s.store, h, s.blobs[h].size) && t.store == s.store[h := s.writers[h].file])
    ensures Later(s, t)
    ensures forall g :: g in s.writers && g != h ==> Steady(s, t, g)
  {
  }

  lemma CommitStore(digest: Digest, s: Shared, h: string, fault: bool)
    requires h in s.writers && StoreGood(digest, s.store)
    ensures StoreGood(digest, CommitBlob(digest, s, h, fault).0.store)
  {
  }

  lemma CountsOnly(s: Shared, t: Shared)
    requires CountsGood(s) && t.open == s.open && t.failed == s.failed && t.pending == s.pending && t.done == s.done
    ensures CountsGood(t)
  {
  }

  lemma CommitKeeps(digest: Digest, s: Shared, h: string, fault: bool)
    requires SharedInv(digest, s) && h in s.writers
    requires s.writers[h].count == |s.writers[h].completed| && !s.writers[h].committed
    requires !s.failed ==> h in s.open
    ensures var (t, ok) := CommitBlob(digest, s, h, fault);
            && SharedInv(digest, t) && Later(s, t)
            && (forall g :: g in s.writers && g != h ==> Steady(s, t, g))
            && (ok ==> t.writers[h].committed && Has(t.store, h, t.writers[h].size))
            && t.open == s.open && t.failed == s.failed
            && t.writers[h].count == |t.writers[h].completed|
  {
    InvParts(digest, s);
    WriterFits(s, h);
    hide WritersGood, WriterGood, SharedInv, StoreGood, SettledStored, CountsGood, Later, Steady, CommitBlob, Trues, CountOf;
    var t := CommitBlob(digest, s, h, fault).0;
    CommitShape(digest, s, h, fault);
    CommitLater(s, t, h);
    WriterReplaced(s, h, s.writers[h].(committed := true));
    SameWritersGood(s.(writers := s.writers[h := s.writers[h].(committed := true)]), t);
    CommitSettled(digest, s, h, fault);
    CommitStore(digest, s, h, fault);
    CountsOnly(s, t);
    InvFromParts(digest, t);
  }

  lemma CommitSettled(digest: Digest, s: Shared, h: string, fault: bool)
    requires SettledStored(s) && h in s.writers && h in s.blobs && s.writers[h].size == s.blobs[h].size
    requires |s.writers[h].file| == s.writers[h].size
    requires !s.failed ==> h in s.open
    ensures SettledStored(CommitBlob(digest, s, h, fault).0)
  {
  }

  /** One write: at most the writer's file and its record change, and only for a chunk that was missing. */
  lemma WriteKeepsWriter(w: Writer, hash: string, cs: int, info: Chunk, payload: Bytes, fault: bool)
    requires WriterShape(w, cs) && w.count == Trues(w.completed)
    requires w.committed ==> w.count == |w.completed|
    ensures var (v, result) := WriteChunk(w, hash, cs, info, payload, fault);
            && WriterShape(v, cs) && v.count == Trues(v.completed)
            && v.size == w.size && v.committed == w.committed && v.aborted == w.aborted
            && (v.committed ==> v.count == |v.completed|)
            && |v.completed| == |w.completed|
            && (forall i :: 0 <= i < |w.completed| && w.completed[i] ==> v.completed[i])
            && (w.count == |w.completed| ==> v == w && result != Complete)
            && (result == Complete ==> v.count == |v.completed| && !v.committed)
            && (result != Complete && v.count == |v.completed| ==> v == w)
            && (result != Refused ==>
                  && info in PlanOf(Descriptor(hash, w.size), cs)
                  && 0 <= IndexOf(info, w.size, cs) < |v.completed|
                  && v.completed[IndexOf(info, w.size, cs)])
  {
    TruesFull(w.completed);
    if ValidChunkShape(info, hash, w.size, cs, |payload|) {
      ReceiverAcceptsPlan(info, Descriptor(hash, w.size), cs, |payload|);
      PlannedIndex(info, Descriptor(hash, w.size), cs);
      var index := IndexOf(info, w.size, cs);
      if !w.completed[index] {
        TruesSet(w.completed, index);
      }
    }
    hide Trues, ValidChunkShape, PlanOf, CountOf, IndexOf, LengthOf;
  }

  lemma WriteKeeps(digest: Digest, s: Shared, info: Chunk, payload: Bytes, fault: bool)
    requires SharedInv(digest, s) && info.hash in s.writers
    ensures WriterGood(s, info.hash)
    ensures var (w, result) := WriteChunk(s.writers[info.hash], info.hash, s.cs, info, payload, fault);
            var t := s.(writers := s.writers[info.hash := w]);
            && SharedInv(digest, t) && Later(s, t)
            && (forall g :: g in s.writers && (g != info.hash || s.writers[g].count == |s.writers[g].completed|) ==> Steady(s, t, g))
            && (result != Refused ==> AcceptedGood(t, info))
  {
    var h := info.hash;
    InvParts(digest, s);
    WriterFits(s, h);
    WriteKeepsWriter(s.writers[h], h, s.cs, info, payload, fault);
    var (w, result) := WriteChunk(s.writers[h], h, s.cs, info, payload, fault);
    hide WriteChunk, Trues, WriterShape, PlanOf, StoreGood, SharedInv, WriterGood, WritersGood, SettledStored, CountsGood, IndexOf;
    var t := s.(writers := s.writers[h := w]);
    WriterReplaced(s, h, w);
    WriteSettled(s, h, w);
    CountsOnly(s, t);
    WriteLater(s, h, w);
    NormalSize(s);
    hide Later, Steady;
    InvFromParts(digest, t);
  }

  lemma NormalSize(s: Shared)
    requires WritersGood(s)
    ensures Normal(s.cs)
  {
  }

  lemma WriteLater(s: Shared, h: string, w: Writer)
    requires h in s.writers && w.size == s.writers[h].size && w.committed == s.writers[h].committed
    requires |w.completed| == |s.writers[h].completed|
    requires forall i :: 0 <= i < |w.completed| && s.writers[h].completed[i] ==> w.completed[i]
    requires s.writers[h].count == |s.writers[h].completed| ==> w == s.writers[h]
    ensures Later(s, s.(writers := s.writers[h := w]))
    ensures forall g :: g in s.writers && (g != h || s.writers[g].count == |s.writers[g].completed|) ==>
              Steady(s, s.(writers := s.writers[h := w]), g)
  {
  }

  lemma WriteSettled(s: Shared, h: string, w: Writer)
    requires SettledStored(s) && h in s.writers && w.committed == s.writers[h].committed
    ensures SettledStored(s.(writers := s.writers[h := w]))
  {
  }

  // ---- Every event keeps the invariant ----

  lemma CallsLater(s: Shared, t: Shared, calls: seq<Call>, id: nat, c: Call)
    requires id < |calls| && Later(s, t) && CallInv(t, c)
    requires forall k :: k in calls ==> CallInv(s, k)
    requires forall h :: h in s.writers ==> h in s.blobs && s.writers[h].size == s.blobs[h].size
    requires forall j :: 0 <= j < |calls| && j != id && Due(calls[j]) ==>
               calls[j].info.hash in s.writers && Steady(s, t, calls[j].info.hash)
    ensures forall k :: k in calls[id := c] ==> CallInv(t, k)
  {
    hide CallInv, Later, Steady;
    var after := calls[id := c];
    forall j | 0 <= j < |after|
      ensures CallInv(t, after[j])
    {
      if j != id {
        assert calls[j] in calls;
        CallLater(s, t, calls[j]);
      }
    }
  }

  lemma WritersSized(s: Shared)
    requires WritersGood(s)
    ensures forall h :: h in s.writers ==> h in s.blobs && s.writers[h].size == s.blobs[h].size
  {
    forall h | h in s.writers
      ensures h in s.blobs && s.writers[h].size == s.blobs[h].size
    {
      WriterFits(s, h);
    }
  }

  /** A step of a call that is due for nothing and leaves the shared state alone. */
  lemma QuietStep(digest: Digest, n: Net, id: nat, c: Call)
    requires NetInv(digest, n) && id < |n.calls|
    requires !Due(n.calls[id]) && !n.calls[id].Failing? && !Due(c)
    requires CallInv(n.shared, c)
    ensures NetInv(digest, Net(n.shared, n.calls[id := c]))
  {
    hide CallInv, SharedInv;
    var after := n.calls[id := c];
    forall h | h in n.shared.open && h in n.shared.writers && n.shared.writers[h].count == |n.shared.writers[h].completed|
      ensures exists i :: 0 <= i < |after| && SeesTo(after[i], h)
    {
      var i :| 0 <= i < |n.calls| && SeesTo(n.calls[i], h);
      assert SeesTo(after[i], h);
    }
    forall k | k in after
      ensures CallInv(n.shared, k)
    {
    }
  }

  lemma DueSteadyOnWrite(s: Shared, t: Shared, c: Call, h: string)
    requires CallInv(s, c) && Due(c) && WritersGood(s)
    requires t.writers.Keys == s.writers.Keys
    requires forall g :: g in s.writers && (g != h || s.writers[g].count == |s.writers[g].completed|) ==> Steady(s, t, g)
    ensures c.info.hash in s.writers && Steady(s, t, c.info.hash)
    ensures s.writers[c.info.hash].count == |s.writers[c.info.hash].completed|
  {
    WriterFits(s, c.info.hash);
    hide WritersGood, AcceptedGood, Steady, WriterGood;
  }

  lemma WriteStep(digest: Digest, n: Net, id: nat, fault: bool)
    requires NetInv(digest, n) && id < |n.calls| && n.calls[id].Writing?
    ensures n.calls[id].info.hash in n.shared.writers && WriterShape(n.shared.writers[n.calls[id].info.hash], n.shared.cs)
    ensures var s, info := n.shared, n.calls[id].info;
            var (w, result) := WriteChunk(s.writers[info.hash], info.hash, s.cs, info, n.calls[id].payload, fault);
            NetInv(digest, Net(s.(writers := s.writers[info.hash := w]), n.calls[id := AfterWrite(info, result)]))
  {
    var s, call := n.shared, n.calls[id];
    assert call in n.calls && CallInv(s, call);
    var h := call.info.hash;
    InvParts(digest, s);
    WritersSized(s);
    WriterFits(s, h);
    WriteKeeps(digest, s, call.info, call.payload, fault);
    WriteKeepsWriter(s.writers[h], h, s.cs, call.info, call.payload, fault);
    hide WriteChunk, SharedInv, WriterGood, WritersGood, CountsGood, StoreGood, SettledStored, WriterShape, Trues, AcceptedGood, PlanOf, IndexOf, Later, Steady, Has;
    var (w, result) := WriteChunk(s.writers[h], h, s.cs, call.info, call.payload, fault);
    var t := s.(writers := s.writers[h := w]);
    var c := AfterWrite(call.info, result);
    WrittenCall(t, call.info, result);
    hide CallInv;
    forall j | 0 <= j < |n.calls| && j != id && Due(n.calls[j])
      ensures n.calls[j].info.hash in s.writers && Steady(s, t, n.calls[j].info.hash)
      ensures s.writers[n.calls[j].info.hash].count == |s.writers[n.calls[j].info.hash].completed|
    {
      assert n.calls[j] in n.calls;
      DueSteadyOnWrite(s, t, n.calls[j], h);
    }
    CallsLater(s, t, n.calls, id, c);
    WriteDue(s, t, n.calls, id, c, w);
    hide DueOnce;
  }

  lemma WrittenCall(t: Shared, info: Chunk, result: Written)
    requires info.hash in t.writers && info.hash in t.blobs && WritersGood(t) && SettledStored(t)
    requires result != Refused ==> AcceptedGood(t, info)
    requires result == Complete ==>
               t.writers[info.hash].count == |t.writers[info.hash].completed| && !t.writers[info.hash].committed
    ensures CallInv(t, AfterWrite(info, result))
  {
    hide WritersGood, AcceptedGood;
  }

  lemma WriteDue(s: Shared, t: Shared, calls: seq<Call>, id: nat, c: Call, w: Writer)
    requires id < |calls| && calls[id].Writing? && calls[id].info.hash in s.writers && DueOnce(s, calls)
    requires t == s.(writers := s.writers[calls[id].info.hash := w])
    requires c.info == calls[id].info && !c.Finishing?
    requires c.Committing? ==> w.count == |w.completed| && s.writers[c.info.hash].count != |s.writers[c.info.hash].completed|
    requires !c.Committing? && w.count == |w.completed| ==> w == s.writers[c.info.hash]
    requires s.writers[c.info.hash].count == |s.writers[c.info.hash].completed| ==> w == s.writers[c.info.hash]
    requires forall j :: 0 <= j < |calls| && j != id && Due(calls[j]) ==>
               calls[j].info.hash in s.writers &&
               s.writers[calls[j].info.hash].count == |s.writers[calls[j].info.hash].completed|
    ensures DueOnce(t, calls[id := c])
  {
    var after := calls[id := c];
    forall h | h in t.open && h in t.writers && t.writers[h].count == |t.writers[h].completed|
      ensures exists i :: 0 <= i < |after| && SeesTo(after[i], h)
    {
      if h == c.info.hash && c.Committing? {
        assert SeesTo(after[id], h);
      } else {
        var i :| 0 <= i < |calls| && SeesTo(calls[i], h);
        assert SeesTo(after[i], h);
      }
    }
  }

  lemma CommitStep(digest: Digest, n: Net, id: nat, fault: bool)
    requires NetInv(digest, n) && id < |n.calls| && n.calls[id].Committing?
    ensures n.calls[id].info.hash in n.shared.writers
    ensures var s, info := n.shared, n.calls[id].info;
            var (t, ok) := CommitBlob(digest, s, info.hash, fault);
            NetInv(digest, Net(t, n.calls[id := AfterCommit(info, ok)]))
  {
    var s, call := n.shared, n.calls[id];
    assert call in n.calls && CallInv(s, call);
    var h := call.info.hash;
    InvParts(digest, s);
    WritersSized(s);
    CommitKeeps(digest, s, h, fault);
    hide CommitBlob, SharedInv, WriterGood, WritersGood, CountsGood, StoreGood, SettledStored;
    var (t, ok) := CommitBlob(digest, s, h, fault);
    var c := AfterCommit(call.info, ok);
    AcceptedLater(s, t, call.info);
    hide AcceptedGood;
    assert CallInv(t, c);
    hide Later, Steady, CallInv;
    OthersSteady(s, t, n.calls, id);
    CallsLater(s, t, n.calls, id, c);
    CommitDue(s, t, n.calls, id, c);
    hide DueOnce;
  }

  /** Calls due for other blobs are not affected. */
  lemma OthersSteady(s: Shared, t: Shared, calls: seq<Call>, id: nat)
    requires id < |calls| && Due(calls[id]) && DueOnce(s, calls)
    requires forall k :: k in calls ==> CallInv(s, k)
    requires t.writers.Keys == s.writers.Keys
    requires forall g :: g in s.writers && g != calls[id].info.hash ==> Steady(s, t, g)
    ensures forall j :: 0 <= j < |calls| && j != id && Due(calls[j]) ==>
              calls[j].info.hash in s.writers && Steady(s, t, calls[j].info.hash)
  {
    hide Steady, AcceptedGood;
    forall j | 0 <= j < |calls| && j != id && Due(calls[j])
      ensures calls[j].info.hash in s.writers && Steady(s, t, calls[j].info.hash)
    {
      assert calls[j] in calls;
      assert CallInv(s, calls[j]);
    }
  }

  lemma CommitDue(s: Shared, t: Shared, calls: seq<Call>, id: nat, c: Call)
    requires id < |calls| && Due(calls[id]) && DueOnce(s, calls)
    requires SeesTo(c, calls[id].info.hash)
    requires t.open == s.open && t.writers.Keys == s.writers.Keys
    requires forall g :: g in s.writers && g != c.info.hash ==> Steady(s, t, g)
    ensures DueOnce(t, calls[id := c])
  {
    var after := calls[id := c];
    forall h | h in t.open && h in t.writers && t.writers[h].count == |t.writers[h].completed|
      ensures exists i :: 0 <= i < |after| && SeesTo(after[i], h)
    {
      if h == c.info.hash {
        assert SeesTo(after[id], h);
      } else {
        assert Steady(s, t, h);
        var i :| 0 <= i < |calls| && SeesTo(calls[i], h);
        assert SeesTo(after[i], h);
      }
    }
  }

  lemma FinishStep(digest: Digest, n: Net, id: nat)
    requires NetInv(digest, n) && id < |n.calls| && n.calls[id].Finishing?
    ensures NetInv(digest, Net(Finish(n.shared, n.calls[id].info.hash), n.calls[id := Ended(n.calls[id].info, Accepted)]))
  {
    var s, call := n.shared, n.calls[id];
    assert call in n.calls && CallInv(s, call);
    var h := call.info.hash;
    InvParts(digest, s);
    WritersSized(s);
    FinishKeeps(digest, s, h);
    var t := Finish(s, h);
    var c := Ended(call.info, Accepted);
    hide SharedInv, WriterGood, WritersGood, CountsGood, StoreGood, SettledStored;
    AcceptedLater(s, t, call.info);
    hide AcceptedGood;
    assert CallInv(t, c);
    hide Later, Steady, CallInv;
    OthersSteady(s, t, n.calls, id);
    CallsLater(s, t, n.calls, id, c);
    assert t.open == s.open - {h} && t.writers == s.writers;
    FinishDue(s, t, n.calls, id, c);
  }

  lemma FinishDue(s: Shared, t: Shared, calls: seq<Call>, id: nat, c: Call)
    requires id < |calls| && Due(calls[id]) && DueOnce(s, calls) && !Due(c)
    requires t.open == s.open - {calls[id].info.hash} && t.writers == s.writers
    ensures DueOnce(t, calls[id := c])
  {
    var after := calls[id := c];
    forall h | h in t.open && h in t.writers && t.writers[h].count == |t.writers[h].completed|
      ensures exists i :: 0 <= i < |after| && SeesTo(after[i], h)
    {
      var i :| 0 <= i < |calls| && SeesTo(calls[i], h);
      assert SeesTo(after[i], h);
    }
  }

  lemma FailStep(digest: Digest, n: Net, id: nat, c: Call)
    requires NetInv(digest, n) && id < |n.calls| && !Due(c) && CallInv(Fail(n.shared), c)
    ensures NetInv(digest, Net(Fail(n.shared), n.calls[id := c]))
  {
    var s, t := n.shared, Fail(n.shared);
    InvParts(digest, s);
    WritersSized(s);
    FailKeeps(digest, s);
    hide SharedInv, WriterGood, WritersGood, CountsGood, StoreGood, SettledStored, Fail, Later, Steady, AcceptedGood;
    forall j | 0 <= j < |n.calls| && Due(n.calls[j])
      ensures n.calls[j].info.hash in s.writers && Steady(s, t, n.calls[j].info.hash)
    {
      assert n.calls[j] in n.calls && CallInv(s, n.calls[j]);
    }
    hide CallInv;
    CallsLater(s, t, n.calls, id, c);
  }

  lemma FailAllStep(digest: Digest, n: Net)
    requires NetInv(digest, n)
    ensures NetInv(digest, n.(shared := Fail(n.shared)))
  {
    FailKeeps(digest, n.shared);
    InvParts(digest, n.shared);
    WritersSized(n.shared);
    hide SharedInv, WriterGood, WritersGood, CountsGood, StoreGood, SettledStored, Fail, Later, Steady;
    forall k | k in n.calls
      ensures CallInv(Fail(n.shared), k)
    {
      FailedLater(n.shared, k);
    }
    hide CallInv;
  }

  lemma FailedLater(s: Shared, k: Call)
    requires CallInv(s, k) && Later(s, Fail(s))
    requires forall h :: h in s.writers ==> h in s.blobs && s.writers[h].size == s.blobs[h].size
    requires forall h :: h in s.writers ==> Steady(s, Fail(s), h)
    ensures CallInv(Fail(s), k)
  {
    hide AcceptedGood, Later, Steady, Fail;
    CallLater(s, Fail(s), k);
  }

  lemma BeginStep(digest: Digest, n: Net, info: Chunk, len: int)
    requires NetInv(digest, n)
    ensures NetInv(digest, n.(calls := n.calls + [Begun(info, len)]))
  {
    hide SharedInv, CallInv;
    var after := n.calls + [Begun(info, len)];
    forall h | h in n.shared.open && h in n.shared.writers && n.shared.writers[h].count == |n.shared.writers[h].completed|
      ensures exists i :: 0 <= i < |after| && SeesTo(after[i], h)
    {
      var i :| 0 <= i < |n.calls| && SeesTo(n.calls[i], h);
      assert SeesTo(after[i], h);
    }
    assert CallInv(n.shared, Begun(info, len)) by {
      NewCall(n.shared, info, len);
    }
  }

  lemma NewCall(s: Shared, info: Chunk, len: int)
    ensures CallInv(s, Begun(info, len))
  {
  }

  /** A chunk that is drained after its blob was stored counts as accepted. */
  lemma DrainedAccepted(s: Shared, c: Call)
    requires WritersGood(s) && CallInv(s, c) && c.Draining?
    ensures AcceptedGood(s, c.info)
  {
    var h := c.info.hash;
    CountAgrees(s.blobs[h].size, s.cs);
    ReceiverAcceptsPlan(c.info, s.blobs[h], s.cs, c.len);
    PlannedIndex(c.info, s.blobs[h], s.cs);
    if h in s.writers {
      WriterFits(s, h);
      TruesFull(s.writers[h].completed);
    }
    hide PlanOf, IndexOf, ValidChunkShape, Trues;
  }

  lemma LookUpStep(s: Shared, c: Call)
    requires WritersGood(s) && SettledStored(s) && c.Begun?
    ensures LookUp(s, c.info, c.len) == TakeWriter ==> CallInv(s, Checking(c.info, c.len))
    ensures LookUp(s, c.info, c.len) == Drain ==> CallInv(s, Draining(c.info, c.len))
  {
    hide ValidChunkShape, WriterGood;
  }

  /** Every event keeps the invariant. */
  lemma NextKeeps(digest: Digest, n: Net, e: Event)
    requires NetInv(digest, n)
    ensures NetInv(digest, Next(digest, n, e))
  {
    match e
    case Begin(info, len) => BeginStep(digest, n, info, len);
    case FailAll => FailAllStep(digest, n);
    case Step(id, read, fault) =>
      if id < |n.calls| {
        StepKeeps(digest, n, id, read, fault);
      }
  }

  lemma StepKeeps(digest: Digest, n: Net, id: nat, read: Option<Bytes>, fault: bool)
    requires NetInv(digest, n) && id < |n.calls|
    ensures NetInv(digest, Next(digest, n, Step(id, read, fault)))
  {
    var s, call := n.shared, n.calls[id];
    assert call in n.calls;
    assert SharedInv(digest, s) && CallInv(s, call);
    InvParts(digest, s);
    hide SharedInv, CountsGood, StoreGood;
    match call
    case Writing(_, _) =>
      WriteStep(digest, n, id, fault);
      hide NetInv, WriteChunk;
    case Committing(_) =>
      CommitStep(digest, n, id, fault);
      hide NetInv, CommitBlob;
    case Finishing(_) =>
      FinishStep(digest, n, id);
      hide NetInv, Finish;
    case Failing(info) =>
      FailedCall(Fail(s), info);
      FailStep(digest, n, id, Ended(info, Failed));
      hide NetInv, Fail;
    case _ =>
      if call.Begun? {
        LookUpStep(s, call);
      } else if call.Draining? {
        DrainedAccepted(s, call);
      }
      hide CallInv, SettledStored, AcceptedGood, LookUp;
      QuietCall(digest, s, call, read, fault);
      QuietStep(digest, n, id, StepCall(digest, s, call, read, fault).1);
      hide NetInv;
  }

  lemma FailedCall(s: Shared, info: Chunk)
    ensures CallInv(s, Ended(info, Failed))
  {
  }

  lemma QuietCall(digest: Digest, s: Shared, c: Call, read: Option<Bytes>, fault: bool)
    requires SharedInv(digest, s) && CallInv(s, c)
    requires c.Begun? || c.Checking? || c.Reading? || c.Draining? || c.Ended?
    requires c.Begun? && LookUp(s, c.info, c.len) == TakeWriter ==> CallInv(s, Checking(c.info, c.len))
    requires c.Begun? && LookUp(s, c.info, c.len) == Drain ==> CallInv(s, Draining(c.info, c.len))
    requires c.Draining? ==> AcceptedGood(s, c.info)
    ensures Ready(s, c)
    ensures StepCall(digest, s, c, read, fault).0 == s
    ensures CallInv(s, StepCall(digest, s, c, read, fault).1)
    ensures !Due(StepCall(digest, s, c, read, fault).1)
  {
    InvParts(digest, s);
    hide SharedInv, CountsGood, StoreGood, SettledStored, WritersGood, WriterGood, WriterShape;
    forall h | h in s.writers
      ensures WriterShape(s.writers[h], s.cs)
    {
      WriterFits(s, h);
    }
    NormalSize(s);
    QuietCallKept(s, c, read);
    hide LookUp, ValidChunkShape, CallInv, AcceptedGood;
  }

  /** The calls that a quiet step leads to need nothing new. */
  lemma QuietCallKept(s: Shared, c: Call, read: Option<Bytes>)
    requires CallInv(s, c)
    ensures c.Checking? ==> CallInv(s, Reading(c.info, c.len)) && CallInv(s, Failing(c.info))
    ensures c.Reading? && read.Some? ==> CallInv(s, Writing(c.info, read.value))
    ensures CallInv(s, Failing(c.info)) && CallInv(s, Ended(c.info, Broken)) && CallInv(s, Ended(c.info, Failed))
    ensures AcceptedGood(s, c.info) ==> CallInv(s, Ended(c.info, Accepted))
  {
    hide AcceptedGood, ValidChunkShape;
  }

  // ---- Runs ----

  /** A receiver that has just been made: a writer for each blob that the store does not have. */
  ghost predicate Initial(digest: Digest, n: Net) {
    && n.calls == []
    && SharedInv(digest, n.shared)
    && !n.shared.failed
    && n.shared.open == n.shared.writers.Keys
    && (forall h :: h in n.shared.writers ==> !n.shared.writers[h].aborted)
    && (forall h :: h in n.shared.writers && h in n.shared.blobs ==> !Has(n.shared.store, h, n.shared.blobs[h].size))
    && forall h :: h in n.shared.writers ==> forall i :: 0 <= i < |n.shared.writers[h].completed| ==> !n.shared.writers[h].completed[i]
  }

  lemma InitialInv(digest: Digest, n: Net)
    requires Initial(digest, n)
    ensures NetInv(digest, n)
  {
    InvParts(digest, n.shared);
    forall h | h in n.shared.writers
      ensures n.shared.writers[h].count != |n.shared.writers[h].completed|
    {
      WriterFits(n.shared, h);
      TruesFull(n.shared.writers[h].completed);
      assert |n.shared.writers[h].completed| > 0;
      assert !n.shared.writers[h].completed[0];
    }
    hide SharedInv;
  }

  ghost function Run(digest: Digest, n: Net, events: seq<Event>): (r: Net)
    requires NetInv(digest, n)
    ensures NetInv(digest, r)
  {
    if events == [] then n
    else
      var m := Run(digest, n, events[..|events| - 1]);
      NextKeeps(digest, m, events[|events| - 1]);
      Next(digest, m, events[|events| - 1])
  }

  /** The state of a new receiver after a run. */
  ghost function RunFrom(digest: Digest, n: Net, events: seq<Event>): (r: Net)
    requires Initial(digest, n)
    ensures NetInv(digest, r)
  {
    InitialInv(digest, n);
    Run(digest, n, events)
  }

  /** Wait returns nil: done is closed and no error is recorded. */
  predicate WaitOk(s: Shared) {
    s.done && !s.failed
  }

  /**
   In every reachable state: the pending count is the number of open writers unless something has
   failed, no blob has two calls about to commit it, and waiting succeeds only when every blob of
   the transfer is stored with its size and digest.
   */
  lemma ReceiverSafe(digest: Digest, n: Net, events: seq<Event>)
    requires Initial(digest, n)
    ensures var r := RunFrom(digest, n, events);
            && (!r.shared.failed ==> r.shared.pending == |r.shared.open|)
            && (forall i, j :: 0 <= i < j < |r.calls| && r.calls[i].Committing? && r.calls[j].Committing? ==>
                  r.calls[i].info.hash != r.calls[j].info.hash)
            && (WaitOk(r.shared) ==> forall h :: h in r.shared.blobs ==>
                  h in r.shared.store && |r.shared.store[h]| == r.shared.blobs[h].size && digest(r.shared.store[h]) == h)
  {
    var r := RunFrom(digest, n, events);
    hide Initial;
    InvParts(digest, r.shared);
    SettledAll(digest, r.shared);
    hide SharedInv, WritersGood, SettledStored, StoreGood;
  }

  lemma SettledAll(digest: Digest, s: Shared)
    requires CountsGood(s) && SettledStored(s) && StoreGood(digest, s.store) && WritersGood(s)
    ensures WaitOk(s) ==> forall h :: h in s.blobs ==> Has(s.store, h, s.blobs[h].size) && digest(s.store[h]) == h
  {
    assert WaitOk(s) ==> s.open == {};
    hide WritersGood;
  }

  /**
   When nothing has failed, every call has returned and every planned chunk was accepted, the
   receiver is done.
   */
  lemma AllAcceptedDone(digest: Digest, n: Net)
    requires NetInv(digest, n) && !n.shared.failed
    requires forall c :: c in n.calls ==> c.Ended?
    requires forall h, c :: h in n.shared.blobs && c in PlanOf(n.shared.blobs[h], n.shared.cs) ==>
               Ended(c, Accepted) in n.calls
    ensures WaitOk(n.shared)
  {
    var s := n.shared;
    InvParts(digest, s);
    forall h | h in s.open
      ensures false
    {
      WriterFits(s, h);
      var w := s.writers[h];
      forall i | 0 <= i < |w.completed|
        ensures w.completed[i]
      {
        var c := PlanOf(s.blobs[h], s.cs)[i];
        assert c in PlanOf(s.blobs[h], s.cs);
        assert CallInv(s, Ended(c, Accepted));
        DivideMultiple(i, s.cs);
      }
      TruesFull(w.completed);
      NobodySeesTo(n, h);
    }
    assert s.open == {};
  }

  lemma NobodySeesTo(n: Net, h: string)
    requires forall c :: c in n.calls ==> c.Ended?
    ensures forall i :: 0 <= i < |n.calls| ==> !SeesTo(n.calls[i], h)
  {
    forall i | 0 <= i < |n.calls|
      ensures !SeesTo(n.calls[i], h)
    {
      assert n.calls[i] in n.calls;
    }
  }
}
