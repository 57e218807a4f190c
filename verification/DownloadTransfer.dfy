/** The whole download: the plan is dealt out to workers, and the transfer is over when the receiver is. */
module DownloadTransfer {
  import opened FileTree
  import opened BlobChunks
  import opened BlobReceiver
  import opened BlobReceiverObject
  import opened ReceiverRuns
  import opened DownloadPipeline

  // ---- Groups ----

  /** Of the first `n` chunks, those whose index leaves remainder `g`. */
  function GroupOf(chunks: seq<Chunk>, parallel: nat, g: nat, n: nat): seq<Chunk>
    requires n <= |chunks| && 0 < parallel
  {
    if n == 0 then []
    else if (n - 1) % parallel == g then GroupOf(chunks, parallel, g, n - 1) + [chunks[n - 1]]
    else GroupOf(chunks, parallel, g, n - 1)
  }

  /** The number of groups: at least one worker if there is a chunk, and never an idle one. */
  function GroupCount(total: nat, parallel: int): nat {
    var wanted := if parallel < 1 then 1 else parallel;
    if wanted > total then total else wanted
  }

  lemma {:induction false} GroupMembers(chunks: seq<Chunk>, parallel: nat, g: nat, n: nat)
    requires n <= |chunks| && 0 < parallel
    ensures forall c :: c in GroupOf(chunks, parallel, g, n) <==> exists i :: 0 <= i < n && i % parallel == g && chunks[i] == c
  {
    if n > 0 {
      GroupMembers(chunks, parallel, g, n - 1);
    }
  }

  lemma {:induction false} GroupDistinct(chunks: seq<Chunk>, parallel: nat, g: nat, n: nat)
    requires n <= |chunks| && 0 < parallel && DistinctKeys(chunks)
    ensures DistinctKeys(GroupOf(chunks, parallel, g, n))
  {
    if n > 0 {
      GroupDistinct(chunks, parallel, g, n - 1);
      var front := GroupOf(chunks, parallel, g, n - 1);
      GroupMembers(chunks, parallel, g, n - 1);
      forall i | 0 <= i < |front|
        ensures KeyOf(front[i]) != KeyOf(chunks[n - 1])
      {
        assert front[i] in front;
      }
    }
  }

  /** downloadChunkGroups: chunk `i` goes to group `i % parallel`. */
  method DownloadChunkGroups(chunks: seq<Chunk>, parallel: int) returns (groups: seq<seq<Chunk>>)
    ensures |groups| == GroupCount(|chunks|, parallel)
    ensures parallel >= 1 ==> |groups| == if parallel < |chunks| then parallel else |chunks|
    ensures parallel < 1 ==> |groups| == if chunks == [] then 0 else 1
    ensures forall g :: 0 <= g < |groups| ==> groups[g] == GroupOf(chunks, |groups|, g, |chunks|)
  {
    var count := GroupCount(|chunks|, parallel);
    groups := seq(count, i => []);
    if count == 0 {
      return;
    }
    for i := 0 to |chunks|
      invariant |groups| == count
      invariant forall g :: 0 <= g < count ==> groups[g] == GroupOf(chunks, count, g, i)
    {
      groups := groups[i % count := groups[i % count] + [chunks[i]]];
    }
  }

  /** The groups partition the chunks: each chunk is in one group, and groups share no key. */
  lemma GroupsPartition(chunks: seq<Chunk>, parallel: int, groups: seq<seq<Chunk>>)
    requires DistinctKeys(chunks) && |groups| == GroupCount(|chunks|, parallel)
    requires forall g :: 0 <= g < |groups| ==> groups[g] == GroupOf(chunks, |groups|, g, |chunks|)
    ensures forall g :: 0 <= g < |groups| ==> DistinctKeys(groups[g])
    ensures forall c :: c in chunks <==> exists g :: 0 <= g < |groups| && c in groups[g]
    ensures forall g, h :: 0 <= g < h < |groups| ==> KeysOf(groups[g]) !! KeysOf(groups[h])
  {
    forall g | 0 <= g < |groups|
      ensures DistinctKeys(groups[g])
      ensures forall c :: c in groups[g] <==> exists i :: 0 <= i < |chunks| && i % |groups| == g && chunks[i] == c
    {
      GroupDistinct(chunks, |groups|, g, |chunks|);
      GroupMembers(chunks, |groups|, g, |chunks|);
    }
    forall c | c in chunks
      ensures exists g :: 0 <= g < |groups| && c in groups[g]
    {
      var i :| 0 <= i < |chunks| && chunks[i] == c;
      assert c in groups[i % |groups|];
    }
    forall g, h | 0 <= g < h < |groups|
      ensures KeysOf(groups[g]) !! KeysOf(groups[h])
    {
      forall k | k in KeysOf(groups[g]) && k in KeysOf(groups[h])
        ensures false
      {
        SharedKey(chunks, groups, g, h, k);
      }
    }
  }

  lemma SharedKey(chunks: seq<Chunk>, groups: seq<seq<Chunk>>, g: nat, h: nat, k: Key)
    requires DistinctKeys(chunks) && g < |groups| && h < |groups|
    requires groups[g] == GroupOf(chunks, |groups|, g, |chunks|) && groups[h] == GroupOf(chunks, |groups|, h, |chunks|)
    requires k in KeysOf(groups[g]) && k in KeysOf(groups[h])
    ensures g == h
  {
    GroupMembers(chunks, |groups|, g, |chunks|);
    GroupMembers(chunks, |groups|, h, |chunks|);
    var c :| c in groups[g] && KeyOf(c) == k;
    var d :| d in groups[h] && KeyOf(d) == k;
    var i :| 0 <= i < |chunks| && i % |groups| == g && chunks[i] == c;
    var j :| 0 <= j < |chunks| && j % |groups| == h && chunks[j] == d;
    assert i == j;
  }

  // ---- The receiver of the transfer ----

  /** The receiver was made for these blobs. */
  ghost predicate MadeFor(s: Shared, blobs: seq<Descriptor>) {
    && Sizes(blobs) && DistinctHashes(blobs)
    && (forall b :: b in blobs ==> b.hash in s.blobs && s.blobs[b.hash] == b)
    && (forall h :: h in s.blobs ==> s.blobs[h] in blobs)
  }

  lemma AddedFor(s: Shared, blobs: seq<Descriptor>, blob: Descriptor)
    requires Normal(s.cs) && MadeFor(s, blobs) && AddBlob(s, blob).Some?
    requires forall h :: h in s.blobs ==> s.blobs[h].hash == h
    ensures MadeFor(AddBlob(s, blob).value, blobs + [blob])
    ensures forall h :: h in AddBlob(s, blob).value.blobs ==> AddBlob(s, blob).value.blobs[h].hash == h
  {
    var t := AddBlob(s, blob).value;
    assert t.blobs == s.blobs[blob.hash := blob];
    hide AddBlob;
    forall b | b in blobs
      ensures b.hash != blob.hash
    {
      assert b.hash in s.blobs;
    }
    assert forall b :: b in blobs + [blob] <==> b in blobs || b == blob;
  }

  /** The receiver that the constructor makes is one for the given descriptors. */
  lemma {:induction false} BuiltFor(store: map<string, Bytes>, cs: int, blobs: seq<Descriptor>)
    requires Normal(cs) && Build(store, cs, blobs).Some?
    ensures MadeFor(Build(store, cs, blobs).value, blobs)
    ensures forall h :: h in Build(store, cs, blobs).value.blobs ==> Build(store, cs, blobs).value.blobs[h].hash == h
  {
    if blobs != [] {
      var front := blobs[..|blobs| - 1];
      BuiltFor(store, cs, front);
      assert blobs == front + [blobs[|blobs| - 1]];
      hide MadeFor, AddBlob;
      AddedFor(Build(store, cs, front).value, front, blobs[|blobs| - 1]);
    }
  }

  /** Every blob of the transfer is in the store with its size and digest. */
  ghost predicate AllStored(digest: Digest, store: map<string, Bytes>, blobs: seq<Descriptor>) {
    forall b :: b in blobs ==> b.hash in store && |store[b.hash]| == b.size && digest(store[b.hash]) == b.hash
  }

  lemma DoneStored(digest: Digest, n: Net, blobs: seq<Descriptor>)
    requires NetInv(digest, n) && WaitOk(n.shared) && MadeFor(n.shared, blobs)
    ensures AllStored(digest, n.shared.store, blobs)
  {
    InvParts(digest, n.shared);
    SettledAll(digest, n.shared);
    hide NetInv;
  }

  /** Stored once, stored for good. */
  lemma StillStored(digest: Digest, n: Net, m: Net, blobs: seq<Descriptor>)
    requires AllStored(digest, n.shared.store, blobs) && MadeFor(n.shared, blobs)
    requires NetInv(digest, m) && Grown(n.shared, m.shared)
    ensures AllStored(digest, m.shared.store, blobs)
  {
    InvParts(digest, m.shared);
    hide NetInv, WritersGood, CountsGood, SettledStored;
  }

  // ---- The workers and the receiver together ----

  predicate SameOutcome(taken: Taken, outcome: Outcome) {
    match taken
    case Received => outcome == Accepted
    case PayloadBroken => outcome == Broken
    case ReceiverFailed(_) => outcome == Failed
  }

  /** What a worker saw of its calls is what the receiver did with them. */
  ghost predicate Reported(n: Net, made: seq<Made>) {
    forall i :: 0 <= i < |made| ==>
      && made[i].call < |n.calls|
      && n.calls[made[i].call].Ended?
      && KeyOf(n.calls[made[i].call].info) == made[i].key
      && SameOutcome(made[i].taken, n.calls[made[i].call].outcome)
  }

  /** A worker makes a call only after its earlier calls have returned. */
  ghost predicate OneAfterAnother(digest: Digest, n: Net, events: seq<BlobReceiver.Event>, made: seq<Made>)
    requires Initial(digest, n)
  {
    forall m, i, j :: 0 <= m < |events| && 0 <= i < j < |made| && events[m].Begin? ==>
      var calls := RunFrom(digest, n, events[..m]).calls;
      |calls| == made[j].call ==> made[i].call < |calls| && calls[made[i].call].Ended?
  }

  ghost predicate CallOf(made: seq<seq<Made>>, id: nat) {
    exists g, i :: 0 <= g < |made| && 0 <= i < |made[g]| && made[g][i].call == id
  }

  /** The calls of a run are those of the workers, and the workers saw them right. */
  ghost predicate WorkersRun(digest: Digest, n: Net, events: seq<BlobReceiver.Event>, made: seq<seq<Made>>)
    requires Initial(digest, n)
  {
    var r := RunFrom(digest, n, events);
    && (forall g :: 0 <= g < |made| ==> Reported(r, made[g]) && OneAfterAnother(digest, n, events, made[g]))
    && (forall id :: 0 <= id < |r.calls| ==> CallOf(made, id))
  }

  lemma InitialStart(digest: Digest, n: Net)
    requires Initial(digest, n)
    ensures NetInv(digest, n) && n.calls == [] && !n.shared.failed && 0 < n.shared.cs
  {
    InitialInv(digest, n);
    hide NetInv;
  }

  lemma SameBlobs(s: Shared, t: Shared, blobs: seq<Descriptor>)
    requires MadeFor(s, blobs) && Grown(s, t)
    ensures MadeFor(t, blobs) && t.cs == s.cs && Sizes(blobs) && DistinctHashes(blobs)
  {
    hide DistinctHashes;
  }

  lemma ReportedAt(r: Net, made: seq<Made>, i: nat)
    requires Reported(r, made) && i < |made|
    ensures made[i].call < |r.calls| && r.calls[made[i].call].Ended?
    ensures SameOutcome(made[i].taken, r.calls[made[i].call].outcome)
  {
  }

  lemma TakenAt(made: seq<Made>, i: nat, k: Key) returns (j: nat)
    requires TakenFrom(made, i, k)
    ensures i <= j < |made| && made[j].key == k && made[j].taken == Received
  {
    j :| i <= j < |made| && made[j].key == k && made[j].taken == Received;
  }

  /**
   A worker that has succeeded made no call that failed: it would have made a later call for the
   same chunk, and a receiver that has failed accepts no later call.
   */
  lemma SucceededNeverFailed(digest: Digest, n: Net, events: seq<BlobReceiver.Event>, made: seq<Made>, i: nat)
    requires Initial(digest, n) && Reported(RunFrom(digest, n, events), made) && OneAfterAnother(digest, n, events, made)
    requires i < |made| && TakenFrom(made, i, made[i].key)
    ensures RunFrom(digest, n, events).calls[made[i].call].outcome != Failed
  {
    hide Initial, NetInv, Run, KeyOf, TakenFrom, Reported;
    InitialStart(digest, n);
    assert events[..|events|] == events;
    var j := TakenAt(made, i, made[i].key);
    ReportedAt(RunFrom(digest, n, events), made, i);
    ReportedAt(RunFrom(digest, n, events), made, j);
    if i < j {
      var m := CallBegan(digest, n, events, |events|, made[j].call);
      assert Run(digest, n, events[..m]) == RunFrom(digest, n, events[..m]);
      BeforeAccepted(digest, n, events, m, made[i].call, made[j].call);
    }
  }

  /** When all workers succeed, every call has returned and none has failed. */
  lemma NobodyFailed(digest: Digest, n: Net, events: seq<BlobReceiver.Event>, groups: seq<seq<Chunk>>, made: seq<seq<Made>>)
    requires Initial(digest, n) && WorkersRun(digest, n, events, made) && |groups| == |made|
    requires forall g :: 0 <= g < |made| ==> Succeeded(groups[g], made[g])
    ensures forall c :: c in RunFrom(digest, n, events).calls ==> c.Ended? && c.outcome != Failed
  {
    hide Initial, NetInv, RunFrom, TakenFrom, OneAfterAnother, KeyOf, SameOutcome;
    var r := RunFrom(digest, n, events);
    forall id | 0 <= id < |r.calls|
      ensures r.calls[id].Ended? && r.calls[id].outcome != Failed
    {
      assert CallOf(made, id);
      var g, i :| 0 <= g < |made| && 0 <= i < |made[g]| && made[g][i].call == id;
      assert Succeeded(groups[g], made[g]);
      SucceededNeverFailed(digest, n, events, made[g], i);
    }
  }

  /** The accepted call for a chunk of the group of a worker that succeeded. */
  lemma GroupAccepted(r: Net, group: seq<Chunk>, made: seq<Made>, c: Chunk)
    requires Succeeded(group, made) && Reported(r, made) && c in group
    ensures exists d :: Ended(d, Accepted) in r.calls && KeyOf(d) == KeyOf(c)
  {
    hide KeyOf;
    assert TakenFrom(made, 0, KeyOf(c));
    hide Succeeded, TakenFrom;
    var j := TakenAt(made, 0, KeyOf(c));
    var call := r.calls[made[j].call];
    assert call == Ended(call.info, Accepted) && call in r.calls;
  }

  lemma AcceptedChunkKnown(digest: Digest, n: Net, h: string, c: Chunk, d: Chunk)
    requires NetInv(digest, n) && Ended(d, Accepted) in n.calls
    requires h in n.shared.blobs && 0 <= n.shared.blobs[h].size && 0 < n.shared.cs
    requires c in PlanOf(n.shared.blobs[h], n.shared.cs) && n.shared.blobs[h].hash == h
    requires KeyOf(c) == KeyOf(d)
    ensures c == d
  {
    assert CallInv(n.shared, Ended(d, Accepted));
    hide NetInv;
    InPlanOf(c, n.shared.blobs[h], n.shared.cs);
    InPlanOf(d, n.shared.blobs[c.hash], n.shared.cs);
    hide PlanOf;
  }

  lemma BlobsKnown(digest: Digest, n: Net)
    requires NetInv(digest, n)
    ensures 0 < n.shared.cs
    ensures forall h :: h in n.shared.blobs ==> n.shared.blobs[h].hash == h && 0 <= n.shared.blobs[h].size
  {
  }

  lemma PlannedInPlan(n: Net, blobs: seq<Descriptor>, h: string, c: Chunk)
    requires MadeFor(n.shared, blobs) && 0 < n.shared.cs && h in n.shared.blobs
    requires 0 <= n.shared.blobs[h].size && c in PlanOf(n.shared.blobs[h], n.shared.cs)
    ensures c in PlanAll(blobs, n.shared.cs)
  {
    InPlanAll(c, blobs, n.shared.cs);
    hide PlanOf, PlanAll;
  }

  lemma AllPlannedAccepted(digest: Digest, r: Net, blobs: seq<Descriptor>, groups: seq<seq<Chunk>>, made: seq<seq<Made>>)
    requires NetInv(digest, r) && 0 < r.shared.cs && MadeFor(r.shared, blobs) && |groups| == |made|
    requires forall c :: c in PlanAll(blobs, r.shared.cs) ==> exists g :: 0 <= g < |groups| && c in groups[g]
    requires forall g :: 0 <= g < |groups| ==> Succeeded(groups[g], made[g]) && Reported(r, made[g])
    ensures forall h, c :: h in r.shared.blobs && c in PlanOf(r.shared.blobs[h], r.shared.cs) ==> Ended(c, Accepted) in r.calls
  {
    BlobsKnown(digest, r);
    hide NetInv, PlanAll, PlanOf, MadeFor, Succeeded, Reported;
    forall h, c | h in r.shared.blobs && c in PlanOf(r.shared.blobs[h], r.shared.cs)
      ensures Ended(c, Accepted) in r.calls
    {
      PlannedInPlan(r, blobs, h, c);
      var g :| 0 <= g < |groups| && c in groups[g];
      GroupAccepted(r, groups[g], made[g], c);
      var d :| Ended(d, Accepted) in r.calls && KeyOf(d) == KeyOf(c);
      AcceptedChunkKnown(digest, r, h, c, d);
    }
  }

  /** The groups that downloadChunkGroups deals the plan of the blobs out to. */
  ghost predicate Dealt(blobs: seq<Descriptor>, cs: int, parallel: int, groups: seq<seq<Chunk>>) {
    && Sizes(blobs) && 0 < cs
    && var plan := PlanAll(blobs, cs);
    && |groups| == GroupCount(|plan|, parallel)
    && forall g :: 0 <= g < |groups| ==> groups[g] == GroupOf(plan, |groups|, g, |plan|)
  }

  lemma DealtCovers(blobs: seq<Descriptor>, cs: int, parallel: int, groups: seq<seq<Chunk>>)
    requires DistinctHashes(blobs) && Dealt(blobs, cs, parallel, groups)
    ensures Sizes(blobs) && 0 < cs
    ensures forall c :: c in PlanAll(blobs, cs) ==> exists g :: 0 <= g < |groups| && c in groups[g]
  {
    PlanKeysDistinct(blobs, cs);
    hide PlanAll, GroupOf;
    GroupsPartition(PlanAll(blobs, cs), parallel, groups);
  }

  /**
   The whole download, from a new receiver on. However the calls of the workers interleave, if all
   workers succeed and nothing outside fails the receiver, then the receiver is done without an
   error and every requested blob is stored with its size and digest.
   */
  lemma DownloadComplete(digest: Digest, n: Net, events: seq<BlobReceiver.Event>, blobs: seq<Descriptor>, parallel: int, groups: seq<seq<Chunk>>, made: seq<seq<Made>>)
    requires Initial(digest, n) && MadeFor(n.shared, blobs)
    requires Dealt(blobs, n.shared.cs, parallel, groups) && |made| == |groups|
    requires forall g :: 0 <= g < |groups| ==> Succeeded(groups[g], made[g])
    requires WorkersRun(digest, n, events, made) && NoOutsideFailure(events)
    ensures WaitOk(RunFrom(digest, n, events).shared)
    ensures AllStored(digest, RunFrom(digest, n, events).shared.store, blobs)
  {
    hide Initial, NetInv, MadeFor, Grown, Succeeded, Reported, OneAfterAnother, Dealt, AllStored, WaitOk, PlanAll, PlanOf, NoOutsideFailure;
    var r := RunFrom(digest, n, events);
    NobodyFailed(digest, n, events, groups, made);
    InitialStart(digest, n);
    assert events[..|events|] == events;
    RunKeepsBlobs(digest, n, events, |events|);
    SameBlobs(n.shared, r.shared, blobs);
    FailureHasCall(digest, n, events, |events|);
    hide RunFrom, Run;
    DealtCovers(blobs, n.shared.cs, parallel, groups);
    AllPlannedAccepted(digest, r, blobs, groups, made);
    AllAcceptedDone(digest, r);
    DoneStored(digest, r, blobs);
  }

  // ---- Waiting for the end ----

  /** What the waiting loop selects on: a worker's error, the end of the receiver's wait, the end of all workers, a cancel. */
  datatype Signal = WorkerFailed | ReceiverDone(ok: bool) | WorkersDone | Canceled

  datatype Verdict = Waiting | Success | Failure

  predicate Fatal(s: Signal) {
    s == WorkerFailed || s == ReceiverDone(false) || s == Canceled
  }

  /** The receiver has ended well by signal `i`, and signal `j` after it says that all workers are through. */
  ghost predicate EndsWell(signals: seq<Signal>, i: int, j: int) {
    0 <= i < j < |signals| && signals[i] == ReceiverDone(true) && signals[j] == WorkersDone && forall k :: 0 <= k < j ==> !Fatal(signals[k])
  }

  /** The end of the receiver's wait is reported as it was: at some point of the run it was done without an error. */
  ghost predicate Heard(digest: Digest, n: Net, events: seq<BlobReceiver.Event>, signals: seq<Signal>)
    requires Initial(digest, n)
  {
    ReceiverDone(true) in signals ==> exists m :: 0 <= m <= |events| && WaitOk(RunFrom(digest, n, events[..m]).shared)
  }

  /** What was stored when the receiver was done is stored at the end. */
  lemma HeardStored(digest: Digest, n: Net, events: seq<BlobReceiver.Event>, blobs: seq<Descriptor>, signals: seq<Signal>)
    requires Initial(digest, n) && MadeFor(n.shared, blobs)
    requires Heard(digest, n, events, signals) && ReceiverDone(true) in signals
    ensures AllStored(digest, RunFrom(digest, n, events).shared.store, blobs)
  {
    hide Initial, NetInv, MadeFor, Grown, AllStored, WaitOk, Run;
    var m :| 0 <= m <= |events| && WaitOk(RunFrom(digest, n, events[..m]).shared);
    InitialStart(digest, n);
    assert events[..|events|] == events;
    RunKeepsBlobs(digest, n, events, m);
    RunGrows(digest, n, events, m, |events|);
    SameBlobs(n.shared, RunFrom(digest, n, events[..m]).shared, blobs);
    var s := RunFrom(digest, n, events[..m]);
    DoneStored(digest, s, blobs);
    StillStored(digest, s, RunFrom(digest, n, events), blobs);
  }

  /**
   waitForBlobDownload, over a receiver whose run goes on meanwhile. Success needs the receiver's
   own success, workers that are through are not enough; and it means that every blob is stored.
   */
  method WaitForBlobDownload(signals: seq<Signal>, ghost digest: Digest, ghost n: Net, ghost events: seq<BlobReceiver.Event>, ghost blobs: seq<Descriptor>)
    returns (v: Verdict)
    requires Initial(digest, n) && MadeFor(n.shared, blobs) && Heard(digest, n, events, signals)
    ensures v == Success <==> exists i, j :: EndsWell(signals, i, j)
    ensures v == Success ==> AllStored(digest, RunFrom(digest, n, events).shared.store, blobs)
    ensures v == Waiting ==> forall k :: 0 <= k < |signals| ==> !Fatal(signals[k])
  {
    hide Initial, MadeFor, AllStored, Heard;
    var receiverPending := true;
    for k := 0 to |signals|
      invariant forall i :: 0 <= i < k ==> !Fatal(signals[i])
      invariant receiverPending <==> ReceiverDone(true) !in signals[..k]
      invariant forall i, j :: EndsWell(signals, i, j) ==> k <= j
    {
      assert signals[..k + 1] == signals[..k] + [signals[k]];
      match signals[k]
      case ReceiverDone(true) => receiverPending := false;
      case WorkersDone =>
        if !receiverPending {
          var i :| 0 <= i < k && signals[..k][i] == ReceiverDone(true);
          assert EndsWell(signals, i, k);
          HeardStored(digest, n, events, blobs, signals);
          return Success;
        }
        assert forall i :: 0 <= i < k ==> signals[..k][i] != ReceiverDone(true);
      case _ =>
        assert Fatal(signals[k]);
        return Failure;
    }
    v := Waiting;
  }
}
