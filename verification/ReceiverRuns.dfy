/**
 What lasts over a run of the receiver: a call that has ended stays as it ended, a stored blob
 stays stored, a receiver fails only because a call failed it, and once it has failed it accepts no
 call that begins later.
 */
module ReceiverRuns {
  import opened FileTree
  import opened Options
  import opened BlobChunks
  import opened BlobReceiver

  predicate EndedFailed(c: Call) {
    c.Ended? && c.outcome == Failed
  }

  /** Stored blobs of the transfer stay stored, and what the receiver was made for does not change. */
  ghost predicate Grown(s: Shared, t: Shared) {
    && t.cs == s.cs && t.blobs == s.blobs
    && (s.failed ==> t.failed)
    && forall h :: h in s.blobs && Has(s.store, h, s.blobs[h].size) ==> Has(t.store, h, s.blobs[h].size)
  }

  /** No event of the run fails the receiver from outside. */
  ghost predicate NoOutsideFailure(events: seq<Event>) {
    forall e :: e in events ==> !e.FailAll?
  }

  /** A failure has a failed call behind it, or one that is about to return its failure. */
  ghost predicate FailureTold(n: Net) {
    n.shared.failed ==> exists i :: 0 <= i < |n.calls| && EndedFailed(n.calls[i])
  }

  ghost predicate FailureSeen(n: Net) {
    forall i :: 0 <= i < |n.calls| && EndedFailed(n.calls[i]) ==> n.shared.failed
  }

  /** The receiver has failed, and the calls from number `from` on began after that. */
  ghost predicate LateCalls(n: Net, from: nat) {
    && n.shared.failed
    && forall i :: from <= i < |n.calls| ==> n.calls[i].Begun? || n.calls[i].Failing? || EndedFailed(n.calls[i])
  }

  // ---- One event ----

  lemma CommitGrows(digest: Digest, s: Shared, hash: string, fault: bool)
    requires WritersGood(s) && hash in s.writers
    ensures var t := CommitBlob(digest, s, hash, fault).0; Grown(s, t) && t.failed == s.failed
  {
    assert WriterGood(s, hash);
    hide WritersGood, WriterGood;
  }

  lemma FailGrows(s: Shared)
    ensures Grown(s, Fail(s)) && Fail(s).failed
  {
  }

  lemma FinishGrows(s: Shared, hash: string)
    ensures Grown(s, Finish(s, hash)) && Finish(s, hash).failed == s.failed
  {
  }

  /**
   How one region moves a call and the shared state. A failed call and a failed receiver come
   together, an ended call does not move, and in a failed receiver a call that has just begun fails.
   */
  ghost predicate Moves(s: Shared, c: Call, t: Shared, d: Call) {
    && Grown(s, t)
    && (EndedFailed(d) ==> t.failed || EndedFailed(c))
    && (t.failed ==> s.failed || EndedFailed(d))
    && (s.failed && (c.Begun? || c.Failing?) ==> d.Failing? || EndedFailed(d))
    && (c.Ended? ==> d == c && t == s)
  }

  lemma CallMoves(digest: Digest, s: Shared, c: Call, read: Option<Bytes>, fault: bool)
    requires WritersGood(s) && Ready(s, c)
    ensures var (t, d) := StepCall(digest, s, c, read, fault); Moves(s, c, t, d)
  {
    hide WritersGood, WriteChunk, ValidChunkShape, WriterShape, CommitBlob, Fail, Finish;
    match c
    case Committing(info) => CommitGrows(digest, s, info.hash, fault);
    case Finishing(info) => FinishGrows(s, info.hash);
    case Failing(_) => FailGrows(s);
    case _ =>
  }

  /** What one event makes of the network. */
  ghost predicate Moved(n: Net, t: Net, e: Event) {
    match e
    case Begin(info, len) => t == Net(n.shared, n.calls + [Begun(info, len)])
    case FailAll => t.calls == n.calls && Grown(n.shared, t.shared) && t.shared.failed
    case Step(id, _, _) =>
      if id >= |n.calls| then t == n
      else |t.calls| == |n.calls| && t.calls == n.calls[id := t.calls[id]] && Moves(n.shared, n.calls[id], t.shared, t.calls[id])
  }

  lemma NextMoves(digest: Digest, n: Net, e: Event)
    requires NetInv(digest, n)
    ensures Moved(n, Next(digest, n, e), e)
  {
    match e
    case Begin(_, _) =>
    case FailAll => FailGrows(n.shared);
    case Step(id, read, fault) =>
      if id < |n.calls| {
        CallReady(digest, n, id);
        InvParts(digest, n.shared);
        CallMoves(digest, n.shared, n.calls[id], read, fault);
        hide NetInv, StepCall, Moves;
      }
  }

  lemma MovedGrows(n: Net, t: Net, e: Event)
    requires Moved(n, t, e)
    ensures Grown(n.shared, t.shared) && |t.calls| == |n.calls| + if e.Begin? then 1 else 0
    ensures forall i :: 0 <= i < |n.calls| && n.calls[i].Ended? ==> t.calls[i] == n.calls[i]
  {
  }

  lemma MovedSeen(n: Net, t: Net, e: Event)
    requires Moved(n, t, e) && FailureSeen(n)
    ensures FailureSeen(t)
  {
    forall i | 0 <= i < |t.calls| && EndedFailed(t.calls[i])
      ensures t.shared.failed
    {
      assert i < |n.calls| && t.calls[i] == n.calls[i] ==> EndedFailed(n.calls[i]);
    }
  }

  lemma MovedTold(n: Net, t: Net, e: Event)
    requires Moved(n, t, e) && FailureTold(n) && !e.FailAll?
    ensures FailureTold(t)
  {
    if t.shared.failed && n.shared.failed {
      var i :| 0 <= i < |n.calls| && EndedFailed(n.calls[i]);
      assert EndedFailed(t.calls[i]);
    } else if t.shared.failed {
      assert EndedFailed(t.calls[e.id]);
    }
  }

  lemma MovedLate(n: Net, t: Net, e: Event, from: nat)
    requires Moved(n, t, e) && LateCalls(n, from) && from <= |n.calls|
    ensures LateCalls(t, from)
  {
    forall i | from <= i < |t.calls|
      ensures t.calls[i].Begun? || t.calls[i].Failing? || EndedFailed(t.calls[i])
    {
      assert i < |n.calls| ==> n.calls[i].Begun? || n.calls[i].Failing? || EndedFailed(n.calls[i]);
    }
  }

  // ---- Runs ----

  lemma RunNext(digest: Digest, n: Net, events: seq<Event>, k: nat)
    requires NetInv(digest, n) && k < |events|
    ensures Moved(Run(digest, n, events[..k]), Run(digest, n, events[..k + 1]), events[k])
  {
    assert events[..k + 1][..k] == events[..k];
    NextMoves(digest, Run(digest, n, events[..k]), events[k]);
    hide NetInv, Next, Moved;
  }

  /** From any point of a run on, ended calls stay as they are and stored blobs stay stored. */
  lemma {:induction false} RunGrows(digest: Digest, n: Net, events: seq<Event>, m: nat, k: nat)
    requires NetInv(digest, n) && m <= k <= |events|
    ensures var s, t := Run(digest, n, events[..m]), Run(digest, n, events[..k]);
            && Grown(s.shared, t.shared) && |s.calls| <= |t.calls|
            && forall i :: 0 <= i < |s.calls| && s.calls[i].Ended? ==> t.calls[i] == s.calls[i]
    decreases k
  {
    hide NetInv, Run, Moved;
    if m < k {
      RunGrows(digest, n, events, m, k - 1);
      RunNext(digest, n, events, k - 1);
      MovedGrows(Run(digest, n, events[..k - 1]), Run(digest, n, events[..k]), events[k - 1]);
    }
  }

  /** Once a receiver has failed, a call that begins later is never accepted. */
  lemma {:induction false} LateNeverAccepted(digest: Digest, n: Net, events: seq<Event>, m: nat, k: nat)
    requires NetInv(digest, n) && m <= k <= |events| && Run(digest, n, events[..m]).shared.failed
    ensures LateCalls(Run(digest, n, events[..k]), |Run(digest, n, events[..m]).calls|)
    decreases k
  {
    hide NetInv, Run, Moved, Grown;
    if m < k {
      LateNeverAccepted(digest, n, events, m, k - 1);
      RunGrows(digest, n, events, m, k - 1);
      RunNext(digest, n, events, k - 1);
      MovedLate(Run(digest, n, events[..k - 1]), Run(digest, n, events[..k]), events[k - 1], |Run(digest, n, events[..m]).calls|);
    }
  }

  lemma RunStart(digest: Digest, n: Net, events: seq<Event>)
    requires NetInv(digest, n)
    ensures Run(digest, n, events[..0]) == n
  {
    hide NetInv;
  }

  lemma NothingFailed(n: Net)
    requires n.calls == [] && !n.shared.failed
    ensures FailureSeen(n) && FailureTold(n)
  {
  }

  /** Failed calls and failed receivers go together as long as nothing outside fails the receiver. */
  lemma {:induction false} FailureHasCall(digest: Digest, n: Net, events: seq<Event>, k: nat)
    requires NetInv(digest, n) && n.calls == [] && !n.shared.failed && k <= |events|
    ensures FailureSeen(Run(digest, n, events[..k]))
    ensures NoOutsideFailure(events) ==> FailureTold(Run(digest, n, events[..k]))
  {
    hide NetInv, Run, Moved, FailureSeen, FailureTold;
    if k == 0 {
      RunStart(digest, n, events);
      NothingFailed(n);
    } else {
      FailureHasCall(digest, n, events, k - 1);
      RunNext(digest, n, events, k - 1);
      var s, t := Run(digest, n, events[..k - 1]), Run(digest, n, events[..k]);
      MovedSeen(s, t, events[k - 1]);
      if NoOutsideFailure(events) {
        assert events[k - 1] in events;
        MovedTold(s, t, events[k - 1]);
      }
    }
  }

  /** Every call of a run began at some event. */
  lemma {:induction false} CallBegan(digest: Digest, n: Net, events: seq<Event>, k: nat, id: nat) returns (m: nat)
    requires NetInv(digest, n) && n.calls == [] && k <= |events| && id < |Run(digest, n, events[..k]).calls|
    ensures m < k && events[m].Begin? && |Run(digest, n, events[..m]).calls| == id
    decreases k
  {
    assert k > 0;
    hide NetInv, Run, Moved, Grown;
    RunNext(digest, n, events, k - 1);
    MovedGrows(Run(digest, n, events[..k - 1]), Run(digest, n, events[..k]), events[k - 1]);
    if id < |Run(digest, n, events[..k - 1]).calls| {
      m := CallBegan(digest, n, events, k - 1, id);
    } else {
      m := k - 1;
    }
  }

  /** Nothing is lost from the start of a run on. */
  lemma RunKeepsBlobs(digest: Digest, n: Net, events: seq<Event>, k: nat)
    requires NetInv(digest, n) && k <= |events|
    ensures Grown(n.shared, Run(digest, n, events[..k]).shared)
  {
    hide NetInv, Run, Grown;
    RunStart(digest, n, events);
    RunGrows(digest, n, events, 0, k);
  }

  /** When call `id` has returned by the time call `later` begins and `later` is accepted, `id` did not fail. */
  lemma BeforeAccepted(digest: Digest, n: Net, events: seq<Event>, m: nat, id: nat, later: nat)
    requires NetInv(digest, n) && n.calls == [] && !n.shared.failed && m <= |events|
    requires var calls := Run(digest, n, events[..m]).calls; id < |calls| == later && calls[id].Ended?
    requires var calls := Run(digest, n, events).calls; later < |calls| && calls[later].Ended? && calls[later].outcome == Accepted
    ensures !EndedFailed(Run(digest, n, events).calls[id])
  {
    hide NetInv, Run, Grown;
    assert events[..|events|] == events;
    RunGrows(digest, n, events, m, |events|);
    FailureHasCall(digest, n, events, m);
    if EndedFailed(Run(digest, n, events).calls[id]) {
      LateNeverAccepted(digest, n, events, m, |events|);
      assert false;
    }
  }

  /**
   A read is broken off exactly when it yields fewer or other than the announced bytes, and a call that is
   broken off has changed nothing and failed nothing.
   */
  lemma BrokenIffShort(digest: Digest, s: Shared, c: Call, read: Option<Bytes>, fault: bool)
    requires Ready(s, c) && !c.Ended?
    ensures var (t, d) := StepCall(digest, s, c, read, fault);
            && (d.Ended? && d.outcome == Broken <==> (c.Reading? || c.Draining?) && !(read.Some? && |read.value| == c.len))
            && (d.Ended? && d.outcome == Broken ==> t == s)
            && (c.Draining? && d.Ended? && d.outcome == Accepted ==> read.Some? && |read.value| == c.len)
  {
    hide WriteChunk, CommitBlob, Fail, Finish, LookUp, ValidChunkShape, WriterShape;
  }

  // ---- After a failure ----

  /** A failed receiver has given up every writer that is not spent. */
  ghost predicate GivenUp(s: Shared) {
    s.failed ==> forall h :: h in s.writers ==> s.writers[h].committed || s.writers[h].aborted
  }

  lemma CommitGivenUp(digest: Digest, s: Shared, hash: string, fault: bool)
    requires WritersGood(s) && hash in s.writers && GivenUp(s)
    ensures var t := CommitBlob(digest, s, hash, fault).0; GivenUp(t) && (s.failed ==> t.store == s.store)
  {
    hide WritersGood;
  }

  lemma WriteGivenUp(w: Writer, hash: string, cs: int, info: Chunk, payload: Bytes, fault: bool)
    requires WriterShape(w, cs)
    ensures var v := WriteChunk(w, hash, cs, info, payload, fault).0; v.committed == w.committed && v.aborted == w.aborted
  {
  }

  lemma FailGivenUp(s: Shared)
    requires GivenUp(s) && forall h :: h in s.writers && h !in s.open && !s.failed ==> s.writers[h].committed
    ensures GivenUp(Fail(s)) && Fail(s).store == s.store
  {
  }

  lemma CallGivenUp(digest: Digest, s: Shared, c: Call, read: Option<Bytes>, fault: bool)
    requires WritersGood(s) && SettledStored(s) && Ready(s, c) && GivenUp(s)
    ensures var t := StepCall(digest, s, c, read, fault).0; GivenUp(t) && (s.failed ==> t.store == s.store)
  {
    if c.Writing? {
      WriteGivenUp(s.writers[c.info.hash], c.info.hash, s.cs, c.info, c.payload, fault);
    } else if c.Committing? {
      CommitGivenUp(digest, s, c.info.hash, fault);
    } else if c.Failing? {
      SpentOutside(s);
      FailGivenUp(s);
    }
    hide WritersGood, SettledStored, WriteChunk, CommitBlob, Fail, LookUp, ValidChunkShape, WriterShape;
  }

  lemma SpentOutside(s: Shared)
    requires WritersGood(s) && SettledStored(s)
    ensures forall h :: h in s.writers && h !in s.open && !s.failed ==> s.writers[h].committed
  {
    forall h | h in s.writers && h !in s.open && !s.failed
      ensures s.writers[h].committed
    {
      WriterFits(s, h);
    }
  }

  lemma NextGivenUp(digest: Digest, n: Net, e: Event)
    requires NetInv(digest, n) && GivenUp(n.shared)
    ensures GivenUp(Next(digest, n, e).shared)
    ensures n.shared.failed ==> Next(digest, n, e).shared.store == n.shared.store
  {
    InvParts(digest, n.shared);
    match e
    case Begin(_, _) =>
    case FailAll =>
      SpentOutside(n.shared);
      FailGivenUp(n.shared);
    case Step(id, read, fault) =>
      if id < |n.calls| {
        CallReady(digest, n, id);
        CallGivenUp(digest, n.shared, n.calls[id], read, fault);
      }
      hide NetInv, StepCall, GivenUp, WritersGood, SettledStored, CountsGood, StoreGood;
  }

  lemma {:induction false} RunGivenUp(digest: Digest, n: Net, events: seq<Event>, k: nat)
    requires NetInv(digest, n) && !n.shared.failed && k <= |events|
    ensures GivenUp(Run(digest, n, events[..k]).shared)
  {
    hide NetInv, Next;
    if k == 0 {
      RunStart(digest, n, events);
    } else {
      RunGivenUp(digest, n, events, k - 1);
      assert events[..k][..k - 1] == events[..k - 1];
      NextGivenUp(digest, Run(digest, n, events[..k - 1]), events[k - 1]);
    }
  }

  /** Once a receiver has failed, nothing is stored any more, whatever its running calls still do. */
  lemma {:induction false} FailedStoresNothing(digest: Digest, n: Net, events: seq<Event>, m: nat, k: nat)
    requires NetInv(digest, n) && !n.shared.failed && m <= k <= |events| && Run(digest, n, events[..m]).shared.failed
    ensures Run(digest, n, events[..k]).shared.store == Run(digest, n, events[..m]).shared.store
    decreases k
  {
    hide NetInv, Next, GivenUp;
    if m < k {
      FailedStoresNothing(digest, n, events, m, k - 1);
      RunGrows(digest, n, events, m, k - 1);
      RunGivenUp(digest, n, events, k - 1);
      assert events[..k][..k - 1] == events[..k - 1];
      NextGivenUp(digest, Run(digest, n, events[..k - 1]), events[k - 1]);
    }
    hide Run;
  }
}
