/**
 Honest transfers succeed: if the network delivers source bytes, nothing fails and every planned chunk
 comes through once, the receiver ends up done with every blob stored. The conditions are
 on the events alone, whatever the receiver makes of them.
 */
module BlobComplete {
  import opened FileTree
  import opened Options
  import opened BlobChunks
  import opened BlobReceiver
  import opened BlobHonest
  import opened ReceiverRuns

  // ---- What the events say ----

  /** The chunks of the calls, in the order in which the calls begin. */
  function Infos(events: seq<Event>): seq<Chunk> {
    if events == [] then []
    else
      var front, last := Infos(events[..|events| - 1]), events[|events| - 1];
      if last.Begin? then front + [last.info] else front
  }

  /** A chunk of a blob of the transfer, within the chunk limit. */
  ghost predicate Planned(s: Shared, c: Chunk) {
    && Normal(s.cs) && c.hash in s.blobs && 0 <= s.blobs[c.hash].size
    && CountOf(s.blobs[c.hash].size, s.cs) <= MAX_CHUNKS
    && c in PlanOf(s.blobs[c.hash], s.cs)
  }

  /** Where the bytes of a chunk end. */
  function EndOf(c: Chunk, cs: int): int {
    if c.size < c.offset + cs then c.size else c.offset + cs
  }

  /** One event of an honest run: no fault, planned chunks of the right length, and source bytes only, though perhaps too few. */
  ghost predicate HonestEvent(n: Net, infos: seq<Chunk>, e: Event, source: map<string, Bytes>) {
    match e
    case Begin(info, len) => Planned(n.shared, info) && len == EndOf(info, n.shared.cs) - info.offset
    case Step(id, read, fault) => !fault && (id < |infos| && read.Some? ==> PayloadHonest(infos[id], read.value, source))
    case FailAll => false
  }

  ghost predicate HonestRun(n: Net, events: seq<Event>, source: map<string, Bytes>) {
    forall k :: 0 <= k < |events| ==> HonestEvent(n, Infos(events[..k]), events[k], source)
  }

  /** Some call for the chunk reads exactly its source bytes whenever it reads. */
  ghost predicate Delivers(events: seq<Event>, id: nat, c: Chunk, cs: int, source: map<string, Bytes>) {
    && id < |Infos(events)| && Infos(events)[id] == c
    && c.hash in source && 0 <= c.offset <= EndOf(c, cs) <= |source[c.hash]|
    && forall k :: 0 <= k < |events| && events[k].Step? && events[k].id == id ==>
         events[k].read == Some(source[c.hash][c.offset..EndOf(c, cs)])
  }

  /** The sources are those that the hashes and sizes of the transfer name. */
  ghost predicate SourcesRight(digest: Digest, n: Net, source: map<string, Bytes>) {
    forall h :: h in n.shared.blobs ==> h in source && |source[h]| == n.shared.blobs[h].size && digest(source[h]) == h
  }

  // ---- What an honest run keeps ----

  ghost predicate FineShared(s: Shared) {
    !s.failed && forall h :: h in s.writers ==> !s.writers[h].aborted
  }

  /** A call of an honest run: for a planned chunk, with its length, and never on its way to fail. */
  ghost predicate FineCall(s: Shared, c: Call) {
    && Planned(s, c.info)
    && (c.Begun? || c.Checking? || c.Reading? || c.Draining? ==> c.len == LengthOf(c.info, s.cs))
    && (c.Writing? ==> |c.payload| == LengthOf(c.info, s.cs))
    && !c.Failing? && (c.Ended? ==> c.outcome != Failed)
  }

  lemma ShapeFine(s: Shared, info: Chunk)
    requires Planned(s, info)
    ensures ValidChunkShape(info, info.hash, s.blobs[info.hash].size, s.cs, LengthOf(info, s.cs)) && 0 <= LengthOf(info, s.cs)
    ensures s.blobs[info.hash].hash == info.hash
    ensures 0 <= info.offset && EndOf(info, s.cs) - info.offset == LengthOf(info, s.cs) && EndOf(info, s.cs) <= s.blobs[info.hash].size
  {
    var blob := s.blobs[info.hash];
    InPlanOf(info, blob, s.cs);
    ReceiverAcceptsPlan(info, blob, s.cs, LengthOf(info, s.cs));
    PlanStaysInside(blob, s.cs, info);
    hide PlanOf, CountOf, ValidChunkShape;
  }

  /** A planned chunk finds its writer or, once its blob is stored, is drained. */
  lemma LookUpFine(digest: Digest, s: Shared, info: Chunk)
    requires SharedInv(digest, s) && FineShared(s) && Planned(s, info)
    ensures LookUp(s, info, LengthOf(info, s.cs)) == TakeWriter || LookUp(s, info, LengthOf(info, s.cs)) == Drain
    ensures LookUp(s, info, LengthOf(info, s.cs)) == TakeWriter ==> info.hash in s.open
  {
    ShapeFine(s, info);
    InvParts(digest, s);
    hide SharedInv, WritersGood, CountsGood, StoreGood, Planned, ValidChunkShape;
  }

  lemma WriteFine(w: Writer, hash: string, cs: int, info: Chunk, payload: Bytes)
    requires WriterShape(w, cs) && !w.aborted && ValidChunkShape(info, hash, w.size, cs, |payload|)
    ensures var (v, result) := WriteChunk(w, hash, cs, info, payload, false); result != Refused && !v.aborted
  {
  }

  /** A blob whose bytes are all there is committed. */
  lemma CommitFine(digest: Digest, s: Shared, hash: string, source: map<string, Bytes>)
    requires SharedInv(digest, s) && FineShared(s) && hash in s.writers
    requires s.writers[hash].count == |s.writers[hash].completed|
    requires hash in source && FileHonest(s.writers[hash], s.cs, source[hash]) && digest(source[hash]) == hash
    ensures var (t, ok) := CommitBlob(digest, s, hash, false); ok && FineShared(t) && t.blobs == s.blobs && t.cs == s.cs
  {
    InvParts(digest, s);
    WriterFits(s, hash);
    FullFile(s.writers[hash], s.cs, source[hash]);
    hide SharedInv, WritersGood, CountsGood, StoreGood, SettledStored, FileHonest, WriterShape;
  }

  /** What a region leaves when it goes well. */
  ghost predicate WentWell(s: Shared, c: Call, t: Shared, d: Call, read: Option<Bytes>) {
    && FineShared(t) && FineCall(t, d) && t.blobs == s.blobs && t.cs == s.cs && d.info == c.info
    && (read.Some? && |read.value| == LengthOf(d.info, t.cs) && !EndedBroken(c) ==> !EndedBroken(d))
  }

  lemma QuietFine(digest: Digest, s: Shared, c: Call, read: Option<Bytes>)
    requires SharedInv(digest, s) && Ready(s, c) && FineShared(s) && FineCall(s, c)
    requires c.Begun? || c.Checking? || c.Reading? || c.Draining? || c.Ended?
    requires HoldsWriter(c) ==> s.writers[c.info.hash].size == s.blobs[c.info.hash].size
    ensures var (t, d) := StepCall(digest, s, c, read, false); WentWell(s, c, t, d, read)
  {
    ShapeFine(s, c.info);
    if c.Begun? {
      LookUpFine(digest, s, c.info);
    }
    hide SharedInv, Planned, ValidChunkShape, LookUp, WriterShape;
  }

  lemma WritingFine(digest: Digest, s: Shared, c: Call, read: Option<Bytes>)
    requires Ready(s, c) && FineShared(s) && FineCall(s, c) && c.Writing?
    requires s.writers[c.info.hash].size == s.blobs[c.info.hash].size
    ensures var (t, d) := StepCall(digest, s, c, read, false); WentWell(s, c, t, d, read)
  {
    ShapeFine(s, c.info);
    WriteFine(s.writers[c.info.hash], c.info.hash, s.cs, c.info, c.payload);
    hide Planned, ValidChunkShape, WriteChunk, WriterShape;
    assert Planned(s, c.info);
    PlannedFor(s, StepCall(digest, s, c, read, false).0, c.info);
  }

  lemma PlannedFor(s: Shared, t: Shared, info: Chunk)
    requires t.blobs == s.blobs && t.cs == s.cs && Planned(s, info)
    ensures Planned(t, info)
  {
    hide PlanOf, CountOf;
  }

  lemma CommittingFine(digest: Digest, s: Shared, c: Call, read: Option<Bytes>, source: map<string, Bytes>)
    requires SharedInv(digest, s) && Ready(s, c) && FineShared(s) && FineCall(s, c) && c.Committing?
    requires s.writers[c.info.hash].count == |s.writers[c.info.hash].completed|
    requires c.info.hash in source && FileHonest(s.writers[c.info.hash], s.cs, source[c.info.hash]) && digest(source[c.info.hash]) == c.info.hash
    ensures var (t, d) := StepCall(digest, s, c, read, false); WentWell(s, c, t, d, read)
  {
    CommitFine(digest, s, c.info.hash, source);
    hide SharedInv, Planned, CommitBlob, FileHonest, WriterShape, FineShared;
    PlannedFor(s, StepCall(digest, s, c, read, false).0, c.info);
  }

  lemma FinishingFine(digest: Digest, s: Shared, c: Call, read: Option<Bytes>)
    requires Ready(s, c) && FineShared(s) && FineCall(s, c) && c.Finishing?
    ensures var (t, d) := StepCall(digest, s, c, read, false); WentWell(s, c, t, d, read)
  {
    hide Planned, WriterShape;
    PlannedFor(s, StepCall(digest, s, c, read, false).0, c.info);
  }

  lemma CallFacts(digest: Digest, n: Net, id: nat)
    requires NetInv(digest, n) && id < |n.calls|
    ensures Ready(n.shared, n.calls[id]) && SharedInv(digest, n.shared)
    ensures var c := n.calls[id];
            && (HoldsWriter(c) ==> c.info.hash in n.shared.writers && c.info.hash in n.shared.blobs && n.shared.writers[c.info.hash].size == n.shared.blobs[c.info.hash].size)
            && (c.Committing? ==> n.shared.writers[c.info.hash].count == |n.shared.writers[c.info.hash].completed|)
  {
    var s, c := n.shared, n.calls[id];
    assert c in n.calls && CallInv(s, c);
    CallReady(digest, n, id);
    InvParts(digest, s);
    if HoldsWriter(c) {
      WriterFits(s, c.info.hash);
    }
    hide WritersGood, WriterGood, CountsGood, StoreGood, SettledStored, DueOnce, AcceptedGood, ValidChunkShape, SharedInv;
  }

  /** A region of a fine call, without a fault, leads to a fine call. */
  lemma StepFine(digest: Digest, n: Net, id: nat, read: Option<Bytes>, source: map<string, Bytes>)
    requires NetInv(digest, n) && Honest(n, source) && id < |n.calls|
    requires FineShared(n.shared) && FineCall(n.shared, n.calls[id])
    requires n.calls[id].info.hash in source && digest(source[n.calls[id].info.hash]) == n.calls[id].info.hash
    ensures Ready(n.shared, n.calls[id])
    ensures var (t, d) := StepCall(digest, n.shared, n.calls[id], read, false); WentWell(n.shared, n.calls[id], t, d, read)
  {
    var s, c := n.shared, n.calls[id];
    CallFacts(digest, n, id);
    if c.Committing? {
      HonestWriter(n, c.info.hash, source);
    }
    assert !c.Failing?;
    hide NetInv, Honest, SharedInv, FineShared, FileHonest, StepCall, WentWell, Ready;
    match c
    case Writing(_, _) => WritingFine(digest, s, c, read);
    case Committing(_) => CommittingFine(digest, s, c, read, source);
    case Finishing(_) => FinishingFine(digest, s, c, read);
    case _ => QuietFine(digest, s, c, read);
  }

  predicate EndedBroken(c: Call) {
    c.Ended? && c.outcome == Broken
  }

  lemma HonestWriter(n: Net, h: string, source: map<string, Bytes>)
    requires Honest(n, source) && h in n.shared.writers
    ensures h in source && FileHonest(n.shared.writers[h], n.shared.cs, source[h])
  {
  }

  // ---- Runs ----

  /** The state of an honest run after some of its events. */
  ghost predicate FineNet(digest: Digest, n: Net, events: seq<Event>, r: Net, source: map<string, Bytes>) {
    && NetInv(digest, r) && Honest(r, source) && FineShared(r.shared)
    && r.shared.blobs == n.shared.blobs && r.shared.cs == n.shared.cs
    && |r.calls| == |Infos(events)|
    && forall id :: 0 <= id < |r.calls| ==> FineCall(r.shared, r.calls[id]) && r.calls[id].info == Infos(events)[id]
  }

  /** Calls that are not broken off, because whatever they read was complete. */
  ghost predicate NotBroken(r: Net, id: nat) {
    id < |r.calls| ==> !EndedBroken(r.calls[id])
  }

  lemma PlannedSame(s: Shared, t: Shared, c: Call)
    requires t.blobs == s.blobs && t.cs == s.cs && FineCall(s, c)
    ensures FineCall(t, c)
  {
    hide PlanOf, CountOf;
  }

  lemma FineBegin(digest: Digest, n: Net, events: seq<Event>, r: Net, source: map<string, Bytes>, info: Chunk, len: int)
    requires FineNet(digest, n, events, r, source) && HonestEvent(n, Infos(events), Begin(info, len), source)
    ensures FineNet(digest, n, events + [Begin(info, len)], Next(digest, r, Begin(info, len)), source)
  {
    var e := Begin(info, len);
    assert (events + [e])[..|events|] == events;
    NextKeeps(digest, r, e);
    NextHonest(digest, r, e, source);
    var t := Next(digest, r, e);
    assert Planned(r.shared, info) by {
      hide PlanOf, CountOf;
    }
    ShapeFine(r.shared, info);
    hide NetInv, Honest, Planned;
  }

  lemma FineStep(digest: Digest, n: Net, events: seq<Event>, r: Net, source: map<string, Bytes>, id: nat, read: Option<Bytes>)
    requires FineNet(digest, n, events, r, source) && SourcesRight(digest, n, source)
    requires HonestEvent(n, Infos(events), Step(id, read, false), source)
    ensures FineNet(digest, n, events + [Step(id, read, false)], Next(digest, r, Step(id, read, false)), source)
    ensures forall j: nat :: NotBroken(r, j) && (j == id && id < |r.calls| ==> read.Some? && |read.value| == LengthOf(Infos(events)[id], n.shared.cs)) ==>
              NotBroken(Next(digest, r, Step(id, read, false)), j)
  {
    var e := Step(id, read, false);
    assert (events + [e])[..|events|] == events;
    NextKeeps(digest, r, e);
    if id < |r.calls| {
      assert FineCall(r.shared, r.calls[id]) && r.calls[id].info == Infos(events)[id];
      NextHonest(digest, r, e, source);
      assert r.calls[id].info.hash in r.shared.blobs by {
        hide PlanOf, CountOf;
      }
      StepFine(digest, r, id, read, source);
      hide NetInv, Honest, StepCall, FineShared, Ready;
      var t := Next(digest, r, e);
      forall j | 0 <= j < |t.calls|
        ensures FineCall(t.shared, t.calls[j]) && t.calls[j].info == Infos(events)[j]
      {
        if j != id {
          PlannedSame(r.shared, t.shared, r.calls[j]);
        }
      }
      hide FineCall;
    }
    hide NetInv, Honest;
  }

  lemma {:induction false} HonestRunFine(digest: Digest, n: Net, events: seq<Event>, source: map<string, Bytes>)
    requires Initial(digest, n) && SourcesRight(digest, n, source) && HonestRun(n, events, source)
    ensures FineNet(digest, n, events, RunFrom(digest, n, events), source)
    ensures forall id: nat, c :: Delivers(events, id, c, n.shared.cs, source) && Planned(n.shared, c) ==> NotBroken(RunFrom(digest, n, events), id)
  {
    hide Initial, NetInv, Next, FineNet, HonestEvent, Planned, NotBroken, Delivers;
    if events == [] {
      FineStart(digest, n, source);
    } else {
      var front, last := events[..|events| - 1], events[|events| - 1];
      FrontHonest(n, events, source);
      HonestRunFine(digest, n, front, source);
      var r := RunFrom(digest, n, front);
      assert front + [last] == events;
      assert HonestEvent(n, Infos(front), last, source);
      RunLast(digest, n, events);
      FineNext(digest, n, front, r, last, source);
      forall id: nat, c | Delivers(events, id, c, n.shared.cs, source) && Planned(n.shared, c)
        ensures NotBroken(RunFrom(digest, n, events), id)
      {
        StillUnbroken(digest, n, front, r, last, source, id, c);
      }
    }
  }

  lemma RunLast(digest: Digest, n: Net, events: seq<Event>)
    requires Initial(digest, n) && events != []
    ensures NetInv(digest, RunFrom(digest, n, events[..|events| - 1]))
    ensures RunFrom(digest, n, events) == Next(digest, RunFrom(digest, n, events[..|events| - 1]), events[|events| - 1])
  {
    hide Initial, NetInv, Next;
  }

  lemma FrontHonest(n: Net, events: seq<Event>, source: map<string, Bytes>)
    requires HonestRun(n, events, source) && events != []
    ensures HonestRun(n, events[..|events| - 1], source)
    ensures HonestEvent(n, Infos(events[..|events| - 1]), events[|events| - 1], source)
  {
    hide HonestEvent, Infos;
    var front := events[..|events| - 1];
    forall k | 0 <= k < |front|
      ensures HonestEvent(n, Infos(front[..k]), front[k], source)
    {
      assert front[..k] == events[..k];
      assert HonestEvent(n, Infos(events[..k]), events[k], source);
    }
  }

  lemma FineStart(digest: Digest, n: Net, source: map<string, Bytes>)
    requires Initial(digest, n) && SourcesRight(digest, n, source)
    ensures FineNet(digest, n, [], RunFrom(digest, n, []), source)
    ensures forall id: nat :: NotBroken(RunFrom(digest, n, []), id)
  {
    InitialInv(digest, n);
    InvParts(digest, n.shared);
    hide SharedInv, CountsGood, StoreGood, SettledStored;
    forall h | h in n.shared.writers
      ensures h in source && |source[h]| == n.shared.writers[h].size && !n.shared.writers[h].aborted
    {
      WriterFits(n.shared, h);
    }
    InitialHonest(digest, n, source);
    hide NetInv, Honest, WritersGood;
  }

  lemma FineNext(digest: Digest, n: Net, front: seq<Event>, r: Net, e: Event, source: map<string, Bytes>)
    requires FineNet(digest, n, front, r, source) && SourcesRight(digest, n, source)
    requires HonestEvent(n, Infos(front), e, source)
    ensures NetInv(digest, r) && FineNet(digest, n, front + [e], Next(digest, r, e), source)
  {
    match e
    case Begin(info, len) =>
      FineBegin(digest, n, front, r, source, info, len);
      hide FineNet, HonestEvent;
    case Step(id, read, fault) =>
      FineStep(digest, n, front, r, source, id, read);
      hide FineNet, HonestEvent;
  }

  lemma InfosMore(events: seq<Event>, e: Event)
    ensures Infos(events + [e]) == if e.Begin? then Infos(events) + [e.info] else Infos(events)
  {
    assert (events + [e])[..|events|] == events;
  }

  lemma DeliversBefore(front: seq<Event>, e: Event, id: nat, c: Chunk, cs: int, source: map<string, Bytes>)
    requires Delivers(front + [e], id, c, cs, source)
    ensures id < |Infos(front)| ==> Delivers(front, id, c, cs, source)
    ensures e.Step? && e.id == id ==> e.read == Some(source[c.hash][c.offset..EndOf(c, cs)])
    ensures e.Step? ==> id < |Infos(front)|
    ensures id < |Infos(front)| ==> Infos(front)[id] == c
  {
    InfosMore(front, e);
    var events := front + [e];
    assert events[|front|] == e;
    forall k | 0 <= k < |front|
      ensures events[k] == front[k]
    {
    }
    hide Infos;
  }

  lemma StillUnbroken(digest: Digest, n: Net, front: seq<Event>, r: Net, e: Event, source: map<string, Bytes>, id: nat, c: Chunk)
    requires FineNet(digest, n, front, r, source) && SourcesRight(digest, n, source)
    requires HonestEvent(n, Infos(front), e, source) && Planned(n.shared, c)
    requires Delivers(front + [e], id, c, n.shared.cs, source)
    requires Delivers(front, id, c, n.shared.cs, source) ==> NotBroken(r, id)
    ensures NetInv(digest, r) && NotBroken(Next(digest, r, e), id)
  {
    DeliversBefore(front, e, id, c, n.shared.cs, source);
    ShapeFine(n.shared, c);
    match e
    case Begin(info, len) =>
      assert |r.calls| == |Infos(front)|;
      hide FineNet, HonestEvent, Planned, Delivers, NetInv, Honest;
    case Step(i, read, fault) =>
      FineStep(digest, n, front, r, source, i, read);
      hide FineNet, HonestEvent, Planned, Delivers, NetInv, Honest, Next, Infos;
  }

  // ---- The theorem ----

  /** The blobs of the transfer are within the chunk limit, so that they have a plan. */
  ghost predicate WithinLimit(s: Shared) {
    forall h :: h in s.blobs && 0 <= s.blobs[h].size && 0 < s.cs ==> CountOf(s.blobs[h].size, s.cs) <= 0x10_0000
  }

  lemma BlobsPlanned(digest: Digest, n: Net, h: string, c: Chunk)
    requires NetInv(digest, n) && WithinLimit(n.shared) && h in n.shared.blobs && 0 < n.shared.cs && 0 <= n.shared.blobs[h].size
    requires c in PlanOf(n.shared.blobs[h], n.shared.cs)
    ensures Planned(n.shared, c) && c.hash == h
  {
    InvParts(digest, n.shared);
    InPlanOf(c, n.shared.blobs[h], n.shared.cs);
    hide CountOf, PlanOf, SettledStored, CountsGood, StoreGood, DueOnce, CallInv;
  }

  lemma BlobFacts(digest: Digest, n: Net)
    requires NetInv(digest, n)
    ensures 0 < n.shared.cs && forall h :: h in n.shared.blobs ==> 0 <= n.shared.blobs[h].size
  {
  }

  /**
   Every planned chunk was accepted: its call has ended, and it neither failed nor was it broken off.
   */
  lemma DeliveredAccepted(digest: Digest, n: Net, events: seq<Event>, r: Net, source: map<string, Bytes>, id: nat, c: Chunk)
    requires FineNet(digest, n, events, r, source) && NotBroken(r, id)
    requires Delivers(events, id, c, n.shared.cs, source)
    requires forall k :: k in r.calls ==> k.Ended?
    ensures Ended(c, Accepted) in r.calls
  {
    var call := r.calls[id];
    assert call in r.calls;
    assert FineCall(r.shared, call) && call.info == c;
    assert call == Ended(c, Accepted);
    hide NetInv, Honest, Planned, Infos;
  }

  /**
   Completeness. From a new receiver: if nothing fails it from outside, no step meets a fault, only planned
   chunks come in, only source bytes are read, and every planned chunk has a call that reads all of
   them, then once all calls have ended the receiver is done without an error, every blob is stored
   under its digest, and the fetched ones hold exactly the source bytes.
   */
  lemma HonestTransferSucceeds(digest: Digest, n: Net, events: seq<Event>, source: map<string, Bytes>)
    requires Initial(digest, n) && SourcesRight(digest, n, source) && WithinLimit(n.shared)
    requires HonestRun(n, events, source)
    requires forall h, c :: h in n.shared.blobs && 0 < n.shared.cs && 0 <= n.shared.blobs[h].size && c in PlanOf(n.shared.blobs[h], n.shared.cs) ==>
               exists id: nat :: Delivers(events, id, c, n.shared.cs, source)
    requires forall c :: c in RunFrom(digest, n, events).calls ==> c.Ended?
    ensures var s := RunFrom(digest, n, events).shared;
            && WaitOk(s)
            && (forall h :: h in n.shared.blobs ==> h in s.store && |s.store[h]| == n.shared.blobs[h].size && digest(s.store[h]) == h)
            && (forall h :: h in n.shared.writers ==> h in s.store && h in source && s.store[h] == source[h])
  {
    var r := RunFrom(digest, n, events);
    HonestRunFine(digest, n, events, source);
    InitialInv(digest, n);
    BlobFacts(digest, n);
    assert r.shared.blobs == n.shared.blobs && r.shared.cs == n.shared.cs && !r.shared.failed;
    hide Initial, NetInv, FineNet, HonestRun, Delivers, PlanOf, WithinLimit, WaitOk, SourcesRight, NotBroken, RunFrom;
    forall h, c | h in r.shared.blobs && c in PlanOf(r.shared.blobs[h], r.shared.cs)
      ensures Ended(c, Accepted) in r.calls
    {
      var id: nat :| Delivers(events, id, c, n.shared.cs, source);
      BlobsPlanned(digest, n, h, c);
      DeliveredAccepted(digest, n, events, r, source, id, c);
    }
    AllAcceptedDone(digest, r);
    ReceiverSafe(digest, n, events);
    FetchedRight(digest, n, events, source);
  }

  /** A receiver that is done has stored source bytes in place of every writer. */
  lemma FetchedRight(digest: Digest, n: Net, events: seq<Event>, source: map<string, Bytes>)
    requires Initial(digest, n) && FineNet(digest, n, events, RunFrom(digest, n, events), source)
    requires WaitOk(RunFrom(digest, n, events).shared)
    ensures var s := RunFrom(digest, n, events).shared;
            forall h :: h in n.shared.writers ==> h in s.store && h in source && s.store[h] == source[h]
  {
    var r := RunFrom(digest, n, events);
    InitialInv(digest, n);
    WritersStay(digest, n, events);
    StoredAfterWait(digest, r.shared);
    hide Initial, NetInv, SharedInv, FileHonest, PayloadHonest, FineShared, FineCall, RunFrom;
  }

  lemma {:induction false} WritersStay(digest: Digest, n: Net, events: seq<Event>)
    requires Initial(digest, n)
    ensures RunFrom(digest, n, events).shared.writers.Keys == n.shared.writers.Keys
  {
    hide Initial, NetInv, Next;
    if events != [] {
      WritersStay(digest, n, events[..|events| - 1]);
      RunLast(digest, n, events);
      NextWriters(digest, RunFrom(digest, n, events[..|events| - 1]), events[|events| - 1]);
    }
  }

  lemma NextWriters(digest: Digest, n: Net, e: Event)
    requires NetInv(digest, n)
    ensures Next(digest, n, e).shared.writers.Keys == n.shared.writers.Keys
  {
    if e.Step? && e.id < |n.calls| {
      CallReady(digest, n, e.id);
      CallWriters(digest, n.shared, n.calls[e.id], e.read, e.fault);
    }
    hide NetInv, StepCall;
  }

  lemma CallWriters(digest: Digest, s: Shared, c: Call, read: Option<Bytes>, fault: bool)
    requires Ready(s, c)
    ensures StepCall(digest, s, c, read, fault).0.writers.Keys == s.writers.Keys
  {
    hide WriteChunk, LookUp, ValidChunkShape, WriterShape;
    match c
    case Committing(info) => CommitWriters(digest, s, info.hash, fault);
    case Failing(_) => assert Fail(s).writers.Keys == s.writers.Keys;
    case _ =>
  }

  lemma CommitWriters(digest: Digest, s: Shared, hash: string, fault: bool)
    requires hash in s.writers
    ensures CommitBlob(digest, s, hash, fault).0.writers.Keys == s.writers.Keys
  {
  }

  // ---- Calls end ----

  /** How many more regions a call can have. */
  function Left(c: Call): nat {
    match c
    case Begun(_, _) => 6
    case Checking(_, _) => 5
    case Reading(_, _) => 4
    case Writing(_, _) => 3
    case Committing(_) => 2
    case Finishing(_) => 1
    case Draining(_, _) => 1
    case Failing(_) => 1
    case Ended(_, _) => 0
  }

  lemma CallSteps(digest: Digest, s: Shared, c: Call, read: Option<Bytes>, fault: bool)
    requires Ready(s, c) && !c.Ended?
    ensures Left(StepCall(digest, s, c, read, fault).1) < Left(c)
  {
    hide WriteChunk, CommitBlob, LookUp, ValidChunkShape, WriterShape, Fail, Finish;
  }

  /** Every region brings its call closer to its end and leaves the other calls alone. */
  lemma StepsEnd(digest: Digest, n: Net, e: Event, id: nat)
    requires NetInv(digest, n) && id < |n.calls|
    ensures id < |Next(digest, n, e).calls|
    ensures Left(Next(digest, n, e).calls[id]) <= Left(n.calls[id])
    ensures e.Step? && e.id == id && Left(n.calls[id]) > 0 ==> Left(Next(digest, n, e).calls[id]) < Left(n.calls[id])
  {
    if e.Step? && e.id < |n.calls| {
      CallReady(digest, n, e.id);
      if !n.calls[e.id].Ended? {
        CallSteps(digest, n.shared, n.calls[e.id], e.read, e.fault);
      }
    }
    hide NetInv, Fail;
  }

  /** The steps that a call gets once it has begun. */
  function StepsOf(events: seq<Event>, id: nat): nat {
    if events == [] then 0
    else
      var front, last := events[..|events| - 1], events[|events| - 1];
      StepsOf(front, id) + if last.Step? && last.id == id && id < |Infos(front)| then 1 else 0
  }

  lemma {:induction false} StepsCounted(digest: Digest, n: Net, events: seq<Event>, id: nat)
    requires Initial(digest, n)
    ensures |RunFrom(digest, n, events).calls| == |Infos(events)|
    ensures id >= |Infos(events)| ==> StepsOf(events, id) == 0
    ensures id < |Infos(events)| ==>
              var left := Left(RunFrom(digest, n, events).calls[id]); left == 0 || left + StepsOf(events, id) <= 6
  {
    if events == [] {
      assert n.calls == [];
    } else {
      var front, e := events[..|events| - 1], events[|events| - 1];
      StepsCounted(digest, n, front, id);
      RunLast(digest, n, events);
      var r := RunFrom(digest, n, front);
      NextGrown(digest, r, e);
      if id < |Infos(front)| {
        StepsEnd(digest, r, e, id);
      }
    }
    hide Initial, NetInv, Next;
  }

  lemma NextGrown(digest: Digest, n: Net, e: Event)
    requires NetInv(digest, n)
    ensures |Next(digest, n, e).calls| == |n.calls| + if e.Begin? then 1 else 0
    ensures e.Begin? ==> Next(digest, n, e).calls == n.calls + [Begun(e.info, e.len)]
  {
    hide NetInv, StepCall, Fail;
  }

  /** A call that gets six steps has ended. */
  lemma SixStepsEnd(digest: Digest, n: Net, events: seq<Event>)
    requires Initial(digest, n) && forall id :: 0 <= id < |Infos(events)| ==> StepsOf(events, id) >= 6
    ensures forall c :: c in RunFrom(digest, n, events).calls ==> c.Ended?
  {
    hide Initial, NetInv, RunFrom, StepsOf, Infos;
    var r := RunFrom(digest, n, events);
    StepsCounted(digest, n, events, 0);
    forall id | 0 <= id < |r.calls|
      ensures r.calls[id].Ended?
    {
      StepsCounted(digest, n, events, id);
    }
  }

  /** Completeness in terms of the events alone: every call gets six steps. */
  lemma HonestEventsSucceed(digest: Digest, n: Net, events: seq<Event>, source: map<string, Bytes>)
    requires Initial(digest, n) && SourcesRight(digest, n, source) && WithinLimit(n.shared)
    requires HonestRun(n, events, source)
    requires forall h, c :: h in n.shared.blobs && 0 < n.shared.cs && 0 <= n.shared.blobs[h].size && c in PlanOf(n.shared.blobs[h], n.shared.cs) ==>
               exists id: nat :: Delivers(events, id, c, n.shared.cs, source)
    requires forall id :: 0 <= id < |Infos(events)| ==> StepsOf(events, id) >= 6
    ensures var s := RunFrom(digest, n, events).shared;
            && WaitOk(s)
            && (forall h :: h in n.shared.blobs ==> h in s.store && |s.store[h]| == n.shared.blobs[h].size && digest(s.store[h]) == h)
            && (forall h :: h in n.shared.writers ==> h in s.store && h in source && s.store[h] == source[h])
  {
    hide Initial, SourcesRight, WithinLimit, HonestRun, Delivers, WaitOk, Has, PlanOf, RunFrom;
    SixStepsEnd(digest, n, events);
    HonestTransferSucceeds(digest, n, events, source);
  }
}
