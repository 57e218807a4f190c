/** The host's side of a download: which chunks it serves, and when the session counts as done. */
module BlobSendSession {
  import opened FileTree
  import opened Entries
  import opened Options
  import opened BlobChunks
  import opened BlobSources
  import opened Text
  import opened PathOrder
  import opened DownloadPipeline
  import BlobHonest

  const DOWNLOAD := "download"

  /** What a session hands out and a request must present: context, session and token. */
  datatype Credentials = Credentials(contextID: string, session: string, token: string)

  datatype Request = Request(from: Credentials, direction: string, chunk: Option<Chunk>)

  /** A file that the session may send. */
  datatype Item = Item(hash: string, path: string, size: int)

  datatype Problem =
    | Mismatch | WrongDirection | ChunkRequired | UnknownBlob | BadChunk | Canceled | BadFrame
    | Transport(disconnect: bool)

  datatype Session = Session(sent: set<Key>, err: Option<Problem>, done: bool)

  // ---- The mutex regions of a session ----

  function NewSession(total: nat): Session {
    Session({}, None, total == 0)
  }

  function CompleteChunk(s: Session, total: nat, c: Chunk): Session {
    var sent := s.sent + {KeyOf(c)};
    s.(sent := sent, done := s.done || |sent| >= total)
  }

  function Fail(s: Session, p: Problem): Session {
    s.(err := if s.err.None? then Some(p) else s.err, done := true)
  }

  /** One region entered by any of the connections of a session. */
  datatype Region = Delivered(chunk: Chunk) | Broken(problem: Problem)

  function After(s: Session, total: nat, regions: seq<Region>): Session {
    if regions == [] then s
    else
      var before := After(s, total, regions[..|regions| - 1]);
      match regions[|regions| - 1]
      case Delivered(c) => CompleteChunk(before, total, c)
      case Broken(p) => Fail(before, p)
  }

  ghost predicate OnlyPlanned(regions: seq<Region>, plan: seq<Chunk>) {
    forall c :: Delivered(c) in regions ==> c in plan
  }

  ghost predicate AnyBroken(regions: seq<Region>) {
    exists p :: Broken(p) in regions
  }

  /** The regions counted one by one: the sent set is the set of delivered keys. */
  lemma {:induction false} SentKeys(total: nat, regions: seq<Region>)
    ensures forall k :: k in After(NewSession(total), total, regions).sent <==>
              exists c :: Delivered(c) in regions && KeyOf(c) == k
    ensures After(NewSession(total), total, regions).err.Some? <==> AnyBroken(regions)
    ensures var s := After(NewSession(total), total, regions);
            s.done <==> s.err.Some? || |s.sent| >= total
  {
    if regions != [] {
      var front, last := regions[..|regions| - 1], regions[|regions| - 1];
      assert regions == front + [last];
      SentKeys(total, front);
      var s := After(NewSession(total), total, front);
      match last
      case Delivered(c) =>
        assert Delivered(c) in regions;
        SubsetCount(s.sent, s.sent + {KeyOf(c)});
        assert AnyBroken(regions) ==> AnyBroken(front);
      case Broken(p) =>
        assert Broken(p) in regions;
    }
  }

  lemma {:induction false} SubsetCount<T>(a: set<T>, b: set<T>)
    requires a <= b
    ensures |a| <= |b| && (|a| == |b| ==> a == b)
    decreases b
  {
    if a != {} {
      var x :| x in a;
      SubsetCount(a - {x}, b - {x});
      assert a == a - {x} + {x} && b == b - {x} + {x};
    } else if b != {} {
      var x :| x in b;
      assert |b| == |b - {x}| + 1;
    }
  }

  lemma {:induction false} KeyCount(chunks: seq<Chunk>)
    requires DistinctKeys(chunks)
    ensures |KeysOf(chunks)| == |chunks|
  {
    if chunks != [] {
      var front, last := chunks[..|chunks| - 1], chunks[|chunks| - 1];
      assert chunks == front + [last];
      KeyCount(front);
      assert KeysOf(chunks) == KeysOf(front) + {KeyOf(last)};
      assert KeyOf(last) !in KeysOf(front);
    }
  }

  lemma SameKeySameChunk(plan: seq<Chunk>, c: Chunk, d: Chunk)
    requires DistinctKeys(plan) && c in plan && d in plan && KeyOf(c) == KeyOf(d)
    ensures c == d
  {
  }

  /**
   For any order of chunk deliveries and failures over any number of connections: the session is
   done without an error exactly when nothing failed and every planned chunk was delivered at least
   once, and delivering a chunk again never counts twice.
   */
  lemma SessionDone(plan: seq<Chunk>, regions: seq<Region>)
    requires DistinctKeys(plan) && OnlyPlanned(regions, plan)
    ensures var s := After(NewSession(|plan|), |plan|, regions);
            && |s.sent| <= |plan|
            && (s.err.Some? <==> AnyBroken(regions))
            && (s.done <==> s.err.Some? || forall c :: c in plan ==> Delivered(c) in regions)
  {
    var s := After(NewSession(|plan|), |plan|, regions);
    SentKeys(|plan|, regions);
    KeyCount(plan);
    assert s.sent <= KeysOf(plan);
    SubsetCount(s.sent, KeysOf(plan));
    if s.sent == KeysOf(plan) {
      forall c | c in plan
        ensures Delivered(c) in regions
      {
        assert KeyOf(c) in s.sent;
        var d :| Delivered(d) in regions && KeyOf(d) == KeyOf(c);
        SameKeySameChunk(plan, c, d);
      }
    } else {
      var k :| k in KeysOf(plan) && k !in s.sent;
      var c :| c in plan && KeyOf(c) == k;
      assert Delivered(c) !in regions;
    }
  }

  /** The error that a session ends with is the first one that it met. */
  lemma {:induction false} FirstErrorStays(total: nat, front: seq<Region>, p: Problem, rest: seq<Region>)
    requires !AnyBroken(front)
    ensures After(NewSession(total), total, front + [Broken(p)] + rest).err == Some(p)
  {
    var regions := front + [Broken(p)] + rest;
    if rest == [] {
      assert regions[..|regions| - 1] == front;
      SentKeys(total, front);
    } else {
      var less := rest[..|rest| - 1];
      assert regions[..|regions| - 1] == front + [Broken(p)] + less;
      FirstErrorStays(total, front, p, less);
    }
  }

  // ---- What a session may send ----

  function SourcePath(workspace: Path, blobSources: map<string, string>, e: Entry): string {
    if e.hash in blobSources && blobSources[e.hash] != "" then blobSources[e.hash]
    else PathName(workspace + e.path)
  }

  /** The answer to one wanted hash. */
  ghost predicate AnswersOne(workspace: Path, blobSources: map<string, string>, changed: seq<Entry>, hash: string, items: map<string, Item>, blob: Descriptor) {
    && hash in items && blob == Descriptor(hash, items[hash].size)
    && exists i :: IsSource(changed, hash, i) &&
         items[hash] == Item(hash, SourcePath(workspace, blobSources, changed[i]), changed[i].size)
  }

  /** The path of a file: its segments, each after a slash. */
  ghost predicate NamesFile(name: string, p: Path) {
    name == if p == [] then "" else "/" + Join(p, "/")
  }

  lemma {:induction false} PathNameMeaning(p: Path)
    ensures NamesFile(PathName(p), p)
    decreases |p|
  {
    if |p| > 1 {
      PathNameMeaning(Parent(p));
      assert p == Parent(p) + [p[|p| - 1]];
      JoinLast(Parent(p), p[|p| - 1], "/");
    } else if |p| == 1 {
      assert PathName(Parent(p)) == "";
    }
  }

  /** The items and descriptors that answer the client's list of wanted hashes. */
  ghost predicate Answers(workspace: Path, blobSources: map<string, string>, changed: seq<Entry>, hashes: seq<string>, items: map<string, Item>, blobs: seq<Descriptor>) {
    && |blobs| == |hashes|
    && (forall h :: h in items <==> h in hashes)
    && forall k :: 0 <= k < |hashes| ==> AnswersOne(workspace, blobSources, changed, hashes[k], items, blobs[k])
  }

  function PathName(p: Path): string {
    if p == [] then "" else PathName(Parent(p)) + "/" + p[|p| - 1]
  }

  /** prepareDownloadBlobItems: refuses a hash that no changed file has. */
  method PrepareDownloadBlobItems(workspace: Path, blobSources: map<string, string>, changed: seq<Entry>, hashes: seq<string>)
    returns (ok: bool, items: map<string, Item>, blobs: seq<Descriptor>)
    ensures ok <==> forall h :: h in hashes ==> exists i :: IsSource(changed, h, i)
    ensures ok ==> Answers(workspace, blobSources, changed, hashes, items, blobs)
    ensures ok ==> forall h :: h in hashes ==> h in items && ServedFrom(workspace, blobSources, changed, h, items[h].path)
  {
    var byHash := FirstByHash(changed);
    items, blobs := map[], [];
    for n := 0 to |hashes|
      invariant forall h :: h in hashes[..n] ==> exists i :: IsSource(changed, h, i)
      invariant Answers(workspace, blobSources, changed, hashes[..n], items, blobs)
    {
      var hash := hashes[n];
      assert hash in hashes;
      assert hashes[..n + 1] == hashes[..n] + [hash];
      if hash !in byHash {
        return false, items, blobs;
      }
      ghost var i :| IsSource(changed, hash, i);
      var item := Item(hash, SourcePath(workspace, blobSources, byHash[hash]), byHash[hash].size);
      AnswersMore(workspace, blobSources, changed, hashes, n, items, blobs, item, i);
      items := items[hash := item];
      blobs := blobs + [Descriptor(hash, byHash[hash].size)];
    }
    assert hashes[..|hashes|] == hashes;
    AnswersPaths(workspace, blobSources, changed, hashes, items, blobs);
    ok := true;
  }

  /** Where the bytes of a hash come from: a stored copy if one is listed, otherwise the first file of the workspace with that content. */
  ghost predicate ServedFrom(workspace: Path, blobSources: map<string, string>, changed: seq<Entry>, hash: string, path: string) {
    if hash in blobSources && blobSources[hash] != "" then path == blobSources[hash]
    else exists i :: IsSource(changed, hash, i) && NamesFile(path, workspace + changed[i].path)
  }

  lemma AnswersPaths(workspace: Path, blobSources: map<string, string>, changed: seq<Entry>, hashes: seq<string>, items: map<string, Item>, blobs: seq<Descriptor>)
    requires Answers(workspace, blobSources, changed, hashes, items, blobs)
    ensures forall h :: h in hashes ==> h in items && ServedFrom(workspace, blobSources, changed, h, items[h].path)
  {
    forall h | h in hashes
      ensures h in items && ServedFrom(workspace, blobSources, changed, h, items[h].path)
    {
      var k :| 0 <= k < |hashes| && hashes[k] == h;
      assert AnswersOne(workspace, blobSources, changed, h, items, blobs[k]);
      var i :| IsSource(changed, h, i) && items[h] == Item(h, SourcePath(workspace, blobSources, changed[i]), changed[i].size);
      PathNameMeaning(workspace + changed[i].path);
    }
  }

  lemma AnswersMore(workspace: Path, blobSources: map<string, string>, changed: seq<Entry>, hashes: seq<string>, n: nat, items: map<string, Item>, blobs: seq<Descriptor>, item: Item, i: int)
    requires n < |hashes| && Answers(workspace, blobSources, changed, hashes[..n], items, blobs)
    requires IsSource(changed, hashes[n], i)
    requires item == Item(hashes[n], SourcePath(workspace, blobSources, changed[i]), changed[i].size)
    ensures Answers(workspace, blobSources, changed, hashes[..n + 1], items[hashes[n] := item], blobs + [Descriptor(hashes[n], item.size)])
  {
    var more := hashes[..n + 1];
    var items2, blobs2 := items[hashes[n] := item], blobs + [Descriptor(hashes[n], item.size)];
    assert more == hashes[..n] + [hashes[n]];
    forall k | 0 <= k < |more|
      ensures AnswersOne(workspace, blobSources, changed, more[k], items2, blobs2[k])
    {
      if k < n {
        assert more[k] == hashes[..n][k];
        AnswerKept(workspace, blobSources, changed, more[k], items, blobs[k], item, i);
      }
    }
    hide AnswersOne;
  }

  lemma AnswerKept(workspace: Path, blobSources: map<string, string>, changed: seq<Entry>, hash: string, items: map<string, Item>, blob: Descriptor, item: Item, i: int)
    requires AnswersOne(workspace, blobSources, changed, hash, items, blob)
    requires IsSource(changed, item.hash, i)
    requires item == Item(item.hash, SourcePath(workspace, blobSources, changed[i]), changed[i].size)
    ensures AnswersOne(workspace, blobSources, changed, hash, items[item.hash := item], blob)
  {
    if hash == item.hash {
      var j :| IsSource(changed, hash, j) &&
        items[hash] == Item(hash, SourcePath(workspace, blobSources, changed[j]), changed[j].size);
      OneSource(changed, hash, i, j);
    }
    hide IsSource, SourcePath;
  }

  /** The items offer exactly the planned blobs, with their sizes. */
  ghost predicate Offers(items: map<string, Item>, blobs: seq<Descriptor>) {
    && (forall b :: b in blobs ==> b.hash in items && items[b.hash].hash == b.hash && items[b.hash].size == b.size)
    && (forall h :: h in items ==> Descriptor(h, items[h].size) in blobs)
  }

  lemma AnswersOffers(workspace: Path, blobSources: map<string, string>, changed: seq<Entry>, hashes: seq<string>, items: map<string, Item>, blobs: seq<Descriptor>)
    requires Answers(workspace, blobSources, changed, hashes, items, blobs)
    ensures Offers(items, blobs)
  {
    hide IsSource, SourcePath;
    forall h | h in items
      ensures Descriptor(h, items[h].size) in blobs
    {
      var k :| 0 <= k < |hashes| && hashes[k] == h;
      assert blobs[k] == Descriptor(h, items[h].size);
    }
  }

  /** The checks on a requested chunk: known blob, then validateSendBlobChunk. */
  predicate Sendable(items: map<string, Item>, cs: int, c: Chunk)
    requires 0 < cs
  {
    c.hash in items && items[c.hash].hash != "" && ValidSendChunk(c, items[c.hash].size, cs)
  }

  /** The host answers a request exactly when the plan has the chunk. */
  lemma SendablePlanned(items: map<string, Item>, blobs: seq<Descriptor>, cs: int, c: Chunk)
    requires Normal(cs) && Plannable(blobs, cs) && Offers(items, blobs)
    ensures Sendable(items, cs, c) <==> c in PlanAll(blobs, cs)
  {
    InPlanAll(c, blobs, cs);
    forall b | b in blobs
      ensures c in PlanOf(b, cs) <==> c.hash == b.hash && ValidSendChunk(c, b.size, cs)
    {
      PlannableCount(blobs, cs, b);
      SenderAcceptsPlan(c, b, cs);
    }
    hide ValidSendChunk, PlanOf, PlanAll, TotalCount;
    if Sendable(items, cs, c) {
      var b := Descriptor(c.hash, items[c.hash].size);
      assert b in blobs && c in PlanOf(b, cs);
    }
    if c in PlanAll(blobs, cs) {
      var b :| b in blobs && c in PlanOf(b, cs);
      assert ValidHash(b.hash);
    }
  }

  lemma PlannableCount(blobs: seq<Descriptor>, cs: int, b: Descriptor)
    requires Normal(cs) && Plannable(blobs, cs) && b in blobs
    ensures 0 <= b.size && CountOf(b.size, cs) <= MAX_CHUNKS
  {
    var i :| 0 <= i < |blobs| && blobs[i] == b;
    assert blobs[..i + 1][..i] == blobs[..i] && blobs[..i + 1][i] == b;
    CountGrows(blobs, cs, i + 1);
    hide CountOf;
  }

  // ---- The session object ----

  /** What reading the next frame of a connection yields; a request comes with the files as they are when it is answered. */
  datatype Frame = HeartbeatFrame | RequestFrame(request: Request, files: map<string, Bytes>) | CompleteFrame | OtherFrame | ReadFailure(problem: Problem)

  /** A chunk frame on the wire, and the files at the time it was written. */
  datatype Sent = Sent(chunk: Chunk, payload: Bytes, files: map<string, Bytes>)

  /** io.SectionReader over the whole payload: nothing if the file is missing or too short. */
  function ReadSection(files: map<string, Bytes>, path: string, offset: int, length: int): Option<Bytes> {
    if path in files && 0 <= offset && 0 <= length && offset + length <= |files[path]| then Some(files[path][offset..offset + length]) else None
  }

  /** The payload is the chunk's part of the file that the session serves for its hash. */
  ghost predicate SentRight(items: map<string, Item>, cs: int, sent: Sent) {
    && sent.chunk.hash in items && 0 < cs
    && ReadSection(sent.files, items[sent.chunk.hash].path, sent.chunk.offset, LengthOf(sent.chunk, cs)) == Some(sent.payload)
  }

  /**
   A host whose files hold the source bytes sends honest payloads of the planned length: what the
   receiver needs to store exactly the source.
   */
  lemma SentHonest(items: map<string, Item>, cs: int, sent: Sent, source: map<string, Bytes>)
    requires SentRight(items, cs, sent) && 0 <= LengthOf(sent.chunk, cs)
    requires sent.chunk.hash in source && items[sent.chunk.hash].path in sent.files
    requires sent.files[items[sent.chunk.hash].path] == source[sent.chunk.hash]
    ensures |sent.payload| == LengthOf(sent.chunk, cs) && BlobHonest.PayloadHonest(sent.chunk, sent.payload, source)
    ensures 0 <= sent.chunk.offset && sent.chunk.offset + |sent.payload| <= |source[sent.chunk.hash]|
  {
    hide LengthOf;
  }

  /** The deliveries of a connection are the chunk frames it sent. */
  ghost predicate DeliveredSent(regions: seq<Region>, sent: seq<Sent>) {
    forall c :: Delivered(c) in regions <==> exists k :: 0 <= k < |sent| && sent[k].chunk == c
  }

  lemma DeliveredMore(regions: seq<Region>, sent: seq<Sent>, next: Sent)
    requires DeliveredSent(regions, sent)
    ensures DeliveredSent(regions + [Delivered(next.chunk)], sent + [next])
  {
    var more := sent + [next];
    forall c
      ensures Delivered(c) in regions + [Delivered(next.chunk)] <==> exists k :: 0 <= k < |more| && more[k].chunk == c
    {
      if k :| 0 <= k < |sent| && sent[k].chunk == c {
        assert more[k].chunk == c;
      }
      assert more[|sent|] == next;
    }
  }

  lemma BrokenMore(regions: seq<Region>, sent: seq<Sent>, p: Problem)
    requires DeliveredSent(regions, sent)
    ensures DeliveredSent(regions + [Broken(p)], sent)
  {
  }

  class BlobTransferSession {
    const credentials: Credentials
    const chunkSize: int
    const items: map<string, Item>
    const total: nat
    var sent: set<Key>
    var err: Option<Problem>
    var doneSet: bool

    ghost function State(): Session
      reads this
    {
      Session(sent, err, doneSet)
    }

    constructor (credentials: Credentials, items: map<string, Item>, total: nat, chunkSize: int)
      ensures State() == NewSession(total)
      ensures this.credentials == credentials && this.items == items && this.total == total && this.chunkSize == chunkSize
    {
      this.credentials, this.items, this.total, this.chunkSize := credentials, items, total, chunkSize;
      sent, err, doneSet := {}, None, total == 0;
    }

    method Validate(req: Request) returns (problem: Option<Problem>)
      ensures problem.None? <==> req.from == credentials && req.direction == "download"
      ensures problem == Some(WrongDirection) ==> req.from == credentials
      ensures problem.Some? ==> (problem == Some(Mismatch) && req.from != credentials) || (problem == Some(WrongDirection) && req.direction != "download")
    {
      if credentials.contextID != req.from.contextID || credentials.session != req.from.session || credentials.token != req.from.token {
        return Some(Mismatch);
      }
      if req.direction != DOWNLOAD {
        return Some(WrongDirection);
      }
      problem := None;
    }

    method CompleteOne(c: Chunk)
      modifies this
      ensures State() == CompleteChunk(old(State()), total, c)
    {
      var key := KeyOf(c);
      if key !in sent {
        sent := sent + {key};
      }
      assert sent == old(sent) + {key};
      if |sent| >= total && !doneSet {
        doneSet := true;
      }
    }

    method FailWith(problem: Problem) returns (first: Problem)
      modifies this
      ensures State() == Fail(old(State()), problem) && err == Some(first)
    {
      if err.None? {
        err := Some(problem);
      }
      if !doneSet {
        doneSet := true;
      }
      first := err.value;
    }

    /** The session offers the plan of some blobs. */
    ghost predicate Fits(blobs: seq<Descriptor>)
      reads this
    {
      Normal(chunkSize) && Plannable(blobs, chunkSize) && Offers(items, blobs) && total == |PlanAll(blobs, chunkSize)|
    }

    /** Why a request is refused: trouble on the way, wrong credentials, no planned chunk, or a source that cannot be read. */
    ghost predicate RefusedFor(problem: Problem, req: Request, files: map<string, Bytes>, blobs: seq<Descriptor>, trouble: bool)
      reads this
    {
      || trouble
      || (problem == Mismatch && req.from != credentials)
      || (problem == WrongDirection && req.direction != "download")
      || (problem == ChunkRequired && req.chunk.None?)
      || (problem in {UnknownBlob, BadChunk} && req.chunk.Some? && Fits(blobs) && req.chunk.value !in PlanAll(blobs, chunkSize))
      || (problem.Transport? && req.chunk.Some? && req.chunk.value.hash in items &&
          (forall payload :: !SentRight(items, chunkSize, Sent(req.chunk.value, payload, files))))
    }

    /** sendRequestedBlobChunk: validate, send, and only then count the chunk. */
    method SendRequestedBlobChunk(req: Request, files: map<string, Bytes>, ghost blobs: seq<Descriptor>)
      returns (problem: Option<Problem>, ghost chunk: Chunk, ghost payload: Bytes, ghost trouble: bool)
      requires Fits(blobs)
      modifies this
      ensures problem.None? ==> req.chunk == Some(chunk) && chunk in PlanAll(blobs, chunkSize)
      ensures problem.None? ==> req.from == credentials && State() == CompleteChunk(old(State()), total, chunk)
      ensures problem.None? ==> SentRight(items, chunkSize, Sent(chunk, payload, files))
      ensures problem.Some? ==> State() == old(State())
      ensures req.chunk.Some? && req.chunk.value !in PlanAll(blobs, chunkSize) ==> problem.Some?
      ensures problem.Some? ==> RefusedFor(problem.value, req, files, blobs, trouble)
    {
      hide Plannable, PlanAll, Offers, Sendable;
      chunk, payload, trouble := Chunk("", 0, 0), [], false;
      var canceled: bool := *;
      if canceled {
        return Some(Canceled), chunk, payload, true;
      }
      problem := Validate(req);
      if problem.Some? {
        return;
      }
      if req.chunk.None? {
        return Some(ChunkRequired), chunk, payload, false;
      }
      chunk := req.chunk.value;
      SendablePlanned(items, blobs, chunkSize, req.chunk.value);
      SendableMeaning(items, chunkSize, req.chunk.value);
      if req.chunk.value.hash !in items || items[req.chunk.value.hash].hash == "" {
        return Some(UnknownBlob), chunk, payload, false;
      }
      if !ValidSendChunk(req.chunk.value, items[req.chunk.value.hash].size, chunkSize) {
        return Some(BadChunk), chunk, payload, false;
      }
      hide ValidSendChunk;
      var written: Option<Problem> := *;
      if written.Some? {
        return written, chunk, payload, true;
      }
      var read := ReadSection(files, items[req.chunk.value.hash].path, req.chunk.value.offset, LengthOf(req.chunk.value, chunkSize));
      if read.None? {
        var disconnect: bool := *; // a file that ends early can look like a lost connection
        return Some(Transport(disconnect)), chunk, payload, false;
      }
      payload := read.value;
      CompleteOne(req.chunk.value);
      problem := None;
    }

    /** sendBlobTransfer: serves one connection until it ends. Only a disconnect leaves the session open. */
    method SendBlobTransfer(first: Request, files: map<string, Bytes>, frames: seq<Frame>, ghost blobs: seq<Descriptor>)
      returns (problem: Option<Problem>, ghost regions: seq<Region>, ghost wire: seq<Sent>)
      requires Fits(blobs)
      modifies this
      ensures OnlyPlanned(regions, PlanAll(blobs, chunkSize))
      ensures State() == After(old(State()), total, regions)
      ensures problem.Some? <==> AnyBroken(regions)
      ensures DeliveredSent(regions, wire) && forall w :: w in wire ==> SentRight(items, chunkSize, w)
    {
      regions, wire := [], [];
      var req, now := first, files;
      var i := 0;
      while true
        invariant Fits(blobs) && i <= |frames|
        invariant OnlyPlanned(regions, PlanAll(blobs, chunkSize)) && !AnyBroken(regions)
        invariant State() == After(old(State()), total, regions)
        invariant DeliveredSent(regions, wire) && forall w :: w in wire ==> SentRight(items, chunkSize, w)
        decreases |frames| - i
      {
        hide *;
        var p, served, payload, trouble := SendRequestedBlobChunk(req, now, blobs);
        if p.Some? {
          if p == Some(Transport(true)) {
            return None, regions, wire;
          }
          BrokenMore(regions, wire, p.value);
          problem, regions := Stop(p.value, regions, old(State()), blobs);
          return;
        }
        DeliverOne(old(State()), total, regions, served, PlanAll(blobs, chunkSize));
        DeliveredMore(regions, wire, Sent(served, payload, now));
        regions, wire := regions + [Delivered(served)], wire + [Sent(served, payload, now)];
        ghost var from := i;
        while i < |frames| && frames[i].HeartbeatFrame?
          invariant from <= i <= |frames|
        {
          i := i + 1;
        }
        if i == |frames| || frames[i] == CompleteFrame || frames[i] == ReadFailure(Transport(true)) {
          return None, regions, wire;
        }
        if !frames[i].RequestFrame? {
          var q := if frames[i].ReadFailure? then frames[i].problem else BadFrame;
          BrokenMore(regions, wire, q);
          problem, regions := Stop(q, regions, old(State()), blobs);
          return;
        }
        req, now := frames[i].request, frames[i].files;
        i := i + 1;
      }
    }

    method Stop(p: Problem, ghost regions: seq<Region>, ghost start: Session, ghost blobs: seq<Descriptor>)
      returns (problem: Option<Problem>, ghost more: seq<Region>)
      requires Fits(blobs)
      requires OnlyPlanned(regions, PlanAll(blobs, chunkSize)) && State() == After(start, total, regions)
      modifies this
      ensures problem.Some? && more == regions + [Broken(p)]
      ensures OnlyPlanned(more, PlanAll(blobs, chunkSize)) && AnyBroken(more)
      ensures State() == After(start, total, more)
    {
      var e := FailWith(p);
      problem, more := Some(e), regions + [Broken(p)];
      assert more[..|more| - 1] == regions;
      assert Broken(p) in more;
    }
  }

  lemma DeliverOne(start: Session, total: nat, regions: seq<Region>, c: Chunk, plan: seq<Chunk>)
    requires OnlyPlanned(regions, plan) && !AnyBroken(regions) && c in plan
    ensures OnlyPlanned(regions + [Delivered(c)], plan) && !AnyBroken(regions + [Delivered(c)])
    ensures After(start, total, regions + [Delivered(c)]) == CompleteChunk(After(start, total, regions), total, c)
  {
    assert (regions + [Delivered(c)])[..|regions|] == regions;
  }

  lemma SendableMeaning(items: map<string, Item>, cs: int, c: Chunk)
    requires 0 < cs
    ensures Sendable(items, cs, c) <==> c.hash in items && items[c.hash].hash != "" && ValidSendChunk(c, items[c.hash].size, cs)
  {
  }

  /** sendChangedFileBlobs up to the reply: no session when nothing is wanted, otherwise one that fits the plan. */
  method SendChangedFileBlobs(credentials: Credentials, workspace: Path, blobSources: map<string, string>, changed: seq<Entry>, hashes: seq<string>)
    returns (ok: bool, transfer: BlobTransferSession?, ghost blobs: seq<Descriptor>)
    ensures ok && hashes == [] ==> transfer == null
    ensures ok && hashes != [] ==>
              && transfer != null && fresh(transfer) && transfer.Fits(blobs) && transfer.State() == NewSession(transfer.total)
              && forall h :: h in hashes <==> exists b :: b in blobs && b.hash == h
    ensures !ok ==> transfer == null
    ensures !ok ==> (exists h :: h in hashes && forall i :: !IsSource(changed, h, i)) || !Plannable(blobs, 0x40_0000)
  {
    transfer := null;
    var items, descriptors, chunks;
    ok, items, descriptors := PrepareDownloadBlobItems(workspace, blobSources, changed, hashes);
    blobs := descriptors;
    if !ok {
      return;
    }
    ok, chunks := PlanBlobChunks(descriptors, DEFAULT_CHUNK_SIZE);
    if !ok {
      return;
    }
    AnswersOffers(workspace, blobSources, changed, hashes, items, descriptors);
    AnswersHashes(workspace, blobSources, changed, hashes, items, descriptors);
    hide Plannable, PlanAll, Offers, Answers, IsSource;
    if |items| == 0 {
      NoItems(items, hashes);
      return;
    }
    transfer := new BlobTransferSession(credentials, items, |chunks|, DEFAULT_CHUNK_SIZE);
  }

  lemma NoItems(items: map<string, Item>, hashes: seq<string>)
    requires forall h :: h in items <==> h in hashes
    ensures |items| == 0 ==> hashes == []
  {
    if hashes != [] {
      assert hashes[0] in items;
      assert items.Keys != {};
    }
  }

  lemma AnswersHashes(workspace: Path, blobSources: map<string, string>, changed: seq<Entry>, hashes: seq<string>, items: map<string, Item>, blobs: seq<Descriptor>)
    requires Answers(workspace, blobSources, changed, hashes, items, blobs)
    ensures forall h :: h in items <==> h in hashes
    ensures forall h :: h in hashes <==> exists b :: b in blobs && b.hash == h
  {
    hide IsSource, SourcePath;
    forall h | h in hashes
      ensures exists b :: b in blobs && b.hash == h
    {
      var k :| 0 <= k < |hashes| && hashes[k] == h;
      assert blobs[k] in blobs;
    }
  }

  /** The whole promise: on a session made for a plan, done without error means all of it was delivered. */
  lemma SendSessionPromise(blobs: seq<Descriptor>, cs: int, regions: seq<Region>)
    requires Normal(cs) && Plannable(blobs, cs) && OnlyPlanned(regions, PlanAll(blobs, cs))
    ensures var total := |PlanAll(blobs, cs)|;
            var s := After(NewSession(total), total, regions);
            s.done && s.err.None? <==>
            !AnyBroken(regions) && forall b, c :: b in blobs && c in PlanOf(b, cs) ==> Delivered(c) in regions
  {
    PlanKeysDistinct(blobs, cs);
    SessionDone(PlanAll(blobs, cs), regions);
    forall c
      ensures c in PlanAll(blobs, cs) <==> exists b :: b in blobs && c in PlanOf(b, cs)
    {
      InPlanAll(c, blobs, cs);
    }
    hide PlanAll, PlanOf;
  }
}
