/**
 One download worker: a window of requests over a connection that may break at any call, with
 retries on a fresh connection. The network is a script of what each call meets; when the
 script is used up the connection is gone.
 */
module DownloadPipeline {
  import opened BlobChunks

  const MAX_ATTEMPTS := 5
  const WINDOW := 8

  type Key = (string, int)

  /**
   What a dial, a write, a wait or a read meets. A frame for a dial, write or wait means success.
   A chunk frame for a chunk in flight makes the worker call ReceiveChunk: `call` is the number of
   that call among the calls of all workers, and `taken` is what it returns.
   */
  datatype Event =
    | Fine
    | Break(retryable: bool)
    | Heartbeat
    | HostError
    | ChunkFrame(key: Key, taken: Taken, call: nat)
    | SyncComplete
    | Stray

  /** What the receiver does with the payload of a chunk frame. */
  datatype Taken = Received | PayloadBroken | ReceiverFailed(retryable: bool)

  /** One ReceiveChunk call that a worker has made, and what came of it. */
  datatype Made = Made(key: Key, taken: Taken, call: nat)

  /** The result of one call or of handling one frame. */
  datatype Result = Ok | Done | Error(retryable: bool)

  function KeysOf(chunks: seq<Chunk>): set<Key> {
    set c | c in chunks :: KeyOf(c)
  }

  function AttemptsOf(attempts: map<Key, nat>, k: Key): nat {
    if k in attempts then attempts[k] else 0
  }

  function TotalAttempts(chunks: seq<Chunk>, attempts: map<Key, nat>): nat {
    if chunks == [] then 0
    else TotalAttempts(chunks[..|chunks| - 1], attempts) + AttemptsOf(attempts, KeyOf(chunks[|chunks| - 1]))
  }

  lemma {:induction false} AttemptsBound(chunks: seq<Chunk>, attempts: map<Key, nat>, bound: nat)
    requires forall k :: AttemptsOf(attempts, k) <= bound
    ensures TotalAttempts(chunks, attempts) <= bound * |chunks|
  {
    if chunks != [] {
      AttemptsBound(chunks[..|chunks| - 1], attempts, bound);
      assert bound * (|chunks| - 1) + bound == bound * |chunks|;
    }
  }

  lemma {:induction false} AttemptsGrow(chunks: seq<Chunk>, less: map<Key, nat>, more: map<Key, nat>, grown: set<Key>)
    requires forall k :: AttemptsOf(less, k) <= AttemptsOf(more, k)
    requires forall k :: k in grown ==> AttemptsOf(less, k) < AttemptsOf(more, k)
    ensures TotalAttempts(chunks, less) <= TotalAttempts(chunks, more)
    ensures grown * KeysOf(chunks) != {} ==> TotalAttempts(chunks, less) < TotalAttempts(chunks, more)
  {
    if chunks != [] {
      var front, last := chunks[..|chunks| - 1], chunks[|chunks| - 1];
      AttemptsGrow(front, less, more, grown);
      assert chunks == front + [last];
      if grown * KeysOf(chunks) != {} && KeyOf(last) !in grown {
        var k :| k in grown && k in KeysOf(chunks);
        assert k in KeysOf(front);
      }
    }
  }

  /** What a worker knows about its chunks, with the counts that the claims are about. */
  datatype Window = Window(
    chunks: seq<Chunk>,
    connected: bool,
    pending: seq<Chunk>,
    inFlight: map<Key, Chunk>,
    order: seq<Chunk>,
    attempts: map<Key, nat>,
    received: set<Key>,
    dropped: set<Key>, // chunks in flight when the host announced completion
    requests: map<Key, nat>,
    dials: nat, // connections opened
    retries: nat,
    completions: nat)

  /** Every element of `all` is in exactly one of four sets, and nothing else is. */
  ghost predicate Split(p: set<Key>, f: set<Key>, r: set<Key>, d: set<Key>, all: set<Key>) {
    forall k ::
      && (k in all <==> k in p || k in f || k in r || k in d)
      && (k in p ==> k !in f && k !in r && k !in d)
      && (k in f ==> k !in r && k !in d)
      && (k in r ==> k !in d)
  }

  lemma SplitMoves(p: set<Key>, f: set<Key>, r: set<Key>, d: set<Key>, all: set<Key>, k: Key)
    requires Split(p, f, r, d, all)
    ensures k in p ==> Split(p - {k}, f + {k}, r, d, all)
    ensures k in f ==> Split(p, f - {k}, r + {k}, d, all)
    ensures Split(p, {}, r, d + f, all)
    ensures Split(f + p, {}, r, d, all)
  {
  }

  /** The chunks that wait or are in flight are chunks of the group, under their own keys. */
  ghost predicate OwnChunks(w: Window) {
    && DistinctKeys(w.chunks) && DistinctKeys(w.pending)
    && (forall c :: c in w.pending ==> c in w.chunks)
    && (forall k :: k in w.inFlight ==> w.inFlight[k] in w.chunks && KeyOf(w.inFlight[k]) == k)
    && |w.inFlight| <= WINDOW
  }

  /** Each chunk is waiting, in flight, received or dropped, and only one of these. */
  ghost predicate Partition(w: Window) {
    OwnChunks(w) && Split(KeysOf(w.pending), w.inFlight.Keys, w.received, w.dropped, KeysOf(w.chunks))
  }

  /** The request order lists everything in flight, once. */
  ghost predicate Ordered(w: Window) {
    && DistinctKeys(w.order)
    && (forall k :: k in w.inFlight ==> w.inFlight[k] in w.order && KeyOf(w.inFlight[k]) == k)
    && (forall c :: c in w.order ==> KeyOf(c) !in KeysOf(w.pending))
  }

  /** No chunk has failed five times, and each was requested at most once more than it failed. */
  ghost predicate Counted(w: Window) {
    && (forall k :: AttemptsOf(w.attempts, k) < MAX_ATTEMPTS)
    && (forall k :: AttemptsOf(w.requests, k) <= AttemptsOf(w.attempts, k) + if k in KeysOf(w.pending) then 0 else 1)
    && w.retries <= TotalAttempts(w.chunks, w.attempts)
    && w.dials == w.retries + (if w.connected then 1 else 0)
    && (!w.connected ==> w.inFlight == map[] && w.order == [])
    && (w.completions > 0 <==> w.dropped != {})
  }

  ghost predicate Good(w: Window) {
    Partition(w) && Ordered(w) && Counted(w)
  }

  function Take(w: Window): Window
    requires w.pending != []
  {
    var chunk := w.pending[0];
    w.(pending := w.pending[1..],
       inFlight := w.inFlight[KeyOf(chunk) := chunk],
       order := w.order + [chunk],
       requests := w.requests[KeyOf(chunk) := AttemptsOf(w.requests, KeyOf(chunk)) + 1])
  }

  lemma TakeOwn(w: Window)
    requires OwnChunks(w) && w.pending != [] && |w.inFlight| < WINDOW
    ensures OwnChunks(Take(w))
  {
    QueueHead(w.pending);
    assert w.pending[0] in w.pending;
    hide DistinctKeys, KeyOf;
  }

  lemma OwnDistinct(w: Window)
    requires OwnChunks(w)
    ensures DistinctKeys(w.pending) && DistinctKeys(w.chunks)
  {
  }

  lemma TakeKeys(w: Window)
    requires w.pending != [] && DistinctKeys(w.pending)
    ensures Take(w).inFlight.Keys == w.inFlight.Keys + {KeyOf(w.pending[0])}
    ensures KeysOf(Take(w).pending) == KeysOf(w.pending) - {KeyOf(w.pending[0])}
    ensures KeyOf(w.pending[0]) in KeysOf(w.pending)
    ensures Take(w).received == w.received && Take(w).dropped == w.dropped && Take(w).chunks == w.chunks
  {
    QueueHead(w.pending);
    hide KeysOf, DistinctKeys;
  }

  lemma TakePartition(w: Window)
    requires Partition(w) && w.pending != [] && |w.inFlight| < WINDOW
    ensures Partition(Take(w))
  {
    hide OwnChunks, KeysOf, KeyOf, Split, DistinctKeys, Take;
    TakeOwn(w);
    OwnDistinct(w);
    TakeKeys(w);
    SplitMoves(KeysOf(w.pending), w.inFlight.Keys, w.received, w.dropped, KeysOf(w.chunks), KeyOf(w.pending[0]));
  }

  lemma TakeOrdered(w: Window)
    requires Ordered(w) && DistinctKeys(w.pending) && w.pending != []
    ensures Ordered(Take(w))
  {
    QueueHead(w.pending);
    OrderMore(w.order, w.pending);
    hide DistinctKeys, KeysOf, KeyOf;
  }

  lemma TakeCounted(w: Window)
    requires Counted(w) && DistinctKeys(w.pending) && w.pending != [] && w.connected
    ensures Counted(Take(w))
  {
    QueueHead(w.pending);
    hide DistinctKeys, KeysOf, KeyOf, TotalAttempts;
  }

  lemma TakeGood(w: Window)
    requires Good(w) && w.pending != [] && w.connected && |w.inFlight| < WINDOW
    ensures Good(Take(w))
  {
    TakePartition(w);
    assert DistinctKeys(w.pending);
    hide Partition;
    TakeOrdered(w);
    TakeCounted(w);
    hide Ordered, Counted;
  }

  function Connect(w: Window): Window {
    w.(connected := true, dials := w.dials + 1)
  }

  lemma ConnectGood(w: Window)
    requires Good(w) && !w.connected
    ensures Good(Connect(w))
  {
    hide DistinctKeys, KeysOf, TotalAttempts;
  }

  function Receive(w: Window, key: Key): Window {
    w.(received := w.received + {key}, inFlight := w.inFlight - {key})
  }

  lemma ReceiveOwn(w: Window, key: Key)
    requires OwnChunks(w) && key in w.inFlight
    ensures OwnChunks(Receive(w, key))
  {
    hide DistinctKeys, KeyOf;
    var t := Receive(w, key);
    assert t.inFlight.Keys == w.inFlight.Keys - {key};
    assert |t.inFlight.Keys| <= |w.inFlight.Keys|;
    assert |t.inFlight| == |t.inFlight.Keys| && |w.inFlight| == |w.inFlight.Keys|;
  }

  lemma ReceivePartition(w: Window, key: Key)
    requires Partition(w) && key in w.inFlight
    ensures Partition(Receive(w, key))
  {
    hide OwnChunks, KeysOf, KeyOf, Split, DistinctKeys;
    ReceiveOwn(w, key);
    var t := Receive(w, key);
    SplitMoves(KeysOf(w.pending), w.inFlight.Keys, w.received, w.dropped, KeysOf(w.chunks), key);
    assert w.inFlight.Keys - {key} == t.inFlight.Keys;
    assert t.received == w.received + {key} && t.dropped == w.dropped && t.pending == w.pending && t.chunks == w.chunks;
    hide Receive;
  }

  lemma ReceiveOrdered(w: Window, key: Key)
    requires Ordered(w)
    ensures Ordered(Receive(w, key))
  {
    hide DistinctKeys, KeysOf;
  }

  lemma ReceiveCounted(w: Window, key: Key)
    requires Counted(w) && w.connected
    ensures Counted(Receive(w, key))
  {
    hide KeysOf, TotalAttempts;
  }

  lemma ReceiveGood(w: Window, key: Key)
    requires Good(w) && key in w.inFlight && w.connected
    ensures Good(Receive(w, key))
  {
    hide Partition, Ordered, Counted, Receive;
    ReceivePartition(w, key);
    ReceiveOrdered(w, key);
    ReceiveCounted(w, key);
  }

  /** A completion frame forgets everything in flight. */
  function Complete(w: Window): Window {
    w.(dropped := w.dropped + w.inFlight.Keys, completions := w.completions + 1, inFlight := map[], order := [])
  }

  lemma CompleteOwn(w: Window)
    requires OwnChunks(w)
    ensures OwnChunks(Complete(w))
  {
    hide DistinctKeys, KeyOf;
  }

  lemma CompletePartition(w: Window)
    requires Partition(w)
    ensures Partition(Complete(w))
  {
    hide OwnChunks, KeysOf, KeyOf, Split, DistinctKeys;
    CompleteOwn(w);
    var t := Complete(w);
    SplitMoves(KeysOf(w.pending), w.inFlight.Keys, w.received, w.dropped, KeysOf(w.chunks), ("", 0));
    assert t.inFlight.Keys == {};
    assert t.received == w.received && t.dropped == w.dropped + w.inFlight.Keys && t.pending == w.pending && t.chunks == w.chunks;
    hide Complete;
  }

  lemma CompleteCounted(w: Window)
    requires Counted(w) && w.connected && w.inFlight != map[]
    ensures Counted(Complete(w))
  {
    hide KeysOf, TotalAttempts;
    assert w.inFlight.Keys != {};
  }

  lemma CompleteOrdered(w: Window)
    ensures Ordered(Complete(w))
  {
    hide KeysOf;
  }

  lemma CompleteGood(w: Window)
    requires Good(w) && w.connected && w.inFlight != map[]
    ensures Good(Complete(w))
  {
    hide Partition, Ordered, Counted, Complete;
    CompletePartition(w);
    CompleteOrdered(w);
    CompleteCounted(w);
  }

  function Bump(attempts: map<Key, nat>, keys: set<Key>): map<Key, nat> {
    map k | k in attempts.Keys + keys :: AttemptsOf(attempts, k) + if k in keys then 1 else 0
  }

  lemma BumpMeaning(attempts: map<Key, nat>, keys: set<Key>)
    ensures forall k :: AttemptsOf(Bump(attempts, keys), k) == AttemptsOf(attempts, k) + if k in keys then 1 else 0
  {
  }

  /** The connection is gone: what was in flight waits again, ahead of the rest, and counts one more failure. */
  function Requeue(w: Window, failed: seq<Chunk>): Window {
    w.(pending := failed + w.pending,
       inFlight := map[],
       order := [],
       attempts := Bump(w.attempts, KeysOf(failed)),
       connected := false,
       retries := w.retries + 1)
  }

  /** Requeued, before the failure is counted. */
  function Lost(w: Window, failed: seq<Chunk>): Window {
    w.(pending := failed + w.pending, inFlight := map[], order := [], connected := false)
  }

  ghost predicate IsInFlight(w: Window, failed: seq<Chunk>) {
    && DistinctKeys(failed) && KeysOf(failed) == w.inFlight.Keys
    && forall c :: c in failed ==> c in w.chunks
  }

  lemma KeysJoin(a: seq<Chunk>, b: seq<Chunk>)
    ensures KeysOf(a + b) == KeysOf(a) + KeysOf(b)
    ensures DistinctKeys(a) && DistinctKeys(b) && KeysOf(a) !! KeysOf(b) ==> DistinctKeys(a + b)
  {
    assert forall c :: c in a + b <==> c in a || c in b;
    if DistinctKeys(a) && DistinctKeys(b) && KeysOf(a) !! KeysOf(b) {
      var s := a + b;
      forall i, j | 0 <= i < j < |s|
        ensures KeyOf(s[i]) != KeyOf(s[j])
      {
        if i < |a| && |a| <= j {
          PendingKey(a, a[i]);
          PendingKey(b, b[j - |a|]);
        }
      }
    }
  }

  lemma RequeueOwn(w: Window, failed: seq<Chunk>)
    requires OwnChunks(w) && IsInFlight(w, failed) && DistinctKeys(failed + w.pending)
    ensures OwnChunks(Requeue(w, failed))
  {
    hide DistinctKeys, KeyOf, KeysOf, Bump;
    assert forall c :: c in failed + w.pending ==> c in failed || c in w.pending;
  }

  lemma SplitDisjoint(p: set<Key>, f: set<Key>, r: set<Key>, d: set<Key>, all: set<Key>)
    requires Split(p, f, r, d, all)
    ensures f !! p
  {
  }

  lemma RequeuePartition(w: Window, failed: seq<Chunk>)
    requires Partition(w) && IsInFlight(w, failed)
    ensures Partition(Requeue(w, failed))
  {
    hide OwnChunks, KeysOf, KeyOf, Split, DistinctKeys, Bump;
    var t := Requeue(w, failed);
    SplitDisjoint(KeysOf(w.pending), w.inFlight.Keys, w.received, w.dropped, KeysOf(w.chunks));
    OwnDistinct(w);
    KeysJoin(failed, w.pending);
    RequeueOwn(w, failed);
    SplitMoves(KeysOf(w.pending), w.inFlight.Keys, w.received, w.dropped, KeysOf(w.chunks), ("", 0));
    assert t.inFlight.Keys == {};
    assert KeysOf(t.pending) == w.inFlight.Keys + KeysOf(w.pending);
    assert t.received == w.received && t.dropped == w.dropped && t.chunks == w.chunks;
    hide Requeue;
  }

  lemma RequeueGrows(w: Window, failed: seq<Chunk>)
    requires IsInFlight(w, failed) && failed != []
    ensures TotalAttempts(w.chunks, w.attempts) < TotalAttempts(w.chunks, Bump(w.attempts, KeysOf(failed)))
  {
    BumpMeaning(w.attempts, KeysOf(failed));
    PendingKey(failed, failed[0]);
    assert failed[0] in w.chunks;
    PendingKey(w.chunks, failed[0]);
    assert KeyOf(failed[0]) in KeysOf(failed) * KeysOf(w.chunks);
    hide DistinctKeys, KeysOf, KeyOf, TotalAttempts, Bump;
    AttemptsGrow(w.chunks, w.attempts, Bump(w.attempts, KeysOf(failed)), KeysOf(failed));
  }

  lemma RequeueCounted(w: Window, failed: seq<Chunk>)
    requires Counted(w) && IsInFlight(w, failed) && failed != []
    requires forall k :: AttemptsOf(Bump(w.attempts, KeysOf(failed)), k) < MAX_ATTEMPTS
    ensures Counted(Requeue(w, failed))
    ensures TotalAttempts(w.chunks, w.attempts) < TotalAttempts(w.chunks, Requeue(w, failed).attempts)
  {
    KeysJoin(failed, w.pending);
    BumpMeaning(w.attempts, KeysOf(failed));
    RequeueGrows(w, failed);
    hide DistinctKeys, KeysOf, KeyOf, TotalAttempts, Bump;
    InFlightConnected(w, failed);
    hide IsInFlight;
  }

  lemma InFlightConnected(w: Window, failed: seq<Chunk>)
    requires Counted(w) && IsInFlight(w, failed) && failed != []
    ensures w.connected
  {
    PendingKey(failed, failed[0]);
    hide DistinctKeys, TotalAttempts;
  }

  lemma RequeueGood(w: Window, failed: seq<Chunk>)
    requires Good(w) && IsInFlight(w, failed) && failed != []
    requires forall k :: AttemptsOf(Bump(w.attempts, KeysOf(failed)), k) < MAX_ATTEMPTS
    ensures Good(Requeue(w, failed))
    ensures TotalAttempts(w.chunks, w.attempts) < TotalAttempts(w.chunks, Requeue(w, failed).attempts)
  {
    hide Partition, Counted, IsInFlight, KeysOf, Bump, AttemptsOf, TotalAttempts;
    GoodParts(w);
    RequeuePartition(w, failed);
    RequeueCounted(w, failed);
    assert Ordered(Requeue(w, failed));
  }

  /** Whatever happens next, no chunk has been requested more than five times and reconnects are few. */
  ghost predicate Bounded(w: Window) {
    && (forall k :: AttemptsOf(w.requests, k) <= 5)
    && w.retries <= 4 * |w.chunks|
    && w.dials <= w.retries + 1
    && |w.inFlight| <= 8
  }

  lemma GoodBounded(w: Window)
    requires Good(w)
    ensures Bounded(w)
    ensures TotalAttempts(w.chunks, w.attempts) <= (MAX_ATTEMPTS - 1) * |w.chunks|
  {
    AttemptsBound(w.chunks, w.attempts, MAX_ATTEMPTS - 1);
    hide TotalAttempts, KeysOf, DistinctKeys;
  }

  lemma QueueHead(pending: seq<Chunk>)
    requires pending != [] && DistinctKeys(pending)
    ensures DistinctKeys(pending[1..])
    ensures KeysOf(pending) == {KeyOf(pending[0])} + KeysOf(pending[1..])
    ensures KeyOf(pending[0]) !in KeysOf(pending[1..])
  {
    assert pending == [pending[0]] + pending[1..];
  }

  lemma PendingKey(pending: seq<Chunk>, c: Chunk)
    requires c in pending
    ensures KeyOf(c) in KeysOf(pending)
  {
  }

  lemma OrderMore(order: seq<Chunk>, pending: seq<Chunk>)
    requires pending != [] && DistinctKeys(order) && forall c :: c in order ==> KeyOf(c) !in KeysOf(pending)
    ensures DistinctKeys(order + [pending[0]])
  {
    PendingKey(pending, pending[0]);
    var more := order + [pending[0]];
    forall i, j | 0 <= i < j < |more|
      ensures KeyOf(more[i]) != KeyOf(more[j])
    {
      assert more[i] in order;
    }
  }

  lemma NewInOrder(order: seq<Chunk>, i: nat, failed: seq<Chunk>)
    requires i < |order| && DistinctKeys(order) && DistinctKeys(failed)
    requires forall c :: c in failed ==> c in order[..i]
    ensures DistinctKeys(failed + [order[i]])
  {
    var more := failed + [order[i]];
    forall a, b | 0 <= a < b < |more|
      ensures KeyOf(more[a]) != KeyOf(more[b])
    {
      if b == |failed| {
        assert more[a] in order[..i];
      }
    }
  }

  lemma FailedKeys(order: seq<Chunk>, inFlight: map<Key, Chunk>, failed: seq<Chunk>)
    requires forall k :: k in inFlight ==> inFlight[k] in order && KeyOf(inFlight[k]) == k
    requires forall c :: c in failed <==> c in order && KeyOf(c) in inFlight
    ensures KeysOf(failed) == inFlight.Keys
  {
    forall k | k in inFlight
      ensures k in KeysOf(failed)
    {
      assert inFlight[k] in failed;
    }
  }

  lemma OnlyOneInOrder(order: seq<Chunk>, inFlight: map<Key, Chunk>, c: Chunk)
    requires DistinctKeys(order) && c in order && KeyOf(c) in inFlight
    requires forall k :: k in inFlight ==> inFlight[k] in order && KeyOf(inFlight[k]) == k
    ensures inFlight[KeyOf(c)] == c
  {
    var d := inFlight[KeyOf(c)];
    var i :| 0 <= i < |order| && order[i] == c;
    var j :| 0 <= j < |order| && order[j] == d;
  }

  lemma TakeMoves(w: Window)
    requires w.pending != []
    ensures |Take(w).pending| < |w.pending| && Take(w).inFlight != map[]
    ensures Take(w).connected == w.connected
  {
    assert KeyOf(w.pending[0]) in Take(w).inFlight;
  }

  lemma NoneDistinct()
    ensures DistinctKeys([])
  {
  }

  lemma OrderFacts(w: Window)
    requires Ordered(w)
    ensures DistinctKeys(w.order)
  {
  }

  lemma CollectedInFlight(w: Window, failed: seq<Chunk>)
    requires Partition(w) && Ordered(w) && DistinctKeys(failed)
    requires forall c :: c in failed <==> c in w.order && KeyOf(c) in w.inFlight
    ensures IsInFlight(w, failed)
  {
    FailedKeys(w.order, w.inFlight, failed);
    forall c | c in failed
      ensures c in w.chunks
    {
      OnlyOneInOrder(w.order, w.inFlight, c);
    }
  }

  lemma GoodParts(w: Window)
    requires Good(w)
    ensures Partition(w) && Ordered(w) && Counted(w)
  {
  }

  /** The first chunks of the queue were requested, in order, and the rest still waits. */
  ghost predicate Requested(queue: seq<Chunk>, ordered: seq<Chunk>, pending: seq<Chunk>, order: seq<Chunk>) {
    exists n :: 0 <= n <= |queue| && pending == queue[n..] && order == ordered + queue[..n]
  }

  lemma NoneRequested(queue: seq<Chunk>, order: seq<Chunk>)
    ensures Requested(queue, order, queue, order)
  {
    assert queue == queue[0..] && order == order + queue[..0];
  }

  lemma OneMoreRequested(queue: seq<Chunk>, ordered: seq<Chunk>, w: Window)
    requires Requested(queue, ordered, w.pending, w.order) && w.pending != []
    ensures Requested(queue, ordered, Take(w).pending, Take(w).order)
  {
    var n :| 0 <= n <= |queue| && w.pending == queue[n..] && w.order == ordered + queue[..n];
    assert queue[n..][1..] == queue[n + 1..];
    assert ordered + queue[..n] + [queue[n]] == ordered + queue[..n + 1];
  }

  lemma WindowRoom(w: Window)
    requires Good(w)
    ensures |w.inFlight| <= WINDOW && (w.inFlight == map[] ==> |w.inFlight| == 0)
  {
    hide DistinctKeys, Ordered, Counted, Split;
  }

  /** The chunks of the request order that are in flight. */
  function StillInFlight(order: seq<Chunk>, inFlight: map<Key, Chunk>): seq<Chunk> {
    if order == [] then []
    else StillInFlight(order[..|order| - 1], inFlight) + if KeyOf(order[|order| - 1]) in inFlight then [order[|order| - 1]] else []
  }

  ghost predicate Before(order: seq<Chunk>, c: Chunk, d: Chunk) {
    exists a, b :: 0 <= a < b < |order| && order[a] == c && order[b] == d
  }

  /** Chunks of the one list in the order in which the other has them. */
  ghost predicate InOrderOf(chunks: seq<Chunk>, order: seq<Chunk>) {
    forall i, j :: 0 <= i < j < |chunks| ==> Before(order, chunks[i], chunks[j])
  }

  lemma BeforeMore(order: seq<Chunk>, last: Chunk, c: Chunk, d: Chunk)
    ensures Before(order, c, d) ==> Before(order + [last], c, d)
    ensures c in order ==> Before(order + [last], c, last)
  {
    var longer := order + [last];
    if Before(order, c, d) {
      var a, b :| 0 <= a < b < |order| && order[a] == c && order[b] == d;
      assert longer[a] == c && longer[b] == d;
    }
    if c in order {
      var a :| 0 <= a < |order| && order[a] == c;
      assert longer[a] == c && longer[|order|] == last;
    }
  }

  lemma InOrderMore(chunks: seq<Chunk>, order: seq<Chunk>, last: Chunk)
    requires InOrderOf(chunks, order) && forall c :: c in chunks ==> c in order
    ensures InOrderOf(chunks, order + [last]) && InOrderOf(chunks + [last], order + [last])
  {
    hide Before;
    forall i, j | 0 <= i < j <= |chunks|
      ensures Before(order + [last], chunks[i], (chunks + [last])[j])
    {
      assert chunks[i] in order;
      BeforeMore(order, last, chunks[i], (chunks + [last])[j]);
    }
    forall i, j | 0 <= i < j < |chunks|
      ensures Before(order + [last], chunks[i], chunks[j])
    {
      BeforeMore(order, last, chunks[i], chunks[j]);
    }
  }

  lemma {:induction false} StillInOrder(order: seq<Chunk>, inFlight: map<Key, Chunk>)
    ensures forall c :: c in StillInFlight(order, inFlight) <==> c in order && KeyOf(c) in inFlight
    ensures InOrderOf(StillInFlight(order, inFlight), order)
  {
    if order != [] {
      var front, last := order[..|order| - 1], order[|order| - 1];
      assert order == front + [last];
      StillInOrder(front, inFlight);
      InOrderMore(StillInFlight(front, inFlight), front, last);
    }
    hide InOrderOf, KeyOf;
  }

  /** What the next frame does to the window: only a chunk in flight whose payload is received changes it. */
  ghost function AfterFrame(w: Window, script: seq<Event>): Window {
    if script != [] && script[0].ChunkFrame? && script[0].taken == Received && script[0].key in w.inFlight then Receive(w, script[0].key)
    else w
  }

  /** The ReceiveChunk calls so far, with the one that the next frame asks for. */
  ghost function MadeMore(made: seq<Made>, w: Window, script: seq<Event>): seq<Made> {
    if script != [] && script[0].ChunkFrame? && script[0].key in w.inFlight then
      made + [Made(script[0].key, script[0].taken, script[0].call)]
    else made
  }

  // ---- What the calls tell ----

  /** Some call from `i` on took the chunk `k`. */
  ghost predicate TakenFrom(made: seq<Made>, i: nat, k: Key) {
    exists j :: i <= j < |made| && made[j].key == k && made[j].taken == Received
  }

  /**
   The calls were for chunks of the group; what counts as received was taken by some call, also
   when earlier calls for it did not take it.
   */
  ghost predicate Told(all: set<Key>, received: set<Key>, made: seq<Made>) {
    && (forall k :: k in received ==> TakenFrom(made, 0, k))
    && (forall i :: 0 <= i < |made| ==> made[i].key in all)
    && (forall i :: 0 <= i < |made| && made[i].key in received ==> TakenFrom(made, i, made[i].key))
  }

  /** A worker that succeeded: every chunk was taken, and so was every one that a call did not take at first. */
  ghost predicate Succeeded(chunks: seq<Chunk>, made: seq<Made>) {
    && (forall c :: c in chunks ==> TakenFrom(made, 0, KeyOf(c)))
    && (forall i :: 0 <= i < |made| ==> TakenFrom(made, i, made[i].key))
  }

  lemma ToldMore(all: set<Key>, received: set<Key>, made: seq<Made>, next: Made)
    requires Told(all, received, made) && next.key in all && next.key !in received
    ensures next.taken == Received ==> Told(all, received + {next.key}, made + [next])
    ensures next.taken != Received ==> Told(all, received, made + [next])
  {
    var more := made + [next];
    assert more[|made|] == next;
    forall i: nat, k | TakenFrom(made, i, k)
      ensures TakenFrom(more, i, k)
    {
      var j :| i <= j < |made| && made[j].key == k && made[j].taken == Received;
      assert more[j] == made[j];
    }
    assert next.taken == Received ==> forall i: nat :: i <= |made| ==> TakenFrom(more, i, next.key);
    forall i | 0 <= i < |more|
      ensures more[i].key in all
      ensures more[i].key in received ==> TakenFrom(more, i, more[i].key)
    {
      assert i < |made| ==> more[i] == made[i];
    }
  }

  /** A frame extends what the calls tell. */
  lemma FrameTold(w: Window, made: seq<Made>, script: seq<Event>)
    requires Partition(w) && Told(KeysOf(w.chunks), w.received, made)
    ensures Told(KeysOf(w.chunks), AfterFrame(w, script).received, MadeMore(made, w, script))
  {
    hide OwnChunks, KeysOf, Told;
    if script != [] && script[0].ChunkFrame? && script[0].key in w.inFlight {
      ToldMore(KeysOf(w.chunks), w.received, made, Made(script[0].key, script[0].taken, script[0].call));
    }
  }

  lemma ToldAll(chunks: seq<Chunk>, received: set<Key>, made: seq<Made>)
    requires Told(KeysOf(chunks), received, made) && received == KeysOf(chunks)
    ensures Succeeded(chunks, made)
  {
    forall c | c in chunks
      ensures TakenFrom(made, 0, KeyOf(c))
    {
      PendingKey(chunks, c);
    }
    hide KeyOf, KeysOf, TakenFrom;
  }

  /** No completion frame is to come. */
  ghost predicate NoCompletion(script: seq<Event>) {
    SyncComplete !in script
  }

  class Worker {
    const chunks: seq<Chunk>
    var script: seq<Event>
    var connected: bool
    var pending: seq<Chunk>
    var inFlight: map<Key, Chunk>
    var order: seq<Chunk>
    var attempts: map<Key, nat>

    ghost var received: set<Key>
    ghost var dropped: set<Key>
    ghost var requests: map<Key, nat>
    ghost var dials: nat
    ghost var retries: nat
    ghost var completions: nat
    ghost var made: seq<Made>

    constructor (chunks: seq<Chunk>, script: seq<Event>)
      requires DistinctKeys(chunks)
      ensures this.chunks == chunks && this.script == script && made == [] && completions == 0
      ensures View() == Window(chunks, false, chunks, map[], [], map[], {}, {}, map[], 0, 0, 0)
      ensures Good(View()) && CallsTold()
    {
      StartGood(chunks);
      this.chunks, this.script, made := chunks, script, [];
      connected, pending, inFlight, order, attempts := false, chunks, map[], [], map[];
      received, dropped, requests, dials, retries, completions := {}, {}, map[], 0, 0, 0;
    }

    ghost function View(): Window
      reads this
    {
      Window(chunks, connected, pending, inFlight, order, attempts, received, dropped, requests, dials, retries, completions)
    }

    ghost predicate CallsTold()
      reads this
    {
      Told(KeysOf(chunks), received, made)
    }

    /** One dial, write or wait. */
    method Call() returns (r: Result)
      modifies this`script
      ensures r != Done
      ensures if old(script) == [] then script == [] && r == Error(true) else script == old(script)[1..]
      ensures NoCompletion(old(script)) ==> NoCompletion(script)
    {
      if script == [] {
        return Error(true);
      }
      r := if script[0].Break? then Error(script[0].retryable) else Ok;
      script := script[1..];
    }

    /** A fresh connection, if the call for it succeeds. */
    method Dial() returns (r: Result)
      requires Good(View()) && !connected
      modifies this`script, this`connected, this`dials
      ensures Good(View()) && r != Done && (connected <==> r == Ok)
      ensures |script| <= |old(script)| && (NoCompletion(old(script)) ==> NoCompletion(script))
    {
      hide Good, NoCompletion;
      r := Call();
      if r.Error? {
        return;
      }
      ConnectGood(View());
      connected, dials := true, dials + 1;
    }

    /** The chunk at the head of the queue goes into flight. */
    method TakePending()
      requires pending != []
      modifies this`pending, this`inFlight, this`order, this`requests
      ensures View() == Take(old(View()))
    {
      var chunk := pending[0];
      var key := KeyOf(chunk);
      pending := pending[1..];
      inFlight := inFlight[key := chunk];
      order := order + [chunk];
      requests := requests[key := AttemptsOf(requests, key) + 1];
    }

    /** fillDownloadPipeline: dial if there is no connection, then request chunks until the window is full. */
    method Fill() returns (r: Result)
      requires Good(View())
      modifies this`script, this`connected, this`dials, this`pending, this`inFlight, this`order, this`requests
      ensures Good(View()) && r != Done
      ensures r == Ok ==> connected && (old(pending) != [] || old(inFlight) != map[] ==> inFlight != map[])
      ensures r == Ok ==> pending == [] || |inFlight| == 8
      ensures Requested(old(pending), old(order), pending, order)
      ensures |script| <= |old(script)| && (NoCompletion(old(script)) ==> NoCompletion(script))
      ensures attempts == old(attempts)
    {
      hide Good, Take, Requested, NoCompletion;
      NoneRequested(pending, order);
      if !connected {
        r := Dial();
        if r.Error? {
          return;
        }
      }
      ghost var some := old(pending) != [] || old(inFlight) != map[];
      while pending != [] && |inFlight| < WINDOW
        invariant Good(View()) && connected
        invariant some ==> pending != [] || inFlight != map[]
        invariant Requested(old(pending), old(order), pending, order)
        invariant |script| <= |old(script)| && (NoCompletion(old(script)) ==> NoCompletion(script))
        decreases |pending|
      {
        OneMoreRequested(old(pending), old(order), View());
        TakeGood(View());
        TakeMoves(View());
        TakePending();
        r := Call();
        if r.Error? {
          return;
        }
      }
      WindowRoom(View());
      r := Ok;
    }

    /** downloadInflight: what is in flight, in request order. */
    method InFlightInOrder() returns (failed: seq<Chunk>)
      requires Partition(View()) && Ordered(View())
      ensures IsInFlight(View(), failed) && failed == StillInFlight(order, inFlight) && InOrderOf(failed, order)
    {
      hide Partition, Ordered, KeysOf, DistinctKeys, KeyOf;
      OrderFacts(View());
      failed := [];
      assert DistinctKeys(failed) by {
        NoneDistinct();
      }
      for i := 0 to |order|
        invariant forall c :: c in failed <==> c in order[..i] && KeyOf(c) in inFlight
        invariant DistinctKeys(failed) && failed == StillInFlight(order[..i], inFlight)
      {
        assert order[..i + 1] == order[..i] + [order[i]];
        assert order[..i + 1][..i] == order[..i];
        if KeyOf(order[i]) in inFlight {
          NewInOrder(order, i, failed);
          failed := failed + [order[i]];
        }
      }
      assert order[..|order|] == order;
      StillInOrder(order, inFlight);
      CollectedInFlight(View(), failed);
    }

    /** handleDownloadBlobTransferFrame, on the next frame or the end of the connection. */
    method ReadFrame() returns (r: Result)
      requires Good(View()) && CallsTold() && connected && inFlight != map[]
      modifies this`script, this`inFlight, this`received, this`made
      ensures Good(View()) && CallsTold() && View() == AfterFrame(old(View()), old(script))
      ensures made == MadeMore(old(made), old(View()), old(script))
      ensures r == Done ==> inFlight == old(inFlight) && !NoCompletion(old(script))
      ensures NoCompletion(old(script)) ==> NoCompletion(script)
      ensures if old(script) == [] then script == [] && r == Error(true) else |script| < |old(script)|
    {
      hide Good, Told, KeysOf, Partition, Ordered, Counted;
      GoodParts(View());
      FrameTold(View(), made, script);
      if script == [] {
        return Error(true);
      }
      var frame := script[0];
      script := script[1..];
      match frame
      case Break(retryable) => return Error(retryable);
      case Fine => return Ok;
      case Heartbeat => return Ok;
      case HostError => return Error(false);
      case Stray => return Error(false);
      case SyncComplete => return Done;
      case ChunkFrame(key, taken, call) =>
        if key !in inFlight {
          return Error(false);
        }
        made := made + [Made(key, taken, call)];
        match taken {
          case PayloadBroken => return Error(true);
          case ReceiverFailed(retryable) => return Error(retryable);
          case Received =>
        }
        ReceiveGood(View(), key);
        received := received + {key};
        inFlight := inFlight - {key};
        return Ok;
    }

    /** The counting loop of retryDownloadPipeline. */
    method CountFailures(failed: seq<Chunk>) returns (maxAttempt: nat)
      requires DistinctKeys(failed)
      modifies this`attempts
      ensures attempts == Bump(old(attempts), KeysOf(failed))
      ensures forall k :: k in KeysOf(failed) ==> AttemptsOf(attempts, k) <= maxAttempt
      ensures failed != [] ==> exists k :: k in KeysOf(failed) && AttemptsOf(attempts, k) == maxAttempt
      ensures forall k :: AttemptsOf(attempts, k) == AttemptsOf(old(attempts), k) + if k in KeysOf(failed) then 1 else 0
    {
      hide Bump, DistinctKeys, KeyOf, KeysOf, AttemptsOf;
      maxAttempt := 0;
      ghost var before := attempts;
      BumpNone(before, failed);
      for i := 0 to |failed|
        invariant attempts == Bump(before, KeysOf(failed[..i]))
        invariant forall k :: k in KeysOf(failed[..i]) ==> AttemptsOf(attempts, k) <= maxAttempt
        invariant if i == 0 then maxAttempt == 0 else exists k :: k in KeysOf(failed[..i]) && AttemptsOf(attempts, k) == maxAttempt
      {
        BumpNext(before, failed, i);
        var key := KeyOf(failed[i]);
        BumpOthers(attempts, key);
        attempts := attempts[key := AttemptsOf(attempts, key) + 1];
        if attempts[key] > maxAttempt {
          maxAttempt := attempts[key];
        }
      }
      assert failed[..|failed|] == failed;
      BumpMeaning(before, KeysOf(failed));
    }

    /** retryDownloadPipeline, for chunks that already wait again: count the failure and go on, or give up. */
    method RetryDownloadPipeline(ghost w: Window, failed: seq<Chunk>, retryable: bool) returns (again: bool, ghost ended: bool)
      requires Good(w) && IsInFlight(w, failed) && View() == Lost(w, failed)
      modifies this`attempts, this`retries, this`script
      ensures again ==> View() == Requeue(w, failed) && failed != [] && (forall k :: AttemptsOf(attempts, k) < MAX_ATTEMPTS)
      ensures !again ==> retries == old(retries)
      ensures !again && retryable && failed != [] ==> ended || exists k :: k in KeysOf(failed) && AttemptsOf(attempts, k) >= 5
      ensures again ==> retryable && forall k :: k in KeysOf(failed) ==> AttemptsOf(attempts, k) < 5
      ensures NoCompletion(old(script)) ==> NoCompletion(script)
    {
      hide Good, NoCompletion, KeysOf, IsInFlight, Bump, DistinctKeys, AttemptsOf, Counted;
      if !retryable || failed == [] {
        return false, false;
      }
      FailedDistinct(w, failed);
      var maxAttempt := CountFailures(failed);
      if maxAttempt >= MAX_ATTEMPTS {
        return false, false;
      }
      GoodParts(w);
      BelowMax(w, failed, maxAttempt);
      var waited := Call();
      if waited.Error? {
        return false, true;
      }
      retries := retries + 1;
      again, ended := true, false;
    }

    /** The failure branch of the loop: requeue what was in flight, then retry or give up. */
    method Recover(retryable: bool) returns (again: bool)
      requires Good(View())
      modifies this`script, this`connected, this`pending, this`inFlight, this`order, this`attempts, this`retries
      ensures again ==> Good(View()) && !connected
      ensures again ==> TotalAttempts(chunks, attempts) > old(TotalAttempts(chunks, attempts))
      ensures Bounded(View())
      ensures NoCompletion(old(script)) ==> NoCompletion(script)
    {
      hide Good, NoCompletion, Bounded, TotalAttempts, KeysOf, IsInFlight, AttemptsOf, Bump, DistinctKeys, Partition, Ordered, Counted;
      ghost var w := View();
      GoodBounded(w);
      GoodParts(w);
      var failed := InFlightInOrder();
      pending := failed + pending;
      inFlight, order := map[], [];
      connected := false;
      ghost var ended;
      again, ended := RetryDownloadPipeline(w, failed, retryable);
      if again {
        RequeueGood(w, failed);
        GoodBounded(View());
      } else {
        StaysBounded(w, View());
      }
    }

    /**
     downloadBlobChunksPipelined: at every loop head the chunks are split between waiting, in
     flight, received and dropped. A run that succeeds has received every chunk, except those in
     flight when the host sent a completion frame, and without such a frame every chunk of the group
     was taken by one of the calls it made; in every run the window, the requests of each chunk and
     the reconnects stay within their limits.
     */
    method Download() returns (ok: bool)
      requires Good(View()) && CallsTold()
      modifies this
      ensures CallsTold()
      ensures Bounded(View())
      ensures ok ==> received + dropped == KeysOf(chunks) && received !! dropped
      ensures ok ==> (received == KeysOf(chunks) <==> completions == 0)
      ensures ok && completions == 0 ==> Succeeded(chunks, made)
      ensures NoCompletion(old(script)) ==> completions == old(completions)
    {
      hide Good, NoCompletion, Bounded, TotalAttempts, KeysOf, Complete, Told, Succeeded;
      GoodBounded(View());
      while pending != [] || inFlight != map[]
        invariant Good(View()) && Bounded(View()) && CallsTold()
        invariant NoCompletion(old(script)) ==> NoCompletion(script) && completions == old(completions)
        decreases (MAX_ATTEMPTS - 1) * |chunks| - TotalAttempts(chunks, attempts), |script|
      {
        GoodBounded(View());
        var r := Turn();
        if r.Error? {
          var again := Recover(r.retryable);
          if !again {
            return false;
          }
        }
        GoodBounded(View());
      }
      AllReceived(View());
      if completions == 0 {
        ToldAll(chunks, received, made);
      }
      ok := true;
    }

    /** One turn of the loop up to its error branch: fill the window, then read and handle one frame. */
    method Turn() returns (r: Result)
      requires Good(View()) && CallsTold() && (pending != [] || inFlight != map[])
      modifies this
      ensures Good(View()) && CallsTold() && attempts == old(attempts)
      ensures !r.Error? ==> |script| < |old(script)|
      ensures NoCompletion(old(script)) ==> NoCompletion(script) && completions == old(completions)
    {
      hide Good, NoCompletion, Complete, Told, MadeMore, AfterFrame, KeysOf;
      r := Fill();
      if r.Error? {
        return;
      }
      // A fill that succeeds leaves something in flight, so there is always a frame to read.
      r := ReadFrame();
      if r == Done {
        CompleteGood(View());
        ForgetInFlight();
      }
    }

    /** The host says that it is through: nothing in flight is waited for any more. */
    method ForgetInFlight()
      modifies this`dropped, this`completions, this`inFlight, this`order
      ensures View() == Complete(old(View()))
    {
      dropped := dropped + inFlight.Keys;
      completions := completions + 1;
      inFlight, order := map[], [];
    }
  }

  lemma AllReceived(w: Window)
    requires Good(w) && w.pending == [] && w.inFlight == map[]
    ensures w.received + w.dropped == KeysOf(w.chunks) && w.received !! w.dropped
    ensures w.received == KeysOf(w.chunks) <==> w.completions == 0
  {
    assert KeysOf(w.pending) == {};
    assert w.inFlight.Keys == {};
    hide DistinctKeys, TotalAttempts, KeysOf, OwnChunks;
  }

  lemma StaysBounded(w: Window, v: Window)
    requires Bounded(w) && v.inFlight == map[]
    requires v.requests == w.requests && v.retries == w.retries && v.dials == w.dials && v.chunks == w.chunks
    ensures Bounded(v)
  {
  }

  lemma FailedDistinct(w: Window, failed: seq<Chunk>)
    requires IsInFlight(w, failed)
    ensures DistinctKeys(failed)
  {
  }

  lemma BelowMax(w: Window, failed: seq<Chunk>, maxAttempt: nat)
    requires Counted(w) && maxAttempt < MAX_ATTEMPTS
    requires forall k :: k in KeysOf(failed) ==> AttemptsOf(Bump(w.attempts, KeysOf(failed)), k) <= maxAttempt
    ensures forall k :: AttemptsOf(Bump(w.attempts, KeysOf(failed)), k) < MAX_ATTEMPTS
  {
    BumpMeaning(w.attempts, KeysOf(failed));
    hide KeysOf, Bump, TotalAttempts;
  }

  lemma BumpNone(attempts: map<Key, nat>, failed: seq<Chunk>)
    ensures attempts == Bump(attempts, KeysOf(failed[..0])) && KeysOf(failed[..0]) == {}
  {
  }

  lemma BumpMore(attempts: map<Key, nat>, keys: set<Key>, key: Key)
    requires key !in keys
    ensures Bump(attempts, keys + {key}) == Bump(attempts, keys)[key := AttemptsOf(Bump(attempts, keys), key) + 1]
  {
    var more, less := Bump(attempts, keys + {key}), Bump(attempts, keys);
    assert AttemptsOf(less, key) == AttemptsOf(attempts, key);
    forall k | k in more && k != key
      ensures k in less && more[k] == less[k]
    {
    }
  }

  lemma KeysNext(failed: seq<Chunk>, i: nat)
    requires i < |failed| && DistinctKeys(failed)
    ensures KeysOf(failed[..i + 1]) == KeysOf(failed[..i]) + {KeyOf(failed[i])}
    ensures KeyOf(failed[i]) !in KeysOf(failed[..i])
  {
    assert failed[..i + 1] == failed[..i] + [failed[i]];
    KeysJoin(failed[..i], [failed[i]]);
    assert KeysOf([failed[i]]) == {KeyOf(failed[i])};
  }

  lemma BumpNext(attempts: map<Key, nat>, failed: seq<Chunk>, i: nat)
    requires i < |failed| && DistinctKeys(failed)
    ensures var key, less := KeyOf(failed[i]), Bump(attempts, KeysOf(failed[..i]));
            Bump(attempts, KeysOf(failed[..i + 1])) == less[key := AttemptsOf(less, key) + 1]
    ensures KeysOf(failed[..i + 1]) == KeysOf(failed[..i]) + {KeyOf(failed[i])}
  {
    hide KeysOf, KeyOf, DistinctKeys, Bump, AttemptsOf;
    KeysNext(failed, i);
    BumpMore(attempts, KeysOf(failed[..i]), KeyOf(failed[i]));
  }

  lemma BumpOthers(attempts: map<Key, nat>, key: Key)
    ensures forall k :: AttemptsOf(attempts[key := AttemptsOf(attempts, key) + 1], k) ==
                        AttemptsOf(attempts, k) + if k == key then 1 else 0
    ensures attempts[key := AttemptsOf(attempts, key) + 1][key] ==
            AttemptsOf(attempts[key := AttemptsOf(attempts, key) + 1], key)
  {
  }

  lemma StartGood(chunks: seq<Chunk>)
    requires DistinctKeys(chunks)
    ensures Good(Window(chunks, false, chunks, map[], [], map[], {}, {}, map[], 0, 0, 0))
  {
  }
}
