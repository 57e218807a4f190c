/** The chunk plan of a transfer and the checks that both ends make on a single chunk. */
module BlobChunks {
  import opened Options

  const DEFAULT_CHUNK_SIZE := 0x40_0000 // 4 MiB
  const MAX_CHUNK_SIZE := 0x400_0000 // 64 MiB
  const MAX_CHUNKS := 0x10_0000

  newtype int64 = x: int | -0x8000_0000_0000_0000 <= x < 0x8000_0000_0000_0000

  datatype Descriptor = Descriptor(hash: string, size: int)

  datatype Chunk = Chunk(hash: string, size: int, offset: int)

  /** validateBlobHash: the lower-case hexadecimal form of a SHA-256 digest. */
  predicate ValidHash(hash: string) {
    |hash| == 64 && forall c :: c in hash ==> '0' <= c <= '9' || 'a' <= c <= 'f'
  }

  const HEX := "0123456789abcdef"

  /** 64 lower-case hexadecimal digits. */
  lemma ValidHashMeaning(hash: string)
    ensures ValidHash(hash) <==> |hash| == 64 && forall i :: 0 <= i < 64 ==> hash[i] in HEX
  {
    forall i | 0 <= i < |hash|
      ensures hash[i] in HEX <==> '0' <= hash[i] <= '9' || 'a' <= hash[i] <= 'f'
    {
      HexDigit(hash[i]);
    }
    if forall i :: 0 <= i < |hash| ==> hash[i] in HEX {
      forall c | c in hash
        ensures '0' <= c <= '9' || 'a' <= c <= 'f'
      {
        var i :| 0 <= i < |hash| && hash[i] == c;
      }
    } else {
      var i :| 0 <= i < |hash| && hash[i] !in HEX;
      assert hash[i] in hash;
    }
  }

  lemma HexDigit(c: char)
    ensures c in HEX <==> '0' <= c <= '9' || 'a' <= c <= 'f'
  {
    assert HEX[0] == '0' && HEX[1] == '1' && HEX[2] == '2' && HEX[3] == '3' && HEX[4] == '4' && HEX[5] == '5' && HEX[6] == '6' && HEX[7] == '7';
    assert HEX[8] == '8' && HEX[9] == '9' && HEX[10] == 'a' && HEX[11] == 'b' && HEX[12] == 'c' && HEX[13] == 'd' && HEX[14] == 'e' && HEX[15] == 'f';
  }

  /** A chunk size of zero or less stands for 4 MiB, and more than 64 MiB is refused. */
  lemma ChunkSizeMeaning(chunkSize: int)
    ensures NormalizeChunkSize(chunkSize).None? <==> chunkSize > 0x400_0000
    ensures chunkSize <= 0 ==> NormalizeChunkSize(chunkSize) == Some(0x40_0000)
    ensures 0 < chunkSize <= 0x400_0000 ==> NormalizeChunkSize(chunkSize) == Some(chunkSize)
  {
  }

  function NormalizeChunkSize(chunkSize: int): Option<int> {
    if chunkSize <= 0 then Some(DEFAULT_CHUNK_SIZE)
    else if chunkSize > MAX_CHUNK_SIZE then None
    else Some(chunkSize)
  }

  /** A chunk size as normalisation returns it. */
  predicate Normal(chunkSize: int) {
    0 < chunkSize <= MAX_CHUNK_SIZE
  }

  function BlobChunkCount(size: int, chunkSize: int): Option<nat> {
    if size < 0 then None
    else match NormalizeChunkSize(chunkSize)
      case None => None
      case Some(cs) =>
        if size == 0 then Some(1)
        else if 1 + (size - 1) / cs > MAX_CHUNKS then None
        else Some(1 + (size - 1) / cs)
  }

  function BlobChunkPayloadLen(info: Chunk, chunkSize: int): Option<int> {
    match NormalizeChunkSize(chunkSize)
    case None => None
    case Some(cs) =>
      if info.size < 0 then None
      else if info.offset < 0 || info.offset > info.size then None
      else if info.size == 0 then if info.offset != 0 then None else Some(0)
      else if info.offset % cs != 0 then None
      else if info.size - info.offset < cs then Some(info.size - info.offset)
      else Some(cs)
  }

  /** validateBlobChunkShape: the receiver's check of a chunk against the blob it belongs to. */
  predicate ValidChunkShape(info: Chunk, hash: string, size: int, chunkSize: int, payloadLen: int)
    requires Normal(chunkSize)
  {
    && info.hash == hash
    && info.size == size
    && BlobChunkPayloadLen(info, chunkSize) == Some(payloadLen)
    && var index := if size > 0 then info.offset / chunkSize else 0;
       match BlobChunkCount(size, chunkSize)
       case None => false
       case Some(count) => index < count
  }

  /** validateSendBlobChunk: the host's check of a requested chunk against the file it would send. */
  predicate ValidSendChunk(info: Chunk, itemSize: int, chunkSize: int)
    requires 0 < chunkSize
  {
    && info.size == itemSize
    && 0 <= info.offset <= itemSize
    && (itemSize > 0 ==> info.offset % chunkSize == 0)
    && var index := if itemSize > 0 then info.offset / chunkSize else 0;
       match BlobChunkCount(itemSize, chunkSize)
       case None => false
       case Some(count) => index < count
  }

  // ---- The plan ----

  /** The number of chunks of a blob, before the limit is checked. */
  function CountOf(size: int, cs: int): nat
    requires 0 <= size && 0 < cs
  {
    if size == 0 then 1 else 1 + (size - 1) / cs
  }

  /** The chunks of one blob: one at every multiple of the chunk size below its size. */
  function PlanOf(blob: Descriptor, cs: int): seq<Chunk>
    requires 0 <= blob.size && 0 < cs
  {
    seq(CountOf(blob.size, cs), i => Chunk(blob.hash, blob.size, i * cs))
  }

  ghost predicate Sizes(blobs: seq<Descriptor>) {
    forall b :: b in blobs ==> 0 <= b.size
  }

  function PlanAll(blobs: seq<Descriptor>, cs: int): seq<Chunk>
    requires Sizes(blobs) && 0 < cs
  {
    if blobs == [] then []
    else PlanAll(blobs[..|blobs| - 1], cs) + PlanOf(blobs[|blobs| - 1], cs)
  }

  function TotalCount(blobs: seq<Descriptor>, cs: int): nat
    requires Sizes(blobs) && 0 < cs
  {
    if blobs == [] then 0
    else TotalCount(blobs[..|blobs| - 1], cs) + CountOf(blobs[|blobs| - 1].size, cs)
  }

  function TotalSize(blobs: seq<Descriptor>): int {
    if blobs == [] then 0 else TotalSize(blobs[..|blobs| - 1]) + blobs[|blobs| - 1].size
  }

  /** The bytes that a chunk of a plan carries. */
  function LengthOf(c: Chunk, cs: int): int {
    if c.size - c.offset < cs then c.size - c.offset else cs
  }

  function TotalLength(chunks: seq<Chunk>, cs: int): int {
    if chunks == [] then 0 else TotalLength(chunks[..|chunks| - 1], cs) + LengthOf(chunks[|chunks| - 1], cs)
  }

  ghost predicate DistinctHashes(blobs: seq<Descriptor>) {
    forall i, j :: 0 <= i < j < |blobs| ==> blobs[i].hash != blobs[j].hash
  }

  /** The descriptor lists that PlanBlobChunks accepts. */
  ghost predicate Plannable(blobs: seq<Descriptor>, chunkSize: int) {
    && NormalizeChunkSize(chunkSize).Some?
    && Sizes(blobs)
    && (forall b :: b in blobs ==> ValidHash(b.hash))
    && DistinctHashes(blobs)
    && TotalCount(blobs, NormalizeChunkSize(chunkSize).value) <= 0x10_0000
  }

  // ---- Arithmetic of one blob ----

  lemma MultiplesBelow(size: int, cs: int, i: int)
    requires 0 < size && 0 < cs && 0 <= i
    ensures i < CountOf(size, cs) <==> i * cs < size
  {
    var q, r := (size - 1) / cs, (size - 1) % cs;
    assert size - 1 == q * cs + r;
    if i <= q {
      assert i * cs <= q * cs by {
        MulMonotone(i, q, cs);
      }
    } else {
      assert (q + 1) * cs <= i * cs by {
        MulMonotone(q + 1, i, cs);
      }
      assert (q + 1) * cs == q * cs + cs;
    }
  }

  lemma MulMonotone(a: int, b: int, c: int)
    requires a <= b && 0 <= c
    ensures a * c <= b * c
  {
  }

  /** A blob whose count passes the limit is far from the end of int64. */
  lemma CountBoundsSize(size: int, cs: int)
    requires 0 <= size && Normal(cs) && CountOf(size, cs) <= MAX_CHUNKS
    ensures size <= 0x4000_0000_0000
  {
    if size > 0 {
      var q := (size - 1) / cs;
      assert size - 1 == q * cs + (size - 1) % cs;
      MulMonotone(q, MAX_CHUNKS - 1, cs);
      assert (MAX_CHUNKS - 1) * cs <= (MAX_CHUNKS - 1) * MAX_CHUNK_SIZE;
    }
  }

  lemma DivideMultiple(i: int, cs: int)
    requires 0 < cs
    ensures (i * cs) / cs == i && (i * cs) % cs == 0
  {
    assert i * cs == cs * i + 0;
    var q, r := (i * cs) / cs, (i * cs) % cs;
    assert i * cs == q * cs + r;
    assert (i - q) * cs == r;
    if i - q >= 1 {
      MulMonotone(1, i - q, cs);
    } else if i - q <= -1 {
      MulMonotone(i - q, -1, cs);
    }
  }

  lemma InPlanOf(c: Chunk, blob: Descriptor, cs: int)
    requires 0 <= blob.size && 0 < cs
    ensures c in PlanOf(blob, cs) <==>
              && c.hash == blob.hash && c.size == blob.size && 0 <= c.offset
              && (if c.size == 0 then c.offset == 0 else c.offset < c.size && c.offset % cs == 0)
  {
    if c in PlanOf(blob, cs) {
      var i :| 0 <= i < CountOf(blob.size, cs) && PlanOf(blob, cs)[i] == c;
      DivideMultiple(i, cs);
      if blob.size > 0 {
        MultiplesBelow(blob.size, cs, i);
      }
    }
    if c.hash == blob.hash && c.size == blob.size && 0 <= c.offset {
      if c.size == 0 && c.offset == 0 {
        assert PlanOf(blob, cs)[0] == c;
      } else if c.size > 0 && c.offset < c.size && c.offset % cs == 0 {
        var i := c.offset / cs;
        assert c.offset == i * cs;
        MultiplesBelow(blob.size, cs, i);
        assert PlanOf(blob, cs)[i] == c;
      }
    }
  }

  // ---- Validators accept exactly the plan ----

  /** The receiver accepts a chunk for a blob exactly when the plan has it and the payload has its length. */
  lemma ReceiverAcceptsPlan(c: Chunk, blob: Descriptor, cs: int, payloadLen: int)
    requires Normal(cs) && 0 <= blob.size && CountOf(blob.size, cs) <= MAX_CHUNKS
    ensures ValidChunkShape(c, blob.hash, blob.size, cs, payloadLen) <==>
              c in PlanOf(blob, cs) && payloadLen == LengthOf(c, cs)
  {
    InPlanOf(c, blob, cs);
    if c.size == blob.size && blob.size > 0 && 0 <= c.offset && c.offset % cs == 0 {
      var i := c.offset / cs;
      assert c.offset == i * cs;
      MultiplesBelow(blob.size, cs, i);
    }
    hide PlanOf;
  }

  /** A blob too large to plan, or of negative size, has no acceptable chunk at all. */
  lemma ReceiverRejectsUnplannable(c: Chunk, blob: Descriptor, cs: int, payloadLen: int)
    requires Normal(cs) && (blob.size < 0 || CountOf(blob.size, cs) > MAX_CHUNKS)
    ensures !ValidChunkShape(c, blob.hash, blob.size, cs, payloadLen)
  {
  }

  /** The host sends a requested chunk exactly when the plan of the requested file has it. */
  lemma SenderAcceptsPlan(c: Chunk, blob: Descriptor, cs: int)
    requires Normal(cs) && 0 <= blob.size && CountOf(blob.size, cs) <= MAX_CHUNKS
    ensures c.hash == blob.hash && ValidSendChunk(c, blob.size, cs) <==> c in PlanOf(blob, cs)
  {
    InPlanOf(c, blob, cs);
    if c.size == blob.size && blob.size > 0 && 0 <= c.offset && c.offset % cs == 0 {
      var i := c.offset / cs;
      assert c.offset == i * cs;
      MultiplesBelow(blob.size, cs, i);
    }
    hide PlanOf;
  }

  // ---- The plan tiles each blob ----

  ghost predicate Covers(c: Chunk, cs: int, x: int) {
    c.offset <= x < c.offset + LengthOf(c, cs)
  }

  /** Every byte of a blob lies in exactly one of its chunks. */
  lemma PlanTiles(blob: Descriptor, cs: int, x: int)
    requires 0 <= x < blob.size && 0 < cs
    ensures exists c :: c in PlanOf(blob, cs) && Covers(c, cs, x)
    ensures forall c, d :: c in PlanOf(blob, cs) && d in PlanOf(blob, cs) && Covers(c, cs, x) && Covers(d, cs, x) ==> c == d
  {
    var i := x / cs;
    assert x == i * cs + x % cs;
    MultiplesBelow(blob.size, cs, i);
    var home := PlanOf(blob, cs)[i];
    assert home in PlanOf(blob, cs) && Covers(home, cs, x);
    forall c | c in PlanOf(blob, cs) && Covers(c, cs, x)
      ensures c == home
    {
      var k :| 0 <= k < CountOf(blob.size, cs) && PlanOf(blob, cs)[k] == c;
      MultiplesApart(k, i, cs);
      MultiplesApart(i, k, cs);
    }
  }

  lemma MultiplesApart(k: int, i: int, cs: int)
    requires 0 < cs
    ensures k < i ==> k * cs + cs <= i * cs
  {
    if k < i {
      MulMonotone(k + 1, i, cs);
      assert (k + 1) * cs == k * cs + cs;
    }
  }

  /** No chunk reaches past the blob, and only the one chunk of an empty blob is empty. */
  lemma PlanStaysInside(blob: Descriptor, cs: int, c: Chunk)
    requires 0 <= blob.size && 0 < cs && c in PlanOf(blob, cs)
    ensures 0 <= c.offset && c.offset + LengthOf(c, cs) <= blob.size
    ensures 0 <= LengthOf(c, cs) <= cs && (LengthOf(c, cs) == 0 <==> blob.size == 0)
    ensures BlobChunkPayloadLen(c, cs) == if NormalizeChunkSize(cs).None? then None else Some(LengthOf(c, cs))
  {
    InPlanOf(c, blob, cs);
    hide PlanOf;
  }

  // ---- Sums ----

  lemma {:induction false} PlanAllCount(blobs: seq<Descriptor>, cs: int)
    requires Sizes(blobs) && 0 < cs
    ensures |PlanAll(blobs, cs)| == TotalCount(blobs, cs)
  {
    if blobs != [] {
      PlanAllCount(blobs[..|blobs| - 1], cs);
    }
  }

  lemma {:induction false} TotalLengthSplit(a: seq<Chunk>, b: seq<Chunk>, cs: int)
    ensures TotalLength(a + b, cs) == TotalLength(a, cs) + TotalLength(b, cs)
  {
    if b == [] {
      assert a + b == a;
    } else {
      assert (a + b)[..|a + b| - 1] == a + b[..|b| - 1];
      TotalLengthSplit(a, b[..|b| - 1], cs);
    }
  }

  lemma LengthOfPlanned(blob: Descriptor, cs: int, i: nat)
    requires 0 <= blob.size && 0 < cs && i < CountOf(blob.size, cs)
    ensures LengthOf(PlanOf(blob, cs)[i], cs) == if i + 1 < CountOf(blob.size, cs) then cs else blob.size - i * cs
  {
    if blob.size > 0 {
      MultiplesBelow(blob.size, cs, i);
      MultiplesBelow(blob.size, cs, i + 1);
      assert (i + 1) * cs == i * cs + cs;
    }
  }

  /** The first `k` chunks of a blob end where chunk `k` starts, or at the end of the blob. */
  lemma {:induction false} PrefixLength(blob: Descriptor, cs: int, k: nat)
    requires 0 <= blob.size && 0 < cs && k <= CountOf(blob.size, cs)
    ensures TotalLength(PlanOf(blob, cs)[..k], cs) ==
              if k < CountOf(blob.size, cs) then k * cs else blob.size
    decreases k
  {
    if k > 0 {
      var front := PlanOf(blob, cs)[..k];
      assert front[..k - 1] == PlanOf(blob, cs)[..k - 1];
      assert front[k - 1] == PlanOf(blob, cs)[k - 1];
      PrefixLength(blob, cs, k - 1);
      LengthOfPlanned(blob, cs, k - 1);
      assert (k - 1) * cs + cs == k * cs;
      hide PlanOf, CountOf, LengthOf;
    }
  }

  /** The payloads of a plan add up to the bytes of its blobs. */
  lemma {:induction false} PlanLengths(blobs: seq<Descriptor>, cs: int)
    requires Sizes(blobs) && 0 < cs
    ensures TotalLength(PlanAll(blobs, cs), cs) == TotalSize(blobs)
  {
    if blobs != [] {
      var front, last := blobs[..|blobs| - 1], blobs[|blobs| - 1];
      PlanLengths(front, cs);
      TotalLengthSplit(PlanAll(front, cs), PlanOf(last, cs), cs);
      PrefixLength(last, cs, CountOf(last.size, cs));
      assert PlanOf(last, cs)[..CountOf(last.size, cs)] == PlanOf(last, cs);
    }
  }

  // ---- Keys ----

  /** keyBlobChunk: what both ends identify a chunk by. */
  function KeyOf(c: Chunk): (string, int) {
    (c.hash, c.offset)
  }

  lemma {:induction false} InPlanAll(c: Chunk, blobs: seq<Descriptor>, cs: int)
    requires Sizes(blobs) && 0 < cs
    ensures c in PlanAll(blobs, cs) <==> exists b :: b in blobs && c in PlanOf(b, cs)
  {
    if blobs != [] {
      var front, last := blobs[..|blobs| - 1], blobs[|blobs| - 1];
      assert blobs == front + [last];
      InPlanAll(c, front, cs);
      hide PlanOf;
    }
  }

  ghost predicate DistinctKeys(chunks: seq<Chunk>) {
    forall i, j :: 0 <= i < j < |chunks| ==> KeyOf(chunks[i]) != KeyOf(chunks[j])
  }

  /** No two chunks of a plan share a key. */
  lemma {:induction false} PlanKeysDistinct(blobs: seq<Descriptor>, cs: int)
    requires Sizes(blobs) && 0 < cs && DistinctHashes(blobs)
    ensures DistinctKeys(PlanAll(blobs, cs))
  {
    if blobs != [] {
      var front, last := blobs[..|blobs| - 1], blobs[|blobs| - 1];
      PlanKeysDistinct(front, cs);
      var a, b := PlanAll(front, cs), PlanOf(last, cs);
      forall i, j | 0 <= i < |a| && 0 <= j < |b|
        ensures KeyOf(a[i]) != KeyOf(b[j])
      {
        InPlanAll(a[i], front, cs);
        var d :| d in front && a[i] in PlanOf(d, cs);
        var k :| 0 <= k < |front| && front[k] == d;
        assert blobs[k] == d && blobs[|blobs| - 1] == last;
      }
      forall i, j | 0 <= i < j < |b|
        ensures KeyOf(b[i]) != KeyOf(b[j])
      {
        assert (i + 1) * cs == i * cs + cs;
        MulMonotone(i + 1, j, cs);
      }
    }
  }

  // ---- The planning loops ----

  lemma {:induction false} CountGrows(blobs: seq<Descriptor>, cs: int, k: nat)
    requires Sizes(blobs) && 0 < cs && k <= |blobs|
    ensures TotalCount(blobs[..k], cs) <= TotalCount(blobs, cs)
    decreases |blobs|
  {
    if k < |blobs| {
      assert blobs[..|blobs| - 1][..k] == blobs[..k];
      CountGrows(blobs[..|blobs| - 1], cs, k);
    } else {
      assert blobs[..k] == blobs;
    }
  }

  lemma CountAgrees(size: int, cs: int)
    requires Normal(cs)
    ensures BlobChunkCount(size, cs).Some? <==> 0 <= size && CountOf(size, cs) <= MAX_CHUNKS
    ensures BlobChunkCount(size, cs).Some? ==> BlobChunkCount(size, cs).value == CountOf(size, cs)
  {
  }

  /** A list whose first part already breaks a rule cannot be planned. */
  lemma NotPlannable(blobs: seq<Descriptor>, cs: int, i: nat)
    requires Normal(cs) && i < |blobs|
    requires || !ValidHash(blobs[i].hash)
             || blobs[i].size < 0
             || (exists k :: 0 <= k < i && blobs[k].hash == blobs[i].hash)
             || (Sizes(blobs[..i]) && TotalCount(blobs[..i], cs) + CountOf(blobs[i].size, cs) > MAX_CHUNKS)
    ensures !Plannable(blobs, cs)
  {
    assert blobs[i] in blobs;
    if Sizes(blobs) {
      CountGrows(blobs, cs, i + 1);
      assert blobs[..i + 1][..i] == blobs[..i];
      hide CountOf, ValidHash;
    }
  }

  lemma CountStep(blobs: seq<Descriptor>, cs: int, i: nat)
    requires 0 < cs && i < |blobs| && Sizes(blobs[..i]) && 0 <= blobs[i].size
    ensures Sizes(blobs[..i + 1])
    ensures TotalCount(blobs[..i + 1], cs) == TotalCount(blobs[..i], cs) + CountOf(blobs[i].size, cs)
  {
    assert blobs[..i + 1] == blobs[..i] + [blobs[i]];
    assert blobs[..i + 1][..i] == blobs[..i];
    hide CountOf;
  }

  /** The hashes of the first `i` blobs are the seen ones, all different and well formed. */
  ghost predicate HashesSeen(blobs: seq<Descriptor>, i: nat, seen: set<string>)
    requires i <= |blobs|
  {
    && (forall k :: 0 <= k < i ==> ValidHash(blobs[k].hash))
    && (forall j, k :: 0 <= j < k < i ==> blobs[j].hash != blobs[k].hash)
    && (forall h :: h in seen <==> exists k :: 0 <= k < i && blobs[k].hash == h)
  }

  lemma SeenStep(blobs: seq<Descriptor>, i: nat, seen: set<string>)
    requires i < |blobs| && HashesSeen(blobs, i, seen)
    ensures blobs[i].hash in seen <==> exists k :: 0 <= k < i && blobs[k].hash == blobs[i].hash
    ensures ValidHash(blobs[i].hash) && blobs[i].hash !in seen ==> HashesSeen(blobs, i + 1, seen + {blobs[i].hash})
  {
    hide ValidHash;
    var more := seen + {blobs[i].hash};
    forall h
      ensures h in more <==> exists k :: 0 <= k < i + 1 && blobs[k].hash == h
    {
      if h == blobs[i].hash {
        assert blobs[i].hash == h;
      }
    }
  }

  method CheckBlobs(blobs: seq<Descriptor>, cs: int) returns (ok: bool)
    requires Normal(cs)
    ensures ok <==> Plannable(blobs, cs)
  {
    assert Sizes(blobs[..0]) && TotalCount(blobs[..0], cs) == 0;
    assert HashesSeen(blobs, 0, {});
    hide ValidHash, BlobChunkCount, CountOf, TotalCount, Plannable, Sizes, HashesSeen;
    var total := 0;
    var seen: set<string> := {};
    for i := 0 to |blobs|
      invariant HashesSeen(blobs, i, seen)
      invariant Sizes(blobs[..i]) && total == TotalCount(blobs[..i], cs) <= MAX_CHUNKS
    {
      var blob := blobs[i];
      SeenStep(blobs, i, seen);
      if !ValidHash(blob.hash) || blob.hash in seen {
        NotPlannable(blobs, cs, i);
        return false;
      }
      seen := seen + {blob.hash};
      CountAgrees(blob.size, cs);
      match BlobChunkCount(blob.size, cs)
      case None =>
        NotPlannable(blobs, cs, i);
        return false;
      case Some(count) =>
        if count > MAX_CHUNKS - total {
          NotPlannable(blobs, cs, i);
          return false;
        }
        CountStep(blobs, cs, i);
        total := total + count;
    }
    assert blobs[..|blobs|] == blobs;
    AllPlannable(blobs, cs);
    ok := true;
  }

  lemma AllPlannable(blobs: seq<Descriptor>, cs: int)
    requires Normal(cs) && Sizes(blobs) && TotalCount(blobs, cs) <= MAX_CHUNKS
    requires forall k :: 0 <= k < |blobs| ==> ValidHash(blobs[k].hash)
    requires forall j, k :: 0 <= j < k < |blobs| ==> blobs[j].hash != blobs[k].hash
    ensures Plannable(blobs, cs)
  {
    hide ValidHash, TotalCount;
  }

  /** The chunks of one blob. The offset is an int64, so its last step past the end must not wrap around. */
  method ChunksOf(blob: Descriptor, cs: int) returns (chunks: seq<Chunk>)
    requires Normal(cs) && 0 <= blob.size && CountOf(blob.size, cs) <= MAX_CHUNKS
    ensures chunks == PlanOf(blob, cs)
  {
    if blob.size == 0 {
      return [Chunk(blob.hash, 0, 0)];
    }
    CountBoundsSize(blob.size, cs);
    var size, step := blob.size as int64, cs as int64;
    var offset: int64 := 0;
    chunks := [];
    while offset < size
      invariant |chunks| <= CountOf(blob.size, cs)
      invariant offset as int == |chunks| * cs
      invariant chunks == PlanOf(blob, cs)[..|chunks|]
      decreases size as int - offset as int
    {
      MultiplesBelow(blob.size, cs, |chunks|);
      chunks := chunks + [Chunk(blob.hash, blob.size, offset as int)];
      offset := offset + step;
    }
    MultiplesBelow(blob.size, cs, |chunks|);
  }

  /** PlanBlobChunks: refuses what cannot be planned, and otherwise returns the plan. */
  method PlanBlobChunks(blobs: seq<Descriptor>, chunkSize: int) returns (ok: bool, chunks: seq<Chunk>)
    ensures ok <==> Plannable(blobs, chunkSize)
    ensures ok ==> chunks == PlanAll(blobs, NormalizeChunkSize(chunkSize).value)
    ensures ok ==> chunkSize <= 0x400_0000 && Sizes(blobs) && chunks == PlanAll(blobs, if chunkSize <= 0 then 0x40_0000 else chunkSize)
  {
    chunks := [];
    match NormalizeChunkSize(chunkSize)
    case None => return false, [];
    case Some(cs) =>
      ok := CheckBlobs(blobs, cs);
      if !ok {
        return;
      }
      for i := 0 to |blobs|
        invariant Sizes(blobs[..i]) && chunks == PlanAll(blobs[..i], cs)
      {
        assert blobs[..i + 1][..i] == blobs[..i];
        CountGrows(blobs, cs, i + 1);
        var more := ChunksOf(blobs[i], cs);
        chunks := chunks + more;
      }
      assert blobs[..|blobs|] == blobs;
  }
}
