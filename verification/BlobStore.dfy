/** The content-addressed blob store of one data root, with its cache of verified files. */
module BlobStores {
  import opened FileTree
  import opened Entries
  import opened BlobChunks
  import opened BlobSources

  datatype BlobFile = BlobFile(content: Bytes, modTime: int)

  datatype Stamp = Stamp(size: nat, modTime: int)

  datatype StoreState = StoreState(files: map<string, BlobFile>, seen: map<string, Stamp>)

  function StampOf(f: BlobFile): Stamp {
    Stamp(|f.content|, f.modTime)
  }

  /** The file under this hash is what the hash says, and has the wanted size if one is given. */
  predicate Usable(digest: Digest, files: map<string, BlobFile>, hash: string, size: int) {
    && ValidHash(hash) && hash in files
    && (size >= 0 ==> |files[hash].content| == size)
    && digest(files[hash].content) == hash
  }

  /** verifiedPath: a file whose stamp is remembered is not read again. */
  function VerifiedPath(digest: Digest, s: StoreState, hash: string, size: int): (bool, StoreState) {
    if !ValidHash(hash) || hash !in s.files || (size >= 0 && |s.files[hash].content| != size) then (false, s)
    else if hash in s.seen && s.seen[hash] == StampOf(s.files[hash]) then (true, s)
    else if digest(s.files[hash].content) != hash then (false, s)
    else (true, s.(seen := s.seen[hash := StampOf(s.files[hash])]))
  }

  /** Whatever the cache vouches for has the right content. */
  ghost predicate Honest(digest: Digest, s: StoreState) {
    forall h :: h in s.seen && h in s.files && s.seen[h] == StampOf(s.files[h]) ==> digest(s.files[h].content) == h
  }

  /** Writes behind the store's back: a file appears, changes or vanishes, and a change shows in its stamp. */
  ghost predicate StampedChange(s: StoreState, t: StoreState) {
    && t.seen == s.seen
    && forall h :: h in t.files && !(h in s.files && s.files[h] == t.files[h]) && h in t.seen ==>
         t.seen[h] != Stamp(|t.files[h].content|, t.files[h].modTime)
  }

  /**
   The cache is never wrong: a lookup succeeds exactly when the file has the wanted content,
   whatever was written behind the store's back as long as the stamp gives it away.
   */
  lemma VerifiedIffUsable(digest: Digest, s: StoreState, hash: string, size: int)
    requires Honest(digest, s)
    ensures VerifiedPath(digest, s, hash, size).0 <==> Usable(digest, s.files, hash, size)
    ensures Honest(digest, VerifiedPath(digest, s, hash, size).1)
    ensures VerifiedPath(digest, s, hash, size).1.files == s.files
  {
    hide ValidHash;
  }

  lemma HonestAfterChange(digest: Digest, s: StoreState, t: StoreState)
    requires Honest(digest, s) && StampedChange(s, t)
    ensures Honest(digest, t)
  {
    forall h | h in t.seen && h in t.files && t.seen[h] == StampOf(t.files[h])
      ensures digest(t.files[h].content) == h
    {
      assert h in s.files && s.files[h] == t.files[h];
    }
  }

  /** A lookup, which may fill the cache, or a write behind the store's back. */
  datatype Use = LookUp(hash: string, size: int) | Written(files: map<string, BlobFile>)

  ghost function UseStore(digest: Digest, s: StoreState, uses: seq<Use>): StoreState {
    if uses == [] then s
    else
      var before := UseStore(digest, s, uses[..|uses| - 1]);
      match uses[|uses| - 1]
      case LookUp(hash, size) => VerifiedPath(digest, before, hash, size).1
      case Written(files) => before.(files := files)
  }

  /** Whenever something was written, the stamps of what changed gave it away. */
  ghost predicate WritesShow(digest: Digest, s: StoreState, uses: seq<Use>) {
    forall k :: 0 <= k < |uses| && uses[k].Written? ==>
      StampedChange(UseStore(digest, s, uses[..k]), UseStore(digest, s, uses[..k]).(files := uses[k].files))
  }

  /** After any lookups and any writes that show, a lookup still succeeds exactly when the file is the wanted one. */
  lemma {:induction false} CacheNeverWrong(digest: Digest, s: StoreState, uses: seq<Use>, hash: string, size: int)
    requires Honest(digest, s) && WritesShow(digest, s, uses)
    ensures var t := UseStore(digest, s, uses);
            Honest(digest, t) && (VerifiedPath(digest, t, hash, size).0 <==> Usable(digest, t.files, hash, size))
  {
    hide Honest, VerifiedPath, Usable, StampedChange;
    if uses != [] {
      var front, last := uses[..|uses| - 1], uses[|uses| - 1];
      forall k | 0 <= k < |front| && front[k].Written?
        ensures StampedChange(UseStore(digest, s, front[..k]), UseStore(digest, s, front[..k]).(files := front[k].files))
      {
        assert uses[..k] == front[..k] && uses[k] == front[k];
      }
      CacheNeverWrong(digest, s, front, hash, size);
      var before := UseStore(digest, s, front);
      match last
      case LookUp(h, n) => VerifiedIffUsable(digest, before, h, n);
      case Written(files) => HonestAfterChange(digest, before, before.(files := files));
    }
    VerifiedIffUsable(digest, UseStore(digest, s, uses), hash, size);
  }

  /** The hashes of file entries that the store cannot serve, judged by the first entry of each. */
  ghost predicate IsMissing(digest: Digest, files: map<string, BlobFile>, entries: seq<Entry>, hash: string) {
    exists i :: IsSource(entries, hash, i) && !Usable(digest, files, hash, entries[i].size)
  }

  lemma NextMissing(digest: Digest, files: map<string, BlobFile>, entries: seq<Entry>, k: nat)
    requires k < |entries| && entries[k].kind == KindFile && entries[k].hash != ""
    requires forall j :: 0 <= j < k ==> !(entries[j].kind == KindFile && entries[j].hash == entries[k].hash)
    ensures IsSource(entries, entries[k].hash, k)
    ensures IsMissing(digest, files, entries, entries[k].hash) <==> !Usable(digest, files, entries[k].hash, entries[k].size)
  {
    assert IsSource(entries, entries[k].hash, k);
    forall i | IsSource(entries, entries[k].hash, i)
      ensures i == k
    {
      OneSource(entries, entries[k].hash, i, k);
    }
    hide Usable;
  }

  /** The first entry with hash `g` comes before the first with `h`. */
  ghost predicate SourcedBefore(entries: seq<Entry>, g: string, h: string) {
    exists a, b :: IsSource(entries, g, a) && IsSource(entries, h, b) && a < b
  }

  /** Hashes in the order of their first entries, so each once. */
  ghost predicate InEntryOrder(entries: seq<Entry>, hashes: seq<string>) {
    forall i, j :: 0 <= i < j < |hashes| ==> SourcedBefore(entries, hashes[i], hashes[j])
  }

  lemma LaterInOrder(entries: seq<Entry>, hashes: seq<string>, hash: string, k: nat)
    requires InEntryOrder(entries, hashes) && IsSource(entries, hash, k)
    requires forall h :: h in hashes ==> exists j :: IsSource(entries, h, j) && j < k
    ensures InEntryOrder(entries, hashes + [hash])
  {
    forall h | h in hashes
      ensures SourcedBefore(entries, h, hash)
    {
      var a :| IsSource(entries, h, a) && a < k;
      assert IsSource(entries, h, a) && IsSource(entries, hash, k) && a < k;
    }
    hide IsSource, SourcedBefore;
  }

  class BlobStore {
    var files: map<string, BlobFile>
    var seen: map<string, Stamp>

    constructor (onDisk: map<string, BlobFile>)
      ensures State() == StoreState(onDisk, map[])
    {
      files, seen := onDisk, map[];
    }

    ghost function State(): StoreState
      reads this
    {
      StoreState(files, seen)
    }

    method Has(digest: Digest, hash: string, size: int) returns (ok: bool)
      requires Honest(digest, State())
      modifies this`seen
      ensures ok <==> Usable(digest, files, hash, size)
      ensures Honest(digest, State())
      ensures ok ==> hash in seen && seen[hash] == Stamp(|files[hash].content|, files[hash].modTime)
      ensures forall h :: h != hash ==> (h in seen <==> h in old(seen)) && (h in seen ==> seen[h] == old(seen)[h])
    {
      VerifiedIffUsable(digest, State(), hash, size);
      hide ValidHash, Honest, Usable;
      ghost var before := State();
      if !ValidHash(hash) || hash !in files || (size >= 0 && |files[hash].content| != size) {
        return false;
      }
      if hash in seen && seen[hash] == StampOf(files[hash]) {
        return true;
      }
      if digest(files[hash].content) != hash {
        return false;
      }
      seen := seen[hash := StampOf(files[hash])];
      assert VerifiedPath(digest, before, hash, size) == (true, State());
      ok := true;
    }

    /** MissingHashes: each unusable content hash once, in the order of the entries. */
    method MissingHashes(digest: Digest, entries: seq<Entry>) returns (missing: seq<string>)
      requires Honest(digest, State())
      modifies this`seen
      ensures Honest(digest, State())
      ensures forall h :: h in missing <==> IsMissing(digest, files, entries, h)
      ensures InEntryOrder(entries, missing)
    {
      missing := [];
      var met: set<string> := {};
      for k := 0 to |entries|
        invariant Honest(digest, State()) && files == old(files)
        invariant forall h :: h in met <==> exists j :: 0 <= j < k && entries[j].kind == KindFile && entries[j].hash == h && h != ""
        invariant forall h :: h in missing <==> h in met && IsMissing(digest, files, entries, h)
        invariant InEntryOrder(entries, missing)
        invariant forall h :: h in missing ==> exists j :: IsSource(entries, h, j) && j < k
      {
        hide IsMissing, Usable, Honest, ValidHash, InEntryOrder;
        var e := entries[k];
        if e.kind == KindFile && e.hash != "" && e.hash !in met {
          NextMissing(digest, files, entries, k);
          LaterInOrder(entries, missing, e.hash, k);
          met := met + {e.hash};
          var ok := Has(digest, e.hash, e.size);
          if !ok {
            missing := missing + [e.hash];
          }
        }
      }
      forall h | IsMissing(digest, files, entries, h)
        ensures h in met
      {
        var i :| IsSource(entries, h, i) && !Usable(digest, files, h, entries[i].size);
      }
    }

    /**
     Store: copies `size` bytes of the source into place only if they have the wanted digest.
     Success makes the blob usable; failure leaves every file as it was.
     */
    method Store(digest: Digest, hash: string, size: int, source: Bytes, now: int) returns (ok: bool, ghost fault: bool)
      requires Honest(digest, State())
      modifies this
      ensures Honest(digest, State())
      ensures ok ==> Usable(digest, files, hash, size) && 0 <= size <= |source|
      ensures !ok ==> files == old(files)
      ensures 0 <= size <= |source| && ValidHash(hash) && digest(source[..size]) == hash && !fault ==> ok
      ensures ok ==> if Usable(digest, old(files), hash, size) then files == old(files)
                     else files == old(files)[hash := BlobFile(source[..size], now)]
      ensures !(size >= 0 && Usable(digest, old(files), hash, size)) && size <= |source| && size >= 0 && digest(source[..size]) != hash ==> !ok
    {
      fault := false;
      if size < 0 || !ValidHash(hash) {
        return false, false;
      }
      var held := Has(digest, hash, size);
      if held {
        return size <= |source|, false;
      }
      var broken: bool := *;
      fault := broken;
      if broken || size > |source| || digest(source[..size]) != hash {
        return false, broken;
      }
      var file := BlobFile(source[..size], now);
      files := files[hash := file];
      seen := seen[hash := StampOf(file)];
      ok := true;
    }
  }

  ghost predicate Describes(entries: seq<Entry>, hash: string, blob: Descriptor) {
    exists i :: IsSource(entries, hash, i) && blob == Descriptor(hash, entries[i].size)
  }

  /** blobDescriptorsForHashes: sizes from the first file entry of each hash; an unknown hash is an error. */
  method BlobDescriptorsForHashes(entries: seq<Entry>, hashes: seq<string>) returns (ok: bool, blobs: seq<Descriptor>)
    ensures ok <==> forall h :: h in hashes ==> exists i :: IsSource(entries, h, i)
    ensures ok ==> |blobs| == |hashes|
    ensures ok ==> forall k :: 0 <= k < |hashes| ==> Describes(entries, hashes[k], blobs[k])
  {
    var byHash := FirstByHash(entries);
    blobs := [];
    for n := 0 to |hashes|
      invariant |blobs| == n
      invariant forall k :: 0 <= k < n ==> Describes(entries, hashes[k], blobs[k])
    {
      if hashes[n] !in byHash {
        assert hashes[n] in hashes;
        return false, blobs;
      }
      ghost var i :| IsSource(entries, hashes[n], i);
      blobs := blobs + [Descriptor(hashes[n], byHash[hashes[n]].size)];
      assert Describes(entries, hashes[n], blobs[n]);
    }
    forall h | h in hashes
      ensures exists i :: IsSource(entries, h, i)
    {
      var k :| 0 <= k < |hashes| && hashes[k] == h;
      assert Describes(entries, hashes[k], blobs[k]);
    }
    ok := true;
  }
}
