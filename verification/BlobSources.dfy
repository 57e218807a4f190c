/** Which entry of a change set a content hash stands for. */
module BlobSources {
  import opened Entries

  /** The first changed file entry with this content. */
  ghost predicate IsSource(changed: seq<Entry>, hash: string, i: int) {
    && 0 <= i < |changed|
    && changed[i].kind == KindFile && changed[i].hash == hash && hash != ""
    && forall k :: 0 <= k < i ==> !(changed[k].kind == KindFile && changed[k].hash == hash)
  }

  lemma OneSource(changed: seq<Entry>, hash: string, i: int, j: int)
    requires IsSource(changed, hash, i) && IsSource(changed, hash, j)
    ensures i == j
  {
  }

  /** Every file entry with content has a source, itself or an earlier entry. */
  lemma HasSource(changed: seq<Entry>, hash: string, n: int) returns (k: int)
    requires 0 <= n < |changed| && changed[n].kind == KindFile && changed[n].hash == hash && hash != ""
    ensures IsSource(changed, hash, k)
  {
    k := 0;
    while !(changed[k].kind == KindFile && changed[k].hash == hash)
      invariant 0 <= k <= n
      invariant forall j :: 0 <= j < k ==> !(changed[j].kind == KindFile && changed[j].hash == hash)
      decreases n - k
    {
      k := k + 1;
    }
  }

  /** A file entry whose content no earlier entry has as a source is the first of its content. */
  lemma FirstOne(changed: seq<Entry>, hash: string, n: int)
    requires 0 <= n < |changed| && changed[n].kind == KindFile && changed[n].hash == hash && hash != ""
    requires forall i :: IsSource(changed, hash, i) ==> n <= i
    ensures IsSource(changed, hash, n)
  {
    var k := HasSource(changed, hash, n);
  }

  method FirstByHash(changed: seq<Entry>) returns (byHash: map<string, Entry>)
    ensures forall h :: h in byHash <==> exists i :: IsSource(changed, h, i)
    ensures forall h, i :: IsSource(changed, h, i) ==> h in byHash && byHash[h] == changed[i]
  {
    byHash := map[];
    for n := 0 to |changed|
      invariant forall h :: h in byHash <==> exists i :: IsSource(changed, h, i) && i < n
      invariant forall h, i :: IsSource(changed, h, i) && i < n ==> h in byHash && byHash[h] == changed[i]
    {
      var e := changed[n];
      if e.kind == KindFile && e.hash != "" && e.hash !in byHash {
        FirstOne(changed, e.hash, n);
        byHash := byHash[e.hash := e];
      }
    }
  }
}
