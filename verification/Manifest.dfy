/** Comparing and combining manifests. */
module Manifest {
  import opened FileTree
  import opened Entries
  import opened PathOrder

  type EntryMap = map<Path, Entry>

  /** The map a loop over a manifest builds: for a repeated path the last entry wins. */
  function ByPath(entries: seq<Entry>): EntryMap {
    if entries == [] then map[]
    else ByPath(entries[..|entries| - 1])[entries[|entries| - 1].path := entries[|entries| - 1]]
  }

  function SameExceptMode(a: Entry, b: Entry): bool {
    a.kind == b.kind && a.hash == b.hash && a.size == b.size && a.link == b.link
  }

  function SameEntry(a: Entry, b: Entry, ignoreMode: bool): bool {
    SameExceptMode(a, b) && (ignoreMode || a.mode == b.mode)
  }

  lemma {:induction false} ByPathMeaning(entries: seq<Entry>)
    ensures ByPath(entries).Keys == PathsOf(entries)
    ensures forall p :: p in ByPath(entries) ==> ByPath(entries)[p] in entries && ByPath(entries)[p].path == p
    ensures UniquePaths(entries) ==> forall e :: e in entries ==> ByPath(entries)[e.path] == e
  {
    if entries != [] {
      var front, last := entries[..|entries| - 1], entries[|entries| - 1];
      assert entries == front + [last];
      ByPathMeaning(front);
    }
  }

  /** The last entry for a path is the one that counts. */
  lemma {:induction false} ByPathLast(entries: seq<Entry>, p: Path)
    ensures p in ByPath(entries) <==> exists k :: 0 <= k < |entries| && entries[k].path == p
    ensures p in ByPath(entries) ==>
              exists k :: 0 <= k < |entries| && entries[k] == ByPath(entries)[p] && entries[k].path == p &&
                          forall j :: k < j < |entries| ==> entries[j].path != p
  {
    if entries != [] {
      ByPathLast(entries[..|entries| - 1], p);
      if entries[|entries| - 1].path != p && p in ByPath(entries) {
        var front := entries[..|entries| - 1];
        var k :| 0 <= k < |front| && front[k] == ByPath(front)[p] && front[k].path == p &&
                 forall j :: k < j < |front| ==> front[j].path != p;
        assert entries[k] == ByPath(entries)[p];
      }
    }
  }

  /** An entry of `after` that is new or differs from its counterpart in `before`. */
  predicate IsChanged(before: EntryMap, after: EntryMap, ignoreMode: bool, p: Path) {
    p in after && (p !in before || !SameEntry(before[p], after[p], ignoreMode))
  }

  predicate SortedByPath(entries: seq<Entry>) {
    forall i, j :: 0 <= i < j < |entries| ==> !PathLess(entries[j].path, entries[i].path)
  }

  predicate DeepestFirst(paths: seq<Path>) {
    forall i, j :: 0 <= i < j < |paths| ==> |paths[i]| >= |paths[j]|
  }

  ghost predicate Distinct<T>(s: seq<T>) {
    forall i, j :: 0 <= i < j < |s| ==> s[i] != s[j]
  }

  /** A change set from `before` to `after`: exactly the changed entries and the vanished paths, each once, in order. */
  ghost predicate IsDiff(before: seq<Entry>, after: seq<Entry>, ignoreMode: bool, changed: seq<Entry>, deleted: seq<Path>) {
    var b, a := ByPath(before), ByPath(after);
    && (forall e :: e in changed <==> IsChanged(b, a, ignoreMode, e.path) && e == a[e.path])
    && (forall p :: p in deleted <==> p in b && p !in a)
    && UniquePaths(changed) && Distinct(deleted)
    && SortedByPath(changed) && DeepestFirst(deleted)
  }

  // ---- Sorting ----

  /** The place of `e` in a sorted list: after every entry that does not sort behind it. */
  method SlotFor(sorted: seq<Entry>, e: Entry) returns (k: nat)
    ensures k <= |sorted|
    ensures forall j :: 0 <= j < k ==> !PathLess(e.path, sorted[j].path)
    ensures k < |sorted| ==> PathLess(e.path, sorted[k].path)
  {
    k := 0;
    while k < |sorted| && !PathLess(e.path, sorted[k].path)
      invariant k <= |sorted|
      invariant forall j :: 0 <= j < k ==> !PathLess(e.path, sorted[j].path)
    {
      k := k + 1;
    }
  }

  method SortByPath(entries: seq<Entry>) returns (sorted: seq<Entry>)
    ensures SortedByPath(sorted) && multiset(sorted) == multiset(entries)
  {
    hide SortedByPath, PathLess;
    assert SortedByPath([]) by {
      SortedEmpty();
    }
    sorted := [];
    for i := 0 to |entries|
      invariant SortedByPath(sorted) && multiset(sorted) == multiset(entries[..i])
    {
      var k := SlotFor(sorted, entries[i]);
      InsertSorted(sorted, k, entries[i]);
      assert sorted == sorted[..k] + sorted[k..];
      assert entries[..i + 1] == entries[..i] + [entries[i]];
      sorted := sorted[..k] + [entries[i]] + sorted[k..];
    }
    assert entries[..|entries|] == entries;
  }

  lemma SortedEmpty()
    ensures SortedByPath([])
  {
  }

  lemma InsertSorted(s: seq<Entry>, k: nat, e: Entry)
    requires SortedByPath(s) && k <= |s|
    requires forall j :: 0 <= j < k ==> !PathLess(e.path, s[j].path)
    requires k < |s| ==> PathLess(e.path, s[k].path)
    ensures SortedByPath(s[..k] + [e] + s[k..])
  {
    var r := s[..k] + [e] + s[k..];
    forall j | k <= j < |s|
      ensures !PathLess(s[j].path, e.path)
    {
      StringLessTotal(Name(e.path), Name(s[k].path));
      StringLessTotal(Name(s[k].path), Name(s[k].path));
      StringLessTransitive(Name(e.path), Name(s[k].path), Name(s[j].path));
    }
    forall i, j | 0 <= i < j < |r|
      ensures !PathLess(r[j].path, r[i].path)
    {
      assert r[i] == if i < k then s[i] else if i == k then e else s[i - 1];
      assert r[j] == if j < k then s[j] else if j == k then e else s[j - 1];
    }
  }

  method SortByDepth(paths: seq<Path>) returns (sorted: seq<Path>)
    ensures DeepestFirst(sorted) && multiset(sorted) == multiset(paths)
  {
    sorted := [];
    for i := 0 to |paths|
      invariant DeepestFirst(sorted) && multiset(sorted) == multiset(paths[..i])
    {
      var k := 0;
      while k < |sorted| && |sorted[k]| >= |paths[i]|
        invariant k <= |sorted|
        invariant forall j :: 0 <= j < k ==> |sorted[j]| >= |paths[i]|
      {
        k := k + 1;
      }
      assert sorted == sorted[..k] + sorted[k..];
      assert paths[..i + 1] == paths[..i] + [paths[i]];
      sorted := sorted[..k] + [paths[i]] + sorted[k..];
    }
    assert paths[..|paths|] == paths;
  }

  // ---- Diff ----

  method BuildByPath(entries: seq<Entry>) returns (m: EntryMap)
    ensures m == ByPath(entries)
  {
    m := map[];
    for i := 0 to |entries|
      invariant m == ByPath(entries[..i])
    {
      assert entries[..i + 1][..i] == entries[..i];
      m := m[entries[i].path := entries[i]];
    }
    assert entries[..|entries|] == entries;
  }

  lemma SameElements<T(!new)>(s: seq<T>, t: seq<T>)
    requires multiset(s) == multiset(t)
    ensures forall x :: x in s <==> x in t
    ensures Distinct(s) <==> Distinct(t)
  {
    forall x
      ensures x in s <==> x in t
    {
      assert x in s <==> x in multiset(s);
      assert x in t <==> x in multiset(t);
    }
    DistinctMultiset(s);
    DistinctMultiset(t);
  }

  lemma {:induction false} DistinctMultiset<T(!new)>(s: seq<T>)
    ensures Distinct(s) <==> forall x :: multiset(s)[x] <= 1
  {
    if s != [] {
      var front, last := s[..|s| - 1], s[|s| - 1];
      assert s == front + [last];
      DistinctMultiset(front);
      if Distinct(s) {
        assert last !in front;
        assert last !in multiset(front);
      } else if Distinct(front) {
        var i, j :| 0 <= i < j < |s| && s[i] == s[j];
        assert j == |s| - 1 && front[i] == last;
        assert last in multiset(front);
        assert multiset(s)[last] > 1;
      } else {
        var x :| multiset(front)[x] > 1;
        assert multiset(s)[x] > 1;
      }
    }
  }

  lemma DistinctPaths(entries: seq<Entry>, m: EntryMap)
    requires forall e :: e in entries ==> e.path in m && m[e.path] == e
    ensures Distinct(entries) <==> UniquePaths(entries)
  {
  }

  method CollectChanged(beforeMap: EntryMap, afterMap: EntryMap, ignoreMode: bool) returns (changed: seq<Entry>)
    requires forall p :: p in afterMap ==> afterMap[p].path == p
    ensures forall e :: e in changed <==> IsChanged(beforeMap, afterMap, ignoreMode, e.path) && e == afterMap[e.path]
    ensures Distinct(changed)
  {
    changed := [];
    var rest := afterMap.Keys;
    while rest != {}
      invariant rest <= afterMap.Keys
      invariant forall e :: e in changed <==>
        e.path !in rest && IsChanged(beforeMap, afterMap, ignoreMode, e.path) && e == afterMap[e.path]
      invariant Distinct(changed)
      decreases rest
    {
      var p :| p in rest;
      rest := rest - {p};
      var cur := afterMap[p];
      if p !in beforeMap || !SameEntry(beforeMap[p], cur, ignoreMode) {
        changed := changed + [cur];
      }
    }
  }

  method CollectDeleted(beforeMap: EntryMap, afterMap: EntryMap) returns (deleted: seq<Path>)
    ensures forall p :: p in deleted <==> p in beforeMap && p !in afterMap
    ensures Distinct(deleted)
  {
    deleted := [];
    var rest := beforeMap.Keys;
    while rest != {}
      invariant rest <= beforeMap.Keys
      invariant forall p :: p in deleted <==> p in beforeMap && p !in rest && p !in afterMap
      invariant Distinct(deleted)
      decreases rest
    {
      var p :| p in rest;
      rest := rest - {p};
      if p !in afterMap {
        deleted := deleted + [p];
      }
    }
  }

  /** Nothing that a manifest records of a path differs, except modes if those are to be ignored. */
  ghost predicate Alike(a: Entry, b: Entry, ignoreMode: bool) {
    a.path == b.path && a.kind == b.kind && a.hash == b.hash && a.size == b.size && a.link == b.link && (ignoreMode || a.mode == b.mode)
  }

  /** The difference of manifests that list each path once, entry by entry. */
  lemma DiffMeaning(before: seq<Entry>, after: seq<Entry>, ignoreMode: bool, changed: seq<Entry>, deleted: seq<Path>)
    requires IsDiff(before, after, ignoreMode, changed, deleted) && UniquePaths(before) && UniquePaths(after)
    ensures forall e :: e in changed <==> e in after && forall b :: b in before ==> !Alike(b, e, ignoreMode)
    ensures forall p :: p in deleted <==> p in PathsOf(before) && p !in PathsOf(after)
  {
    ByPathMeaning(before);
    ByPathMeaning(after);
    hide ByPath, UniquePaths, Distinct, SortedByPath, DeepestFirst;
  }

  /** Diff: walks both maps in an arbitrary order, then sorts. */
  method Diff(before: seq<Entry>, after: seq<Entry>, ignoreMode: bool) returns (changed: seq<Entry>, deleted: seq<Path>)
    ensures IsDiff(before, after, ignoreMode, changed, deleted)
    ensures UniquePaths(before) && UniquePaths(after) ==>
              && (forall e :: e in changed <==> e in after && forall b :: b in before ==> !Alike(b, e, ignoreMode))
              && (forall p :: p in deleted <==> p in PathsOf(before) && p !in PathsOf(after))
  {
    hide SortedByPath, DeepestFirst, SameEntry, ByPath;
    var beforeMap := BuildByPath(before);
    var afterMap := BuildByPath(after);
    ByPathMeaning(after);
    var found := CollectChanged(beforeMap, afterMap, ignoreMode);
    var gone := CollectDeleted(beforeMap, afterMap);
    changed := SortByPath(found);
    deleted := SortByDepth(gone);
    SameElements(changed, found);
    SameElements(deleted, gone);
    DistinctPaths(changed, afterMap);
    hide Distinct;
    if UniquePaths(before) && UniquePaths(after) {
      hide IsDiff, UniquePaths, Alike;
      DiffMeaning(before, after, ignoreMode, changed, deleted);
    }
  }
}
