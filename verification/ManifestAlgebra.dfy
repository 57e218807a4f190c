/** How differences combine with filtering, with mode normalisation and with applying them again. */
module ManifestAlgebra {
  import opened FileTree
  import opened Entries
  import opened PathOrder
  import opened Options
  import opened Manifest
  import opened PathMatch

  // ---- Filtering ----

  ghost function KeepEntries(glob: Glob, includes: Option<seq<Include>>, entries: seq<Entry>): seq<Entry> {
    if entries == [] then []
    else
      var front, last := KeepEntries(glob, includes, entries[..|entries| - 1]), entries[|entries| - 1];
      if Included(glob, includes, last.path) then front + [last] else front
  }

  ghost function KeepPaths(glob: Glob, includes: Option<seq<Include>>, paths: seq<Path>): seq<Path> {
    if paths == [] then []
    else
      var front, last := KeepPaths(glob, includes, paths[..|paths| - 1]), paths[|paths| - 1];
      if Included(glob, includes, last) then front + [last] else front
  }

  method FilterEntriesByPath(glob: Glob, entries: seq<Entry>, includes: Option<seq<Include>>) returns (out: seq<Entry>)
    ensures out == KeepEntries(glob, includes, entries)
  {
    var matcher := NewIncludeMatcher(includes);
    if matcher.all {
      KeepAll(glob, includes, entries, matcher);
      return entries;
    }
    hide Accepts, Included;
    out := [];
    for k := 0 to |entries|
      invariant out == KeepEntries(glob, includes, entries[..k])
    {
      assert entries[..k + 1][..k] == entries[..k];
      var matched := Match(glob, matcher, entries[k].path);
      if matched {
        out := out + [entries[k]];
      }
    }
    assert entries[..|entries|] == entries;
  }

  lemma {:induction false} KeepAll(glob: Glob, includes: Option<seq<Include>>, entries: seq<Entry>, m: Matcher)
    requires m.all && forall p :: Accepts(glob, m, p) <==> Included(glob, includes, p)
    ensures KeepEntries(glob, includes, entries) == entries
  {
    if entries != [] {
      KeepAll(glob, includes, entries[..|entries| - 1], m);
      assert Accepts(glob, m, entries[|entries| - 1].path);
    }
  }

  lemma {:induction false} KeepEntriesMembers(glob: Glob, includes: Option<seq<Include>>, entries: seq<Entry>)
    ensures forall e :: e in KeepEntries(glob, includes, entries) <==> e in entries && Included(glob, includes, e.path)
  {
    hide Included;
    if entries != [] {
      var front, last := entries[..|entries| - 1], entries[|entries| - 1];
      assert entries == front + [last];
      KeepEntriesMembers(glob, includes, front);
    }
  }

  /** What a later entry may not do to an earlier one stays so when both are kept. */
  lemma {:induction false} KeepEntriesMeaning(glob: Glob, includes: Option<seq<Include>>, entries: seq<Entry>)
    ensures forall e :: e in KeepEntries(glob, includes, entries) <==> e in entries && Included(glob, includes, e.path)
    ensures UniquePaths(entries) ==> UniquePaths(KeepEntries(glob, includes, entries))
    ensures SortedByPath(entries) ==> SortedByPath(KeepEntries(glob, includes, entries))
  {
    hide Included, PathLess;
    KeepEntriesMembers(glob, includes, entries);
    if entries != [] {
      var front, last := entries[..|entries| - 1], entries[|entries| - 1];
      assert entries == front + [last];
      KeepEntriesMeaning(glob, includes, front);
      var kept := KeepEntries(glob, includes, front);
      EarlierThanLast(entries, kept);
      hide KeepEntries;
      LastStays(kept, last);
    }
  }

  lemma EarlierThanLast(entries: seq<Entry>, kept: seq<Entry>)
    requires entries != [] && forall e :: e in kept ==> e in entries[..|entries| - 1]
    ensures UniquePaths(entries) ==> UniquePaths(entries[..|entries| - 1]) && forall e :: e in kept ==> e.path != entries[|entries| - 1].path
    ensures SortedByPath(entries) ==> SortedByPath(entries[..|entries| - 1]) && forall e :: e in kept ==> !PathLess(entries[|entries| - 1].path, e.path)
  {
    hide PathLess;
  }

  lemma LastStays(kept: seq<Entry>, last: Entry)
    ensures UniquePaths(kept) && (forall e :: e in kept ==> e.path != last.path) ==> UniquePaths(kept + [last])
    ensures SortedByPath(kept) && (forall e :: e in kept ==> !PathLess(last.path, e.path)) ==> SortedByPath(kept + [last])
  {
    hide PathLess;
  }

  lemma {:induction false} KeepPathsMeaning(glob: Glob, includes: Option<seq<Include>>, paths: seq<Path>)
    ensures forall p :: p in KeepPaths(glob, includes, paths) <==> p in paths && Included(glob, includes, p)
    ensures Distinct(paths) ==> Distinct(KeepPaths(glob, includes, paths))
    ensures DeepestFirst(paths) ==> DeepestFirst(KeepPaths(glob, includes, paths))
  {
    hide Included;
    if paths != [] {
      var front, last := paths[..|paths| - 1], paths[|paths| - 1];
      assert paths == front + [last];
      KeepPathsMeaning(glob, includes, front);
      var kept := KeepPaths(glob, includes, front);
      forall i | 0 <= i < |kept|
        ensures exists j :: 0 <= j < |front| && paths[j] == kept[i]
      {
        assert kept[i] in front;
      }
    }
  }

  ghost function Restricted(glob: Glob, includes: Option<seq<Include>>, m: EntryMap): EntryMap {
    map p | p in m && Included(glob, includes, p) :: m[p]
  }

  lemma {:induction false} KeepAt(glob: Glob, includes: Option<seq<Include>>, entries: seq<Entry>, p: Path)
    ensures p in ByPath(KeepEntries(glob, includes, entries)) <==> p in ByPath(entries) && Included(glob, includes, p)
    ensures p in ByPath(KeepEntries(glob, includes, entries)) ==> ByPath(KeepEntries(glob, includes, entries))[p] == ByPath(entries)[p]
  {
    hide Included;
    if entries != [] {
      var front, last := entries[..|entries| - 1], entries[|entries| - 1];
      KeepAt(glob, includes, front, p);
      var kept := KeepEntries(glob, includes, front);
      assert (kept + [last])[..|kept|] == kept;
    }
  }

  /** Filtering a manifest filters its map, repeated paths included. */
  lemma KeepByPath(glob: Glob, includes: Option<seq<Include>>, entries: seq<Entry>)
    ensures ByPath(KeepEntries(glob, includes, entries)) == Restricted(glob, includes, ByPath(entries))
  {
    hide Included, KeepEntries, ByPath;
    forall p
      ensures p in ByPath(KeepEntries(glob, includes, entries)) <==> p in Restricted(glob, includes, ByPath(entries))
      ensures p in ByPath(KeepEntries(glob, includes, entries)) ==>
                ByPath(KeepEntries(glob, includes, entries))[p] == Restricted(glob, includes, ByPath(entries))[p]
    {
      KeepAt(glob, includes, entries, p);
    }
  }

  /** The difference of two filtered manifests is the filtered difference. */
  lemma FilterCommutesWithDiff(glob: Glob, includes: Option<seq<Include>>, before: seq<Entry>, after: seq<Entry>, ignoreMode: bool, changed: seq<Entry>, deleted: seq<Path>)
    requires IsDiff(before, after, ignoreMode, changed, deleted)
    ensures IsDiff(KeepEntries(glob, includes, before), KeepEntries(glob, includes, after), ignoreMode,
                   KeepEntries(glob, includes, changed), KeepPaths(glob, includes, deleted))
  {
    KeepEntriesMeaning(glob, includes, changed);
    KeepPathsMeaning(glob, includes, deleted);
    KeepByPath(glob, includes, before);
    KeepByPath(glob, includes, after);
    hide Included, KeepEntries, KeepPaths, ByPath, SortedByPath, DeepestFirst, Distinct, UniquePaths, SameEntry;
  }

  /** diffWorkspaceChanges: what the host reports back under a sync_back list. */
  method DiffWorkspaceChanges(glob: Glob, before: seq<Entry>, after: seq<Entry>, syncBack: Option<seq<Include>>, ignoreMode: bool)
    returns (changed: seq<Entry>, deleted: seq<Path>)
    ensures IsDiff(KeepEntries(glob, syncBack, before), KeepEntries(glob, syncBack, after), ignoreMode, changed, deleted)
  {
    hide KeepEntries, IsDiff;
    var oldOnes := FilterEntriesByPath(glob, before, syncBack);
    var newOnes := FilterEntriesByPath(glob, after, syncBack);
    changed, deleted := Diff(oldOnes, newOnes, ignoreMode);
  }

  // ---- Modes ----

  function NormalMode(reference: EntryMap, e: Entry): Entry {
    if e.path in reference && SameExceptMode(reference[e.path], e) then e.(mode := reference[e.path].mode)
    else if e.mode != 0 then e
    else match e.kind
      case KindDir => e.(mode := DEFAULT_DIR_MODE)
      case KindFile => e.(mode := DEFAULT_FILE_MODE)
      case _ => e
  }

  function NormalModes(reference: EntryMap, entries: seq<Entry>): seq<Entry> {
    seq(|entries|, i requires 0 <= i < |entries| => NormalMode(reference, entries[i]))
  }

  /** The last entry for the path of `e`, if it differs from `e` at most in its mode. */
  ghost predicate Reference(reference: seq<Entry>, e: Entry, r: Entry) {
    && (exists k :: 0 <= k < |reference| && reference[k] == r && forall j :: k < j < |reference| ==> reference[j].path != e.path)
    && r.path == e.path && r.kind == e.kind && r.hash == e.hash && r.size == e.size && r.link == e.link
  }

  /**
   NormalizeModes. An entry that its reference differs from in nothing but the mode takes the mode of
   the reference; another one keeps its mode, or gets 0o755 as a directory and 0o644 as a file if it has none.
   */
  method NormalizeModes(entries: seq<Entry>, reference: seq<Entry>) returns (out: seq<Entry>)
    ensures out == NormalModes(ByPath(reference), entries)
    ensures |out| == |entries| && forall i :: 0 <= i < |out| ==> out[i] == entries[i].(mode := out[i].mode)
    ensures forall i, r :: 0 <= i < |out| && Reference(reference, entries[i], r) ==> out[i].mode == r.mode
    ensures forall i :: 0 <= i < |out| && (forall r :: !Reference(reference, entries[i], r)) ==>
              out[i].mode == if entries[i].mode != 0 then entries[i].mode
                             else if entries[i].kind == KindDir then 0x1ED
                             else if entries[i].kind == KindFile then 0x1A4
                             else 0
  {
    NormalMeaning(reference, entries);
    hide ByPath;
    out := entries;
    var refByPath := BuildByPath(reference);
    for i := 0 to |entries|
      invariant |out| == |entries|
      invariant forall k :: 0 <= k < i ==> out[k] == NormalMode(refByPath, entries[k])
      invariant forall k :: i <= k < |out| ==> out[k] == entries[k]
    {
      var e := out[i];
      if e.path in refByPath && SameExceptMode(refByPath[e.path], e) {
        out := out[i := e.(mode := refByPath[e.path].mode)];
        continue;
      }
      if e.mode == 0 {
        match e.kind
        case KindDir => out := out[i := e.(mode := DEFAULT_DIR_MODE)];
        case KindFile => out := out[i := e.(mode := DEFAULT_FILE_MODE)];
        case _ =>
      }
    }
  }

  lemma NormalCases(reference: seq<Entry>, e: Entry)
    ensures var n := NormalMode(ByPath(reference), e);
            && n == e.(mode := n.mode)
            && (forall r :: Reference(reference, e, r) ==> n.mode == r.mode)
            && ((forall r :: !Reference(reference, e, r)) ==>
                  n.mode == if e.mode != 0 then e.mode else if e.kind == KindDir then 0x1ED else if e.kind == KindFile then 0x1A4 else 0)
  {
    ByPathLast(reference, e.path);
    hide ByPath;
    var n, m := NormalMode(ByPath(reference), e), ByPath(reference);
    forall r | Reference(reference, e, r)
      ensures e.path in m && m[e.path] == r
    {
      var k :| 0 <= k < |reference| && reference[k] == r && forall j :: k < j < |reference| ==> reference[j].path != e.path;
    }
    if e.path in m && SameExceptMode(m[e.path], e) {
      assert Reference(reference, e, m[e.path]);
    }
  }

  lemma NormalMeaning(reference: seq<Entry>, entries: seq<Entry>)
    ensures var out := NormalModes(ByPath(reference), entries);
            && |out| == |entries|
            && (forall i :: 0 <= i < |out| ==> out[i] == entries[i].(mode := out[i].mode))
            && (forall i, r :: 0 <= i < |out| && Reference(reference, entries[i], r) ==> out[i].mode == r.mode)
            && (forall i :: 0 <= i < |out| && (forall r :: !Reference(reference, entries[i], r)) ==>
                  out[i].mode == if entries[i].mode != 0 then entries[i].mode
                                 else if entries[i].kind == KindDir then 0x1ED
                                 else if entries[i].kind == KindFile then 0x1A4
                                 else 0)
  {
    var out := NormalModes(ByPath(reference), entries);
    hide ByPath, NormalMode, Reference;
    forall i | 0 <= i < |out|
      ensures out[i] == NormalMode(ByPath(reference), entries[i])
      ensures out[i] == entries[i].(mode := out[i].mode)
      ensures forall r :: Reference(reference, entries[i], r) ==> out[i].mode == r.mode
      ensures (forall r :: !Reference(reference, entries[i], r)) ==>
                out[i].mode == if entries[i].mode != 0 then entries[i].mode
                               else if entries[i].kind == KindDir then 0x1ED
                               else if entries[i].kind == KindFile then 0x1A4
                               else 0
    {
      NormalCases(reference, entries[i]);
    }
  }

  function NormalMap(reference: EntryMap, m: EntryMap): EntryMap {
    map p | p in m :: NormalMode(reference, m[p])
  }

  lemma {:induction false} NormalAt(reference: EntryMap, entries: seq<Entry>, p: Path)
    ensures p in ByPath(NormalModes(reference, entries)) <==> p in ByPath(entries)
    ensures p in ByPath(entries) ==> ByPath(NormalModes(reference, entries))[p] == NormalMode(reference, ByPath(entries)[p])
  {
    if entries != [] {
      var front := entries[..|entries| - 1];
      NormalAt(reference, front, p);
      assert NormalModes(reference, entries)[..|entries| - 1] == NormalModes(reference, front);
      NormalPath(reference, entries[|entries| - 1]);
      hide NormalMode;
    }
  }

  lemma NormalPath(reference: EntryMap, e: Entry)
    ensures NormalMode(reference, e).path == e.path
  {
  }

  lemma NormalByPath(reference: EntryMap, entries: seq<Entry>)
    ensures ByPath(NormalModes(reference, entries)) == NormalMap(reference, ByPath(entries))
  {
    hide ByPath, NormalModes, NormalMode;
    forall p
      ensures p in ByPath(NormalModes(reference, entries)) <==> p in ByPath(entries)
      ensures p in ByPath(entries) ==> ByPath(NormalModes(reference, entries))[p] == NormalMode(reference, ByPath(entries)[p])
    {
      NormalAt(reference, entries, p);
    }
  }

  /** An entry counts as changed after normalisation exactly when more than its mode differs. */
  lemma NormalChanged(reference: EntryMap, after: EntryMap, p: Path)
    requires p in after ==> after[p].path == p
    ensures IsChanged(reference, NormalMap(reference, after), false, p) <==> IsChanged(reference, after, true, p)
    ensures p in after ==> SameExceptMode(NormalMap(reference, after)[p], after[p])
  {
  }

  /** The paths and deletions of a difference, seen through the two entry maps. */
  lemma DiffParts(before: seq<Entry>, after: seq<Entry>, ignoreMode: bool, changed: seq<Entry>, deleted: seq<Path>)
    requires IsDiff(before, after, ignoreMode, changed, deleted)
    ensures forall p :: p in PathsOf(changed) <==> IsChanged(ByPath(before), ByPath(after), ignoreMode, p)
    ensures forall e :: e in changed ==> e.path in ByPath(after) && e == ByPath(after)[e.path]
    ensures forall p :: p in deleted <==> p in ByPath(before) && p !in ByPath(after)
  {
    ByPathMeaning(after);
    ChangedPaths(ByPath(before), ByPath(after), ignoreMode, changed);
    hide ByPath, SameEntry, SortedByPath, DeepestFirst, Distinct, UniquePaths, PathsOf;
  }

  /** Against its reference, a normalised manifest differs strictly where the raw one differs beyond modes. */
  lemma NormalizedDiffSamePaths(reference: seq<Entry>, entries: seq<Entry>, strict: seq<Entry>, strictDeleted: seq<Path>, loose: seq<Entry>, looseDeleted: seq<Path>)
    requires IsDiff(reference, NormalModes(ByPath(reference), entries), false, strict, strictDeleted)
    requires IsDiff(reference, entries, true, loose, looseDeleted)
    ensures PathsOf(strict) == PathsOf(loose)
    ensures forall p :: p in strictDeleted <==> p in looseDeleted
    ensures forall e, f :: e in strict && f in loose && e.path == f.path ==> SameExceptMode(e, f)
  {
    hide ByPath, NormalModes, NormalMode, IsChanged, IsDiff, PathsOf, SameExceptMode;
    var r, a := ByPath(reference), ByPath(entries);
    ByPathMeaning(entries);
    NormalByPath(r, entries);
    DiffParts(reference, NormalModes(r, entries), false, strict, strictDeleted);
    DiffParts(reference, entries, true, loose, looseDeleted);
    assert forall p :: p in NormalMap(r, a) <==> p in a;
    hide NormalMap;
    forall p
      ensures IsChanged(r, NormalMap(r, a), false, p) <==> IsChanged(r, a, true, p)
      ensures p in a ==> SameExceptMode(NormalMap(r, a)[p], a[p])
    {
      NormalChanged(r, a, p);
    }
  }

  lemma ChangedPaths(before: EntryMap, after: EntryMap, ignoreMode: bool, changed: seq<Entry>)
    requires forall e :: e in changed <==> IsChanged(before, after, ignoreMode, e.path) && e == after[e.path]
    requires forall p :: p in after ==> after[p].path == p
    ensures forall p :: p in PathsOf(changed) <==> IsChanged(before, after, ignoreMode, p)
  {
    forall p | IsChanged(before, after, ignoreMode, p)
      ensures p in PathsOf(changed)
    {
      assert after[p] in changed;
    }
    hide SameEntry;
  }

  // ---- Applying a difference to a manifest ----

  /** The entry map after a change set: deletions first, then the changed entries. */
  function Updated(previous: EntryMap, changed: seq<Entry>, deleted: seq<Path>): EntryMap {
    (map p | p in previous && p !in deleted :: previous[p]) + ByPath(changed)
  }

  /** applyManifestChanges: each path once, in order. */
  method ApplyManifestChanges(previous: seq<Entry>, changed: seq<Entry>, deleted: seq<Path>) returns (updated: seq<Entry>)
    ensures UniquePaths(updated) && SortedByPath(updated)
    ensures ByPath(updated) == Updated(ByPath(previous), changed, deleted)
  {
    hide SortedByPath, ByPath;
    var byPath := BuildByPath(previous);
    ghost var start := byPath;
    for i := 0 to |deleted|
      invariant byPath == map p | p in start && p !in deleted[..i] :: start[p]
    {
      assert deleted[..i + 1] == deleted[..i] + [deleted[i]];
      byPath := byPath - {deleted[i]};
    }
    assert deleted[..|deleted|] == deleted;
    ghost var left := byPath;
    NoEntries();
    for i := 0 to |changed|
      invariant byPath == left + ByPath(changed[..i])
    {
      ByPathMore(changed, i);
      byPath := byPath[changed[i].path := changed[i]];
    }
    assert changed[..|changed|] == changed;
    KeyedByPath(previous, changed, deleted, byPath);
    var listed := ListEntries(byPath);
    updated := SortByPath(listed);
    SameElements(updated, listed);
    ListedMap(byPath, updated);
  }

  lemma NoEntries()
    ensures ByPath([]) == map[]
  {
  }

  lemma ByPathMore(entries: seq<Entry>, i: nat)
    requires i < |entries|
    ensures ByPath(entries[..i + 1]) == ByPath(entries[..i])[entries[i].path := entries[i]]
  {
    assert entries[..i + 1][..i] == entries[..i];
  }

  lemma KeyedByPath(previous: seq<Entry>, changed: seq<Entry>, deleted: seq<Path>, m: EntryMap)
    requires m == Updated(ByPath(previous), changed, deleted)
    ensures forall p :: p in m ==> m[p].path == p
  {
    ByPathMeaning(previous);
    ByPathMeaning(changed);
    hide ByPath;
  }

  /** Walks a map in an arbitrary order. */
  method ListEntries(m: EntryMap) returns (entries: seq<Entry>)
    requires forall p :: p in m ==> m[p].path == p
    ensures forall e :: e in entries <==> e.path in m && e == m[e.path]
    ensures Distinct(entries)
  {
    entries := [];
    var rest := m.Keys;
    while rest != {}
      invariant rest <= m.Keys
      invariant forall e :: e in entries <==> e.path in m && e.path !in rest && e == m[e.path]
      invariant Distinct(entries)
      decreases rest
    {
      var p :| p in rest;
      rest := rest - {p};
      entries := entries + [m[p]];
    }
  }

  lemma ListedMap(m: EntryMap, entries: seq<Entry>)
    requires forall p :: p in m ==> m[p].path == p
    requires forall e :: e in entries <==> e.path in m && e == m[e.path]
    requires Distinct(entries)
    ensures UniquePaths(entries) && ByPath(entries) == m
  {
    DistinctPaths(entries, m);
    ByPathMeaning(entries);
    hide ByPath, Distinct;
    forall p | p in m
      ensures p in ByPath(entries) && ByPath(entries)[p] == m[p]
    {
      assert m[p] in entries;
    }
  }

  /**
   Applying the difference between two manifests to the first one gives the second: the same
   paths, and at each path an entry that the comparison cannot tell from the wanted one.
   */
  lemma DiffThenApply(before: seq<Entry>, after: seq<Entry>, ignoreMode: bool, changed: seq<Entry>, deleted: seq<Path>)
    requires IsDiff(before, after, ignoreMode, changed, deleted)
    ensures var m := Updated(ByPath(before), changed, deleted);
            && m.Keys == PathsOf(after) == ByPath(after).Keys
            && (forall p :: p in m ==> SameEntry(m[p], ByPath(after)[p], ignoreMode))
            && (!ignoreMode ==> m == ByPath(after))
  {
    var glob: Glob := (a, b) => false;
    KeepNone(glob, before);
    KeepNone(glob, after);
    ByPathMeaning(after);
    hide ByPath, IsDiff, KeepEntries, SameEntry, PathsOf;
    SyncBackThenApply(glob, None, before, after, ignoreMode, changed, deleted);
    assert forall p :: Included(glob, None, p);
    hide Updated;
  }

  lemma {:induction false} KeepNone(glob: Glob, entries: seq<Entry>)
    ensures KeepEntries(glob, None, entries) == entries
  {
    if entries != [] {
      KeepNone(glob, entries[..|entries| - 1]);
    }
  }

  /** The same under a sync_back list: included paths become those of the second manifest, all others stay. */
  lemma SyncBackThenApply(glob: Glob, includes: Option<seq<Include>>, before: seq<Entry>, after: seq<Entry>, ignoreMode: bool, changed: seq<Entry>, deleted: seq<Path>)
    requires IsDiff(KeepEntries(glob, includes, before), KeepEntries(glob, includes, after), ignoreMode, changed, deleted)
    ensures var m, b, a := Updated(ByPath(before), changed, deleted), ByPath(before), ByPath(after);
            forall p ::
              if Included(glob, includes, p) then
                (p in m <==> p in a) && (p in m ==> SameEntry(m[p], a[p], ignoreMode) && (!ignoreMode ==> m[p] == a[p]))
              else (p in m <==> p in b) && (p in m ==> m[p] == b[p])
  {
    hide KeepEntries, ByPath, Included, IsChanged, IsDiff, SameEntry;
    KeepByPath(glob, includes, before);
    KeepByPath(glob, includes, after);
    var b, a := ByPath(before), ByPath(after);
    var kb, ka := Restricted(glob, includes, b), Restricted(glob, includes, a);
    DiffParts(KeepEntries(glob, includes, before), KeepEntries(glob, includes, after), ignoreMode, changed, deleted);
    ByPathMeaning(before);
    ByPathMeaning(after);
    ByPathMeaning(changed);
    forall p
      ensures var m := Updated(b, changed, deleted);
              if Included(glob, includes, p) then
                (p in m <==> p in a) && (p in m ==> SameEntry(m[p], a[p], ignoreMode) && (!ignoreMode ==> m[p] == a[p]))
              else (p in m <==> p in b) && (p in m ==> m[p] == b[p])
    {
      UpdatedAt(kb, ka, ignoreMode, p);
    }
  }

  /** An unchanged entry cannot be told from the wanted one. */
  lemma UpdatedAt(before: EntryMap, after: EntryMap, ignoreMode: bool, p: Path)
    requires p in after ==> after[p].path == p
    requires p in before ==> before[p].path == p
    ensures IsChanged(before, after, ignoreMode, p) ==> p in after && SameEntry(after[p], after[p], ignoreMode)
    ensures p in after && !IsChanged(before, after, ignoreMode, p) ==>
              p in before && SameEntry(before[p], after[p], ignoreMode) && (!ignoreMode ==> before[p] == after[p])
  {
  }
}
