/** Manifest entries: one tracked path with its kind, content hash, mode and link target. */
module Entries {
  import opened FileTree

  datatype EntryKind = KindFile | KindDir | KindSymlink | KindOther(name: string)

  datatype Entry = Entry(
    path: Path,
    kind: EntryKind,
    hash: string,
    size: int,
    mode: nat,
    link: string)

  function PathsOf(entries: seq<Entry>): set<Path> {
    set e | e in entries :: e.path
  }

  function DirPaths(entries: seq<Entry>): set<Path> {
    set e | e in entries && e.kind == KindDir :: e.path
  }

  ghost predicate UniquePaths(entries: seq<Entry>) {
    forall i, j :: 0 <= i < j < |entries| ==> entries[i].path != entries[j].path
  }

  /** fileMode: a recorded mode of zero stands for the default. */
  function FileMode(raw: nat, fallback: nat): nat {
    if raw == 0 then fallback else raw
  }

  lemma SameEntryAtPath(entries: seq<Entry>, a: Entry, b: Entry)
    requires UniquePaths(entries) && a in entries && b in entries && a.path == b.path
    ensures a == b
  {
  }

  lemma NotDirPath(entries: seq<Entry>, e: Entry)
    requires UniquePaths(entries) && e in entries && e.kind != KindDir
    ensures e.path !in DirPaths(entries)
  {
  }
}
