/** Include lists: literal paths and glob patterns over path segments. */
module PathMatch {
  import opened FileTree
  import opened Options

  /** path.Match on one segment; a malformed pattern matches nothing. */
  type Glob = (string, string) -> bool

  const ANY_DEPTH := "**"

  function MatchSegments(glob: Glob, pattern: seq<string>, candidate: Path): bool
    decreases |pattern|
  {
    if pattern == [] then candidate == []
    else if pattern[0] == ANY_DEPTH then
      |pattern| == 1 || exists i :: 0 <= i <= |candidate| && MatchSegments(glob, pattern[1..], candidate[i..])
    else candidate != [] && glob(pattern[0], candidate[0]) && MatchSegments(glob, pattern[1..], candidate[1..])
  }

  /** One pattern segment against the stretch of the path that it stands for. */
  predicate Fits(glob: Glob, segment: string, stretch: Path) {
    if segment == "**" then true else |stretch| == 1 && glob(segment, stretch[0])
  }

  function Joined(stretches: seq<Path>): Path {
    if stretches == [] then [] else stretches[0] + Joined(stretches[1..])
  }

  /** A way to cut the path into one stretch for each pattern segment. */
  ghost predicate IsSplit(glob: Glob, pattern: seq<string>, candidate: Path, stretches: seq<Path>) {
    && |stretches| == |pattern| && Joined(stretches) == candidate
    && forall k :: 0 <= k < |pattern| ==> Fits(glob, pattern[k], stretches[k])
  }

  lemma {:induction false} MatchHasSplit(glob: Glob, pattern: seq<string>, candidate: Path) returns (stretches: seq<Path>)
    requires MatchSegments(glob, pattern, candidate)
    ensures IsSplit(glob, pattern, candidate, stretches)
    decreases |pattern|
  {
    if pattern == [] {
      stretches := [];
    } else if pattern[0] == ANY_DEPTH && |pattern| == 1 {
      stretches := [candidate];
      assert stretches[1..] == [];
    } else {
      var i := 1;
      if pattern[0] == ANY_DEPTH {
        i :| 0 <= i <= |candidate| && MatchSegments(glob, pattern[1..], candidate[i..]);
      }
      var rest := MatchHasSplit(glob, pattern[1..], candidate[i..]);
      stretches := [candidate[..i]] + rest;
      assert stretches[1..] == rest;
      assert candidate == candidate[..i] + candidate[i..];
      forall k | 0 <= k < |pattern|
        ensures Fits(glob, pattern[k], stretches[k])
      {
        if k > 0 {
          assert pattern[k] == pattern[1..][k - 1] && stretches[k] == rest[k - 1];
        }
      }
    }
  }

  lemma {:induction false} SplitMatches(glob: Glob, pattern: seq<string>, candidate: Path, stretches: seq<Path>)
    requires IsSplit(glob, pattern, candidate, stretches)
    ensures MatchSegments(glob, pattern, candidate)
    decreases |pattern|
  {
    if pattern != [] {
      var first, rest := stretches[0], stretches[1..];
      var i := |first|;
      assert candidate == first + Joined(rest);
      assert candidate[i..] == Joined(rest);
      assert Fits(glob, pattern[0], first);
      forall k | 0 <= k < |pattern[1..]|
        ensures Fits(glob, pattern[1..][k], rest[k])
      {
        assert Fits(glob, pattern[k + 1], stretches[k + 1]);
      }
      SplitMatches(glob, pattern[1..], candidate[i..], rest);
    }
  }

  /** A pattern matches a path exactly when the path can be cut so that every segment fits its stretch. */
  lemma MatchMeaning(glob: Glob, pattern: seq<string>, candidate: Path)
    ensures MatchSegments(glob, pattern, candidate) <==> exists stretches :: IsSplit(glob, pattern, candidate, stretches)
  {
    if MatchSegments(glob, pattern, candidate) {
      var stretches := MatchHasSplit(glob, pattern, candidate);
    }
    if stretches :| IsSplit(glob, pattern, candidate, stretches) {
      SplitMatches(glob, pattern, candidate, stretches);
    }
  }

  /** matchSegments as it runs: a loop over the ways to place "**". */
  method MatchPath(glob: Glob, pattern: seq<string>, candidate: Path) returns (matched: bool)
    ensures matched == MatchSegments(glob, pattern, candidate)
    decreases |pattern|
  {
    if pattern == [] {
      return candidate == [];
    }
    if pattern[0] == ANY_DEPTH {
      if |pattern| == 1 {
        return true;
      }
      for i := 0 to |candidate| + 1
        invariant forall k :: 0 <= k < i ==> !MatchSegments(glob, pattern[1..], candidate[k..])
      {
        var here := MatchPath(glob, pattern[1..], candidate[i..]);
        if here {
          return true;
        }
      }
      return false;
    }
    if candidate == [] || !glob(pattern[0], candidate[0]) {
      return false;
    }
    matched := MatchPath(glob, pattern[1..], candidate[1..]);
  }

  // ---- The matcher ----

  /** An include as normalisation reads it: blank, the whole tree, a literal path, or a pattern. */
  datatype Include = Blank | WholeTree | Literal(path: Path) | Pattern(segments: seq<string>)

  datatype Matcher = Matcher(all: bool, literals: seq<Path>, patterns: seq<seq<string>>)

  ghost predicate Covers(glob: Glob, i: Include, p: Path) {
    match i
    case Blank => false
    case WholeTree => true
    case Literal(top) => AtOrBelow(p, top)
    case Pattern(segments) => MatchSegments(glob, segments, p)
  }

  /** No list at all includes everything; an empty list includes nothing. */
  ghost predicate Included(glob: Glob, includes: Option<seq<Include>>, p: Path) {
    includes.Some? ==> exists i :: i in includes.value && Covers(glob, i, p)
  }

  ghost predicate Accepts(glob: Glob, m: Matcher, p: Path) {
    || m.all
    || (exists top :: top in m.literals && AtOrBelow(p, top))
    || (exists segments :: segments in m.patterns && MatchSegments(glob, segments, p))
  }

  method NewIncludeMatcher(includes: Option<seq<Include>>) returns (m: Matcher)
    ensures forall glob, p :: Accepts(glob, m, p) <==> Included(glob, includes, p)
  {
    m := Matcher(false, [], []);
    match includes
    case None => m := Matcher(true, [], []);
    case Some(list) =>
      for k := 0 to |list|
        invariant !m.all
        invariant forall top :: top in m.literals <==> Literal(top) in list[..k]
        invariant forall segments :: segments in m.patterns <==> Pattern(segments) in list[..k]
        invariant WholeTree !in list[..k]
      {
        assert list[..k + 1] == list[..k] + [list[k]];
        match list[k]
        case Blank =>
        case WholeTree =>
          WholeTreeIncludes(list);
          return Matcher(true, [], []);
        case Literal(top) => m := m.(literals := m.literals + [top]);
        case Pattern(segments) => m := m.(patterns := m.patterns + [segments]);
      }
      assert list[..|list|] == list;
      forall glob, p
        ensures Accepts(glob, m, p) <==> Included(glob, Some(list), p)
      {
        MatcherAccepts(glob, list, m, p);
      }
  }

  lemma WholeTreeIncludes(list: seq<Include>)
    requires WholeTree in list
    ensures forall glob, p :: Included(glob, Some(list), p)
  {
    forall glob: Glob, p: Path
      ensures Included(glob, Some(list), p)
    {
      assert Covers(glob, WholeTree, p);
    }
  }

  lemma MatcherAccepts(glob: Glob, list: seq<Include>, m: Matcher, p: Path)
    requires !m.all && WholeTree !in list
    requires forall top :: top in m.literals <==> Literal(top) in list
    requires forall segments :: segments in m.patterns <==> Pattern(segments) in list
    ensures Accepts(glob, m, p) <==> Included(glob, Some(list), p)
  {
    hide MatchSegments, AtOrBelow;
    if top :| top in m.literals && AtOrBelow(p, top) {
      assert Covers(glob, Literal(top), p);
    }
    if segments :| segments in m.patterns && MatchSegments(glob, segments, p) {
      assert Covers(glob, Pattern(segments), p);
    }
  }

  method Match(glob: Glob, m: Matcher, p: Path) returns (matched: bool)
    ensures matched <==> Accepts(glob, m, p)
  {
    hide MatchSegments;
    if m.all {
      return true;
    }
    for k := 0 to |m.literals|
      invariant forall j :: 0 <= j < k ==> !AtOrBelow(p, m.literals[j])
    {
      if AtOrBelow(p, m.literals[k]) {
        return true;
      }
    }
    for k := 0 to |m.patterns|
      invariant forall j :: 0 <= j < k ==> !MatchSegments(glob, m.patterns[j], p)
    {
      var here := MatchPath(glob, m.patterns[k], p);
      if here {
        return true;
      }
    }
    matched := false;
  }
}
