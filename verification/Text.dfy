/** Small string functions that several components share. */
module Text {

  /** unicode.IsSpace */
  predicate IsSpace(c: char) {
    '\U{0009}' <= c <= '\U{000D}' || c == ' ' || c == '\U{0085}' || c == '\U{00A0}' || c == '\U{1680}' ||
    '\U{2000}' <= c <= '\U{200A}' || c == '\U{2028}' || c == '\U{2029}' || c == '\U{202F}' || c == '\U{205F}' || c == '\U{3000}'
  }

  function TrimLeft(s: string): string {
    if s != "" && IsSpace(s[0]) then TrimLeft(s[1..]) else s
  }

  function TrimRight(s: string): string {
    if s != "" && IsSpace(s[|s| - 1]) then TrimRight(s[..|s| - 1]) else s
  }

  /** strings.TrimSpace */
  function TrimSpace(s: string): string {
    TrimRight(TrimLeft(s))
  }

  /** The index of the first `c`, or the length. */
  function IndexOf(s: string, c: char): (i: nat)
    ensures i <= |s| && (i < |s| ==> s[i] == c)
    ensures forall k :: 0 <= k < i ==> s[k] != c
  {
    if s == "" || s[0] == c then 0 else 1 + IndexOf(s[1..], c)
  }

  /** strings.Cut around one character: what is before, what is after, and whether it was there. */
  function Cut(s: string, c: char): (string, string, bool) {
    var i := IndexOf(s, c);
    if i < |s| then (s[..i], s[i + 1..], true) else (s, "", false)
  }

  /** strings.Split on one character. */
  function Split(s: string, c: char): (parts: seq<string>)
    ensures |parts| > 0
    decreases |s|
  {
    var i := IndexOf(s, c);
    if i < |s| then [s[..i]] + Split(s[i + 1..], c) else [s]
  }

  /** strings.ReplaceAll of carriage return and newline by a newline. */
  function ReplaceCrLf(s: string): string {
    if |s| < 2 then s
    else if s[0] == '\r' && s[1] == '\n' then "\n" + ReplaceCrLf(s[2..])
    else [s[0]] + ReplaceCrLf(s[1..])
  }

  /** strings.Join */
  function Join(parts: seq<string>, separator: string): string {
    if parts == [] then ""
    else if |parts| == 1 then parts[0]
    else parts[0] + separator + Join(parts[1..], separator)
  }

  /** The lower-case form of the ASCII letters. */
  function LowerChar(c: char): char {
    if 'A' <= c <= 'Z' then c - 'A' + 'a' else c
  }

  function ToLower(s: string): (t: string)
    ensures |t| == |s| && forall i :: 0 <= i < |s| ==> t[i] == LowerChar(s[i])
  {
    seq(|s|, i requires 0 <= i < |s| => LowerChar(s[i]))
  }

  // ---- Line ends across a cut ----

  /** The cut falls between a carriage return and its newline. */
  predicate CutsLineEnd(a: string, b: string) {
    a != "" && a[|a| - 1] == '\r' && b != "" && b[0] == '\n'
  }

  /** How many characters the replacement takes at once, and what it writes for them. */
  function HeadLength(a: string): nat
    requires |a| >= 2
    ensures 1 <= HeadLength(a) <= 2
  {
    if a[0] == '\r' && a[1] == '\n' then 2 else 1
  }

  function HeadText(a: string): string
    requires |a| >= 2
  {
    if HeadLength(a) == 2 then "\n" else [a[0]]
  }

  lemma ReplaceHead(a: string, b: string)
    requires |a| >= 2
    ensures ReplaceCrLf(a + b) == HeadText(a) + ReplaceCrLf(a[HeadLength(a)..] + b)
    ensures ReplaceCrLf(a) == HeadText(a) + ReplaceCrLf(a[HeadLength(a)..])
    ensures CutsLineEnd(a, b) <==> CutsLineEnd(a[HeadLength(a)..], b)
  {
    assert (a + b)[HeadLength(a)..] == a[HeadLength(a)..] + b;
  }

  ghost predicate DropsOne(a: string, b: string, front: string) {
    ReplaceCrLf(a) == front + "\r" && ReplaceCrLf(a + b) == front + ReplaceCrLf(b)
  }

  lemma ReplaceShort(a: string, b: string)
    requires |a| == 1
    ensures !CutsLineEnd(a, b) ==> ReplaceCrLf(a + b) == ReplaceCrLf(a) + ReplaceCrLf(b)
    ensures CutsLineEnd(a, b) ==> DropsOne(a, b, "")
  {
    assert (a + b)[1..] == b;
    if CutsLineEnd(a, b) {
      assert a == "\r" && (a + b)[2..] == b[1..];
      NewlineFirst(b);
      assert "" + "\r" == "\r" && "" + ReplaceCrLf(b) == ReplaceCrLf(b);
    } else if b == "" {
      assert a + b == a;
    }
  }

  lemma Associates(a: string, b: string, c: string)
    ensures a + (b + c) == (a + b) + c
  {
  }

  lemma {:induction false} ReplaceCrLfSum(a: string, b: string) returns (front: string)
    ensures !CutsLineEnd(a, b) ==> ReplaceCrLf(a + b) == ReplaceCrLf(a) + ReplaceCrLf(b)
    ensures CutsLineEnd(a, b) ==> DropsOne(a, b, front)
    decreases |a|
  {
    front := "";
    if |a| >= 2 {
      hide ReplaceCrLf, CutsLineEnd, HeadText, HeadLength;
      var head, rest := HeadText(a), a[HeadLength(a)..];
      ReplaceHead(a, b);
      var inner := ReplaceCrLfSum(rest, b);
      front := head + inner;
      Associates(head, inner, "\r");
      Associates(head, inner, ReplaceCrLf(b));
      Associates(head, ReplaceCrLf(rest), ReplaceCrLf(b));
    } else if |a| == 1 {
      ReplaceShort(a, b);
    } else {
      assert a + b == b;
    }
  }

  lemma NewlineFirst(b: string)
    requires b != "" && b[0] == '\n'
    ensures ReplaceCrLf(b) == "\n" + ReplaceCrLf(b[1..])
  {
    if |b| == 1 {
      assert b[1..] == "" && b == "\n";
    }
  }

  // ---- Trimming ----

  predicate Trimmed(s: string) {
    s != "" ==> !IsSpace(s[0]) && !IsSpace(s[|s| - 1])
  }

  lemma {:induction false} TrimLeftMeaning(s: string) returns (i: nat)
    ensures i <= |s| && TrimLeft(s) == s[i..]
    ensures forall k :: 0 <= k < i ==> IsSpace(s[k])
    ensures i < |s| ==> !IsSpace(s[i])
  {
    hide IsSpace;
    i := 0;
    if s != "" && IsSpace(s[0]) {
      var j := TrimLeftMeaning(s[1..]);
      i := j + 1;
      assert forall k :: 0 <= k < j ==> s[k + 1] == s[1..][k];
      forall k | 0 <= k < i
        ensures IsSpace(s[k])
      {
        assert k > 0 ==> IsSpace(s[1..][k - 1]);
      }
    }
  }

  lemma {:induction false} TrimRightMeaning(s: string) returns (j: nat)
    ensures j <= |s| && TrimRight(s) == s[..j]
    ensures 0 < j ==> !IsSpace(s[j - 1])
    ensures forall k :: j <= k < |s| ==> IsSpace(s[k])
  {
    hide IsSpace;
    j := |s|;
    if s != "" && IsSpace(s[|s| - 1]) {
      j := TrimRightMeaning(s[..|s| - 1]);
    }
  }

  predicate Spaces(s: string) {
    forall i :: 0 <= i < |s| ==> IsSpace(s[i])
  }

  lemma TrimCuts(s: string) returns (a: string, d: string)
    ensures Spaces(a) && Spaces(d) && s == a + TrimSpace(s) + d
  {
    var i := TrimLeftMeaning(s);
    var t := s[i..];
    var j := TrimRightMeaning(t);
    a, d := s[..i], t[j..];
    assert TrimSpace(s) == t[..j];
    assert s == a + t && t == t[..j] + d;
    hide IsSpace, TrimLeft, TrimRight;
  }

  lemma SameCore(a: string, t: string, d: string, b: string, u: string, e: string)
    requires Spaces(a) && Spaces(d) && Spaces(b) && Spaces(e) && Trimmed(t) && Trimmed(u)
    requires a + t + d == b + u + e
    ensures t == u
  {
    var s := a + t + d;
    hide IsSpace;
    if t != "" {
      assert s[|a|] == t[0] && s[|a| + |t| - 1] == t[|t| - 1];
    }
    if u != "" {
      assert s[|b|] == u[0] && s[|b| + |u| - 1] == u[|u| - 1];
    }
    assert forall k :: 0 <= k < |a| ==> s[k] == a[k];
    assert forall k :: 0 <= k < |b| ==> s[k] == b[k];
    assert forall k :: 0 <= k < |d| ==> s[|a| + |t| + k] == d[k];
    assert forall k :: 0 <= k < |e| ==> s[|b| + |u| + k] == e[k];
    SpaceAt(s, a, t, d);
    SpaceAt(s, b, u, e);
    if t != "" && u != "" {
      assert |a| == |b| && |a| + |t| == |b| + |u|;
      assert t == s[|a|..|a| + |t|] && u == s[|b|..|b| + |u|];
    }
  }

  lemma SpaceAt(s: string, a: string, t: string, d: string)
    requires s == a + t + d && Spaces(a) && Spaces(d)
    ensures forall k :: 0 <= k < |s| && (k < |a| || k >= |a| + |t|) ==> IsSpace(s[k])
  {
    hide IsSpace;
  }

  /** Trimming finds the one text without spaces at its ends that spaces surround. */
  lemma TrimExactly(s: string, t: string)
    ensures TrimSpace(s) == t <==> Trimmed(t) && exists a, d :: Spaces(a) && Spaces(d) && s == a + t + d
  {
    TrimSpaceTrims(s);
    var b, e := TrimCuts(s);
    hide IsSpace, TrimLeft, TrimRight, TrimSpace, Spaces, Trimmed;
    if Trimmed(t) {
      forall a, d | Spaces(a) && Spaces(d) && s == a + t + d
        ensures t == TrimSpace(s)
      {
        SameCore(a, t, d, b, TrimSpace(s), e);
      }
    }
  }

  const BLANKS := "\t\n\U{000B}\U{000C}\r \U{0085}\U{00A0}\U{1680}\U{2000}\U{2001}\U{2002}\U{2003}\U{2004}\U{2005}\U{2006}\U{2007}\U{2008}\U{2009}\U{200A}\U{2028}\U{2029}\U{202F}\U{205F}\U{3000}"

  /** Space is what Unicode lists as white space. */
  lemma SpaceMeaning(c: char)
    ensures c in BLANKS ==> IsSpace(c)
    ensures IsSpace(c) ==> c in BLANKS
  {
    assert BLANKS[0] == '\t' && BLANKS[1] == '\n' && BLANKS[2] == '\U{000B}' && BLANKS[3] == '\U{000C}' && BLANKS[4] == '\r';
    assert BLANKS[5] == ' ' && BLANKS[6] == '\U{0085}' && BLANKS[7] == '\U{00A0}' && BLANKS[8] == '\U{1680}' && BLANKS[9] == '\U{2000}';
    assert BLANKS[10] == '\U{2001}' && BLANKS[11] == '\U{2002}' && BLANKS[12] == '\U{2003}' && BLANKS[13] == '\U{2004}' && BLANKS[14] == '\U{2005}';
    assert BLANKS[15] == '\U{2006}' && BLANKS[16] == '\U{2007}' && BLANKS[17] == '\U{2008}' && BLANKS[18] == '\U{2009}' && BLANKS[19] == '\U{200A}';
    assert BLANKS[20] == '\U{2028}' && BLANKS[21] == '\U{2029}' && BLANKS[22] == '\U{202F}' && BLANKS[23] == '\U{205F}' && BLANKS[24] == '\U{3000}';
  }

  lemma TrimmedStays(s: string)
    requires Trimmed(s)
    ensures TrimSpace(s) == s
  {
    hide IsSpace;
  }

  lemma TrimSpaceTrims(s: string)
    ensures Trimmed(TrimSpace(s))
    ensures s != "" && !IsSpace(s[0]) ==> TrimSpace(s) != "" && TrimSpace(s)[0] == s[0]
  {
    var i := TrimLeftMeaning(s);
    var t := s[i..];
    var j := TrimRightMeaning(t);
    assert TrimSpace(s) == t[..j];
    if s != "" && !IsSpace(s[0]) {
      assert i == 0 && t == s;
      NeverAllTrimmed(s);
    }
    hide IsSpace, TrimLeft, TrimRight;
  }

  lemma {:induction false} NeverAllTrimmed(s: string)
    requires s != "" && !IsSpace(s[0])
    ensures TrimRight(s) != ""
    decreases |s|
  {
    hide IsSpace;
    if IsSpace(s[|s| - 1]) {
      NeverAllTrimmed(s[..|s| - 1]);
    }
  }

  lemma TrimSpaceFrom(s: string)
    ensures forall c :: c in TrimSpace(s) ==> c in s
  {
    var i := TrimLeftMeaning(s);
    var j := TrimRightMeaning(s[i..]);
    hide IsSpace, TrimLeft, TrimRight;
    assert TrimSpace(s) == s[i..][..j];
  }

  // ---- Splitting and joining ----

  lemma CutAt(before: string, c: char, after: string)
    requires c !in before
    ensures Cut(before + [c] + after, c) == (before, after, true)
  {
    var s := before + [c] + after;
    assert s[|before|] == c && forall k :: 0 <= k < |before| ==> s[k] == before[k];
    assert IndexOf(s, c) == |before|;
    assert s[..|before|] == before && s[|before| + 1..] == after;
  }

  lemma SplitNone(s: string, c: char)
    requires c !in s
    ensures Split(s, c) == [s]
  {
  }

  lemma SplitAt(before: string, c: char, after: string)
    requires c !in before
    ensures Split(before + [c] + after, c) == [before] + Split(after, c)
  {
    CutAt(before, c, after);
    var s := before + [c] + after;
    assert s[|before|] == c && forall k :: 0 <= k < |before| ==> s[k] == before[k];
  }

  /** Splitting leaves no separator in the parts. */
  lemma {:induction false} SplitParts(s: string, c: char)
    ensures forall part :: part in Split(s, c) ==> c !in part
    decreases |s|
  {
    var i := IndexOf(s, c);
    if i < |s| {
      SplitParts(s[i + 1..], c);
      assert c !in s[..i];
    }
  }

  /** Splitting takes joined parts apart again. */
  lemma {:induction false} SplitJoin(parts: seq<string>, c: char)
    requires parts != [] && forall part :: part in parts ==> c !in part
    ensures Split(Join(parts, [c]), c) == parts
  {
    hide Split;
    assert parts[0] in parts;
    if |parts| == 1 {
      SplitNone(parts[0], c);
    } else {
      var rest := parts[1..];
      SplitJoin(rest, c);
      SplitAt(parts[0], c, Join(rest, [c]));
      assert parts == [parts[0]] + rest;
    }
  }

  lemma {:induction false} JoinEnds(parts: seq<string>, separator: string)
    requires parts != [] && parts[|parts| - 1] != ""
    ensures var s, last := Join(parts, separator), parts[|parts| - 1]; s != "" && s[|s| - 1] == last[|last| - 1]
  {
    if |parts| > 1 {
      JoinEnds(parts[1..], separator);
    }
  }

  lemma JoinFront(part: string, rest: seq<string>, separator: string)
    requires rest != []
    ensures Join([part] + rest, separator) == part + separator + Join(rest, separator)
  {
    assert ([part] + rest)[1..] == rest;
  }

  /** Joining puts the parts of a split string together again. */
  lemma {:induction false} JoinSplit(s: string, c: char)
    ensures Join(Split(s, c), [c]) == s
    decreases |s|
  {
    var i := IndexOf(s, c);
    hide IndexOf;
    if i < |s| {
      JoinSplit(s[i + 1..], c);
      JoinFront(s[..i], Split(s[i + 1..], c), [c]);
      hide Split, Join;
      assert s == s[..i] + [c] + s[i + 1..];
    }
  }

  // ---- Letters ----

  const UPPER := "ABCDEFGHIJKLMNOPQRSTUVWXYZ"
  const LOWER := "abcdefghijklmnopqrstuvwxyz"

  lemma InRange(letters: string, first: char, c: char)
    requires |letters| == 26 && first as int < 0xD000 && forall k :: 0 <= k < 26 ==> letters[k] == first + k as char
    ensures c in letters <==> first <= c <= first + 25 as char
  {
    if first <= c <= first + 25 as char {
      assert letters[(c - first) as int] == c;
    }
  }

  lemma Alphabets()
    ensures |UPPER| == 26 && forall k :: 0 <= k < 26 ==> UPPER[k] == 'A' + k as char
    ensures |LOWER| == 26 && forall k :: 0 <= k < 26 ==> LOWER[k] == 'a' + k as char
  {
  }

  lemma InAlphabet(c: char)
    ensures c in UPPER <==> 'A' <= c <= 'Z'
    ensures c in LOWER <==> 'a' <= c <= 'z'
  {
    Alphabets();
    InRange(UPPER, 'A', c);
    InRange(LOWER, 'a', c);
  }

  /** The same letter, in either case. */
  predicate SameLetter(c: char, d: char) {
    c == d || exists k :: 0 <= k < 26 && (c == UPPER[k] || c == LOWER[k]) && (d == UPPER[k] || d == LOWER[k])
  }

  predicate SameLetters(a: string, b: string) {
    |a| == |b| && forall i :: 0 <= i < |a| ==> SameLetter(a[i], b[i])
  }

  lemma LetterFold(c: char, d: char)
    ensures LowerChar(c) == LowerChar(d) <==> SameLetter(c, d)
  {
    Alphabets();
    if LowerChar(c) == LowerChar(d) && c != d {
      var k := if 'A' <= c <= 'Z' then (c - 'A') as int else (d - 'A') as int;
      assert UPPER[k] in {c, d} && LOWER[k] in {c, d};
    }
  }

  /** Texts have the same lower-case form exactly when their letters are the same up to case. */
  lemma FoldMeaning(a: string, b: string)
    ensures ToLower(a) == ToLower(b) <==> SameLetters(a, b)
  {
    if |a| == |b| {
      forall i | 0 <= i < |a|
        ensures ToLower(a)[i] == ToLower(b)[i] <==> SameLetter(a[i], b[i])
      {
        LetterFold(a[i], b[i]);
      }
      hide SameLetter, LowerChar;
      if ToLower(a) == ToLower(b) {
        forall i | 0 <= i < |a|
          ensures SameLetter(a[i], b[i])
        {
          assert ToLower(a)[i] == ToLower(b)[i];
        }
      }
    }
  }

  /** Each upper-case letter becomes the lower-case letter at its place in the alphabet, and nothing else changes. */
  lemma LowerLetters(s: string)
    ensures |ToLower(s)| == |s|
    ensures forall i, k :: 0 <= i < |s| && 0 <= k < 26 && s[i] == UPPER[k] ==> ToLower(s)[i] == LOWER[k]
    ensures forall i :: 0 <= i < |s| && s[i] !in UPPER ==> ToLower(s)[i] == s[i]
  {
    assert forall k :: 0 <= k < 26 ==> UPPER[k] == 'A' + k as char && LOWER[k] == 'a' + k as char;
    forall i | 0 <= i < |s|
      ensures ToLower(s)[i] == LowerChar(s[i])
      ensures 'A' <= s[i] <= 'Z' ==> s[i] in UPPER
    {
      InAlphabet(s[i]);
    }
  }
}
