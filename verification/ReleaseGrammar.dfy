/** Which strings are release versions: the grammar that the parser accepts, in both directions. */
module ReleaseGrammar {
  import opened Options
  import opened Text
  import opened Decimals
  import opened PathOrder
  import opened ReleaseVersion

  function After(mark: string, part: Option<string>): string {
    if part.Some? then mark + part.value else ""
  }

  /** How the parser cuts a text: the letter v, three numbers, an optional pre-release part and an optional build part. */
  ghost predicate IsCut(digit: char -> bool, v: string, r: Release, a: string, b: string, c: string, pre: Option<string>, build: Option<string>) {
    && v == "v" + (a + "." + b + "." + c + After("-", pre)) + After("+", build)
    && ParseNumericPart(a) == Some(r.major) && ParseNumericPart(b) == Some(r.minor) && ParseNumericPart(c) == Some(r.patch)
    && (pre.Some? ==> ValidDotIdentifiers(digit, pre.value))
    && (build.Some? ==> ValidDotIdentifiers(digit, build.value))
    && r.pre == (if pre.Some? then Split(pre.value, '.') else [])
  }

  /** The marks that separate the parts are not digits in any script. */
  ghost predicate MarksAreNoDigits(digit: char -> bool) {
    !digit('+') && !digit('.')
  }

  // ---- Cutting and splitting ----

  lemma CutNone(s: string, c: char)
    requires c !in s
    ensures Cut(s, c) == (s, "", false)
  {
  }

  lemma CutBack(s: string, c: char)
    ensures var (before, after, found) := Cut(s, c);
            c !in before && s == if found then before + [c] + after else before
  {
  }

  lemma SplitStep(s: string, c: char)
    ensures var (before, after, found) := Cut(s, c);
            Split(s, c) == if found then [before] + Split(after, c) else [s]
  {
  }

  /** Three parts, put together again. */
  lemma SplitThree(s: string)
    requires |Split(s, '.')| == 3
    ensures var parts := Split(s, '.'); s == parts[0] + "." + parts[1] + "." + parts[2]
  {
    SplitStep(s, '.');
    CutBack(s, '.');
    var (a, rest, _) := Cut(s, '.');
    SplitStep(rest, '.');
    CutBack(rest, '.');
    var (b, last, _) := Cut(rest, '.');
    SplitStep(last, '.');
    hide Split, Cut;
    assert Split(s, '.') == [a] + ([b] + Split(last, '.'));
    assert Split(last, '.') == [last];
    assert s == a + "." + (b + "." + last);
  }

  lemma NumbersArePlain(s: string)
    requires ParseNumericPart(s).Some?
    ensures '.' !in s && '-' !in s && '+' !in s && s != ""
  {
    hide Value;
  }

  lemma {:induction false} SplitHolds(s: string, c: char, d: char) returns (part: string)
    requires d in s && d != c
    ensures part in Split(s, c) && d in part
    decreases |s|
  {
    var i := IndexOf(s, c);
    if i == |s| || d in s[..i] {
      part := s[..i];
      assert s[..|s|] == s;
      assert Split(s, c)[0] == part;
    } else {
      assert s == s[..i] + [c] + s[i + 1..];
      part := SplitHolds(s[i + 1..], c, d);
    }
  }

  lemma IdentifiersArePlain(digit: char -> bool, s: string)
    requires ValidDotIdentifiers(digit, s) && MarksAreNoDigits(digit)
    ensures '+' !in s
  {
    hide Split;
    if '+' in s {
      var part := SplitHolds(s, '.', '+');
    }
  }

  // ---- Both directions ----

  lemma CutMark(before: string, c: char, part: Option<string>)
    requires c !in before
    ensures Cut(before + After([c], part), c) == (before, if part.Some? then part.value else "", part.Some?)
  {
    if part.Some? {
      assert before + After([c], part) == before + [c] + part.value;
      CutAt(before, c, part.value);
    } else {
      assert before + After([c], part) == before;
      CutNone(before, c);
    }
  }

  lemma SplitNumbers(a: string, b: string, c: string)
    requires '.' !in a && '.' !in b && '.' !in c
    ensures Split(a + "." + b + "." + c, '.') == [a, b, c]
  {
    assert a + "." + b + "." + c == a + "." + (b + "." + c);
    SplitAt(a, '.', b + "." + c);
    SplitAt(b, '.', c);
    SplitNone(c, '.');
    hide Split;
  }

  lemma CorePlain(digit: char -> bool, base: string, pre: Option<string>)
    requires MarksAreNoDigits(digit) && '+' !in base && (pre.Some? ==> ValidDotIdentifiers(digit, pre.value))
    ensures '+' !in base + After("-", pre)
  {
    if pre.Some? {
      IdentifiersArePlain(digit, pre.value);
    }
    hide ValidDotIdentifiers;
  }

  lemma SpellingParses(digit: char -> bool, v: string, r: Release, a: string, b: string, c: string, pre: Option<string>, build: Option<string>)
    requires MarksAreNoDigits(digit) && IsCut(digit, v, r, a, b, c, pre, build)
    requires TrimSpace(v) == v
    ensures ParseRelease(digit, v) == Some(r)
  {
    hide Split, Cut, ParseNumericPart, ValidDotIdentifiers, TrimSpace, After, MarksAreNoDigits;
    NumbersArePlain(a);
    NumbersArePlain(b);
    NumbersArePlain(c);
    var base := a + "." + b + "." + c;
    var core := base + After("-", pre);
    assert v[0] == 'v' && v[1..] == core + After("+", build);
    CorePlain(digit, base, pre);
    CutMark(core, '+', build);
    CutMark(base, '-', pre);
    SplitNumbers(a, b, c);
    assert core != "";
  }

  /** What the parser cut, put together again. */
  lemma PartsSpell(v: string, core: string, metadata: string, hasBuild: bool, base: string, p: string, hasPre: bool, a: string, b: string, c: string)
    requires v != "" && v[0] == 'v'
    requires v[1..] == if hasBuild then core + "+" + metadata else core
    requires core == if hasPre then base + "-" + p else base
    requires base == a + "." + b + "." + c
    ensures v == "v" + (a + "." + b + "." + c + After("-", if hasPre then Some(p) else None)) + After("+", if hasBuild then Some(metadata) else None)
  {
    var pre, build := After("-", if hasPre then Some(p) else None), After("+", if hasBuild then Some(metadata) else None);
    WithMark(base, "-", p, hasPre);
    WithMark(core, "+", metadata, hasBuild);
    FirstLetter(v);
    Associates("v", core, build);
    hide After;
  }

  lemma WithMark(before: string, mark: string, part: string, has: bool)
    ensures before + After(mark, if has then Some(part) else None) == if has then before + mark + part else before
  {
    Associates(before, mark, part);
  }

  lemma FirstLetter(v: string)
    requires v != "" && v[0] == 'v'
    ensures v == "v" + v[1..]
  {
  }

  lemma ParseSpells(digit: char -> bool, text: string) returns (a: string, b: string, c: string, pre: Option<string>, build: Option<string>)
    requires ParseRelease(digit, text).Some?
    ensures IsCut(digit, TrimSpace(text), ParseRelease(digit, text).value, a, b, c, pre, build)
  {
    hide Split, Cut, ParseNumericPart, ValidDotIdentifiers, TrimSpace, After;
    var v := TrimSpace(text);
    var (core, metadata, hasBuild) := Cut(v[1..], '+');
    var (base, p, hasPre) := Cut(core, '-');
    CutBack(v[1..], '+');
    CutBack(core, '-');
    SplitThree(base);
    a, b, c := Split(base, '.')[0], Split(base, '.')[1], Split(base, '.')[2];
    PartsSpell(v, core, metadata, hasBuild, base, p, hasPre, a, b, c);
    pre := if hasPre then Some(p) else None;
    build := if hasBuild then Some(metadata) else None;
  }

  lemma CutExactly(digit: char -> bool, text: string, r: Release)
    requires MarksAreNoDigits(digit)
    ensures ParseRelease(digit, text) == Some(r) <==>
              exists a, b, c, pre, build :: IsCut(digit, TrimSpace(text), r, a, b, c, pre, build)
  {
    TrimSpaceTrims(text);
    TrimmedStays(TrimSpace(text));
    if ParseRelease(digit, text) == Some(r) {
      var a, b, c, pre, build := ParseSpells(digit, text);
    }
    SameTrimmed(digit, text);
    hide ParseRelease, TrimSpace, Trimmed;
    if a, b, c, pre, build :| IsCut(digit, TrimSpace(text), r, a, b, c, pre, build) {
      hide IsCut;
      SpellingParses(digit, TrimSpace(text), r, a, b, c, pre, build);
    }
  }

  lemma SameTrimmed(digit: char -> bool, text: string)
    requires TrimSpace(TrimSpace(text)) == TrimSpace(text)
    ensures ParseRelease(digit, TrimSpace(text)) == ParseRelease(digit, text)
  {
    hide TrimSpace, Split, Cut;
  }

  // ---- The grammar of versions ----

  /** Digits, ASCII letters and hyphens, at least one. */
  predicate Identifier(digit: char -> bool, s: string) {
    s != "" && forall i :: 0 <= i < |s| ==> digit(s[i]) || s[i] in UPPER || s[i] in LOWER || s[i] == '-'
  }

  /** Identifiers joined by dots, after a mark; nothing if there are none. */
  function Part(mark: string, ids: seq<string>): string {
    if ids == [] then "" else mark + Join(ids, ".")
  }

  /** `v` spells the version: its three numbers in decimal digits, its identifiers, and any build identifiers. */
  ghost predicate Spells(digit: char -> bool, v: string, r: Release, build: seq<string>) {
    && v == "v" + (Decimal(r.major) + "." + Decimal(r.minor) + "." + Decimal(r.patch) + Part("-", r.pre)) + Part("+", build)
    && r.major <= 0x7FFF_FFFF_FFFF_FFFF && r.minor <= 0x7FFF_FFFF_FFFF_FFFF && r.patch <= 0x7FFF_FFFF_FFFF_FFFF
    && (forall i :: 0 <= i < |r.pre| ==> Identifier(digit, r.pre[i]))
    && (forall i :: 0 <= i < |build| ==> Identifier(digit, build[i]))
  }

  /** A core number is read from exactly its decimal digits. */
  lemma NumericPartExactly(s: string, n: nat)
    ensures ParseNumericPart(s) == Some(n) <==> s == Decimal(n) && n <= 0x7FFF_FFFF_FFFF_FFFF
  {
    DecimalReads(n);
    if ParseNumericPart(s) == Some(n) {
      OnlyText(s);
    }
    hide Value, Decimal;
  }

  lemma IdentifierMeaning(digit: char -> bool, s: string)
    ensures Identifier(digit, s) <==>
              s != "" && forall c :: c in s ==> digit(c) || 'A' <= c <= 'Z' || 'a' <= c <= 'z' || c == '-'
  {
    forall i | 0 <= i < |s|
      ensures s[i] in UPPER <==> 'A' <= s[i] <= 'Z'
      ensures s[i] in LOWER <==> 'a' <= s[i] <= 'z'
    {
      InAlphabet(s[i]);
    }
  }

  lemma IdentifiersMeaning(digit: char -> bool, ids: seq<string>)
    requires MarksAreNoDigits(digit) && ids != []
    ensures (forall i :: 0 <= i < |ids| ==> Identifier(digit, ids[i])) ==>
              Split(Join(ids, "."), '.') == ids && ValidDotIdentifiers(digit, Join(ids, "."))
  {
    if forall i :: 0 <= i < |ids| ==> Identifier(digit, ids[i]) {
      forall id | id in ids
        ensures id != "" && forall c :: c in id ==> digit(c) || 'A' <= c <= 'Z' || 'a' <= c <= 'z' || c == '-'
      {
        IdentifierMeaning(digit, id);
      }
      hide Split, Join;
      SplitJoin(ids, '.');
    }
  }

  lemma PartOfText(digit: char -> bool, s: string)
    ensures Join(Split(s, '.'), ".") == s
    ensures ValidDotIdentifiers(digit, s) ==> forall i :: 0 <= i < |Split(s, '.')| ==> Identifier(digit, Split(s, '.')[i])
  {
    JoinSplit(s, '.');
    hide Split, Join;
    if ValidDotIdentifiers(digit, s) {
      forall i | 0 <= i < |Split(s, '.')|
        ensures Identifier(digit, Split(s, '.')[i])
      {
        assert Split(s, '.')[i] in Split(s, '.');
        IdentifierMeaning(digit, Split(s, '.')[i]);
      }
    }
  }

  lemma SplitPart(digit: char -> bool, mark: string, s: string)
    ensures Part(mark, Split(s, '.')) == mark + s
  {
    PartOfText(digit, s);
    hide Split, Join;
  }

  lemma CutSpells(digit: char -> bool, v: string, r: Release, a: string, b: string, c: string, pre: Option<string>, build: Option<string>)
    requires IsCut(digit, v, r, a, b, c, pre, build)
    ensures Spells(digit, v, r, if build.Some? then Split(build.value, '.') else [])
  {
    hide Split, Join, Decimal, ParseNumericPart, ValidDotIdentifiers, Identifier, Part;
    NumericPartExactly(a, r.major);
    NumericPartExactly(b, r.minor);
    NumericPartExactly(c, r.patch);
    assert Part("-", []) == "" && Part("+", []) == "" by {
      NoPart("-");
      NoPart("+");
    }
    if pre.Some? {
      PartOfText(digit, pre.value);
      SplitPart(digit, "-", pre.value);
    }
    if build.Some? {
      PartOfText(digit, build.value);
      SplitPart(digit, "+", build.value);
    }
    assert After("-", pre) == Part("-", r.pre);
  }

  lemma NoPart(mark: string)
    ensures Part(mark, []) == ""
  {
  }

  lemma PartAfter(mark: string, ids: seq<string>)
    ensures After(mark, if ids == [] then None else Some(Join(ids, "."))) == Part(mark, ids)
  {
    hide Join;
  }

  lemma SpellingCuts(digit: char -> bool, v: string, r: Release, build: seq<string>)
    requires MarksAreNoDigits(digit) && Spells(digit, v, r, build)
    ensures IsCut(digit, v, r, Decimal(r.major), Decimal(r.minor), Decimal(r.patch),
                  if r.pre == [] then None else Some(Join(r.pre, ".")), if build == [] then None else Some(Join(build, ".")))
  {
    hide Split, Join, Decimal, ParseNumericPart, ValidDotIdentifiers, Identifier, MarksAreNoDigits, Part, After;
    NumericPartExactly(Decimal(r.major), r.major);
    NumericPartExactly(Decimal(r.minor), r.minor);
    NumericPartExactly(Decimal(r.patch), r.patch);
    PartAfter("-", r.pre);
    PartAfter("+", build);
    if r.pre != [] {
      IdentifiersMeaning(digit, r.pre);
    }
    if build != [] {
      IdentifiersMeaning(digit, build);
    }
  }

  /** A string is a release version exactly when, spaces around it aside, it spells one; and then it is that one. */
  lemma ParseExactly(digit: char -> bool, text: string, r: Release)
    requires MarksAreNoDigits(digit)
    ensures ParseRelease(digit, text) == Some(r) <==> exists build :: Spells(digit, TrimSpace(text), r, build)
  {
    CutExactly(digit, text, r);
    hide ParseRelease, TrimSpace, IsCut, Spells, MarksAreNoDigits;
    var v := TrimSpace(text);
    if a, b, c, pre, build :| IsCut(digit, v, r, a, b, c, pre, build) {
      CutSpells(digit, v, r, a, b, c, pre, build);
    }
    if build :| Spells(digit, v, r, build) {
      SpellingCuts(digit, v, r, build);
    }
  }

  // ---- Section 11 on texts ----

  /** A version as it is written: the digits of its core numbers, and its identifiers. */
  datatype Written = Written(major: string, minor: string, patch: string, pre: seq<string>)

  function WrittenAs(r: Release): Written {
    Written(Decimal(r.major), Decimal(r.minor), Decimal(r.patch), r.pre)
  }

  /** For numbers without leading zeros: the shorter one is lower, and of equal length the one with the lower first difference. */
  predicate ShorterOrLower(a: string, b: string) {
    |a| < |b| || (|a| == |b| && StringLess(a, b))
  }

  /** The order of section 11, read off the texts. */
  ghost predicate WrittenPrecedes(a: Written, b: Written) {
    || ShorterOrLower(a.major, b.major)
    || (a.major == b.major && ShorterOrLower(a.minor, b.minor))
    || (a.major == b.major && a.minor == b.minor && ShorterOrLower(a.patch, b.patch))
    || (a.major == b.major && a.minor == b.minor && a.patch == b.patch &&
        if a.pre == [] then false else if b.pre == [] then true else ListPrecedes(a.pre, b.pre))
  }

  lemma WrittenOrder(r: Release, w: Release)
    ensures WrittenPrecedes(WrittenAs(r), WrittenAs(w)) <==> Precedes(r, w)
  {
    DecimalOrder(r.major, w.major);
    DecimalOrder(r.minor, w.minor);
    DecimalOrder(r.patch, w.patch);
    hide Decimal, StringLess, ListPrecedes;
  }

  // ---- Numbers past an int, as text ----

  /** The text of a version without build identifiers. */
  function TextOf(r: Release): string {
    "v" + (Decimal(r.major) + "." + Decimal(r.minor) + "." + Decimal(r.patch) + Part("-", r.pre)) + Part("+", [])
  }

  lemma TextTrimmed(r: Release)
    requires r.pre != [] && r.pre[|r.pre| - 1] == "-"
    ensures TrimSpace(TextOf(r)) == TextOf(r)
  {
    JoinEnds(r.pre, ".");
    hide Join, Decimal;
    var text, j := TextOf(r), Join(r.pre, ".");
    assert text == "v" + (Decimal(r.major) + "." + Decimal(r.minor) + "." + Decimal(r.patch) + "-") + j;
    assert text[0] == 'v' && text[|text| - 1] == '-';
    TrimmedStays(text);
  }

  /** A witness is spelled by its text, because its identifiers are those of a spelled version and a hyphen. */
  lemma WitnessSpelled(digit: char -> bool, v: string, r: Release, build: seq<string>, k: nat)
    requires Spells(digit, v, r, build) && k < |r.pre|
    ensures Spells(digit, TextOf(Witness(r, k)), Witness(r, k), [])
  {
    hide Part, Decimal;
    var w := Witness(r, k);
    forall i | 0 <= i < |w.pre|
      ensures Identifier(digit, w.pre[i])
    {
      if i < k {
        assert w.pre[i] == r.pre[i];
      }
    }
    hide Identifier;
  }

  /**
   For every string that parses to a version with a numeric identifier past an int there is another
   string, of a version that fits, with which CompareRelease disagrees with section 11.
   */
  lemma TooLargeText(digit: char -> bool, text: string, r: Release) returns (other: string, w: Release)
    requires MarksAreNoDigits(digit) && ParseRelease(digit, text) == Some(r) && !Fits(r)
    ensures ParseRelease(digit, other) == Some(w) && Fits(w) && WrittenPrecedes(WrittenAs(r), WrittenAs(w))
    ensures CompareRelease(digit, text, other) == Some(1)
  {
    hide ParseRelease, Spells, MarksAreNoDigits, TrimSpace, TextOf, WrittenAs, WrittenPrecedes;
    var k := FirstTooLarge(r);
    TooLargeDisagrees(r, k);
    hide Fits, Precedes, Compare;
    w := Witness(r, k);
    WrittenOrder(r, w);
    ParseExactly(digit, text, r);
    var build :| Spells(digit, TrimSpace(text), r, build);
    WitnessSpelled(digit, TrimSpace(text), r, build, k);
    TextTrimmed(w);
    other := TextOf(w);
    ParseExactly(digit, other, w);
  }

  /**
   CompareRelease follows section 11 for a string against all strings of versions that fit exactly
   when the string's own version fits.
   */
  lemma TextMatchesSemver(digit: char -> bool, text: string, r: Release)
    requires MarksAreNoDigits(digit) && ParseRelease(digit, text) == Some(r)
    ensures Fits(r) <==>
              forall other: string, w: Release :: ParseRelease(digit, other) == Some(w) && Fits(w) ==>
                (CompareRelease(digit, text, other) == Some(-1) <==> WrittenPrecedes(WrittenAs(r), WrittenAs(w)))
  {
    hide ParseRelease, Fits, Precedes, Compare, MarksAreNoDigits, WrittenPrecedes, WrittenAs;
    if Fits(r) {
      forall other: string, w: Release | ParseRelease(digit, other) == Some(w) && Fits(w)
        ensures CompareRelease(digit, text, other) == Some(-1) <==> WrittenPrecedes(WrittenAs(r), WrittenAs(w))
      {
        AgreesWhenFits(r, w);
        WrittenOrder(r, w);
      }
    } else {
      var other, w := TooLargeText(digit, text, r);
      WrittenOrder(r, w);
      assert ParseRelease(digit, other) == Some(w);
    }
  }
}
