/** Release versions: parsing, and the order in which an update check compares them. */
module ReleaseVersion {
  import opened Options
  import opened PathOrder
  import opened Text
  import opened Decimals

  const MAX_INT := 0x7FFF_FFFF_FFFF_FFFF

  datatype Release = Release(major: nat, minor: nat, patch: nat, pre: seq<string>)

  /** parseDigits: digits that are not ASCII, and numbers past an int, do not count as numbers. */
  function ParseDigits(s: string): Option<nat> {
    if AsciiDigits(s) && Value(s) <= MAX_INT then Some(Value(s)) else None
  }

  function ParseNumericPart(s: string): Option<nat> {
    if |s| > 1 && s[0] == '0' then None else ParseDigits(s)
  }

  /** validDotIdentifiers; which characters are digits is left to the Unicode tables. */
  predicate ValidDotIdentifiers(digit: char -> bool, s: string) {
    forall part :: part in Split(s, '.') ==>
      part != "" && forall c :: c in part ==> digit(c) || 'A' <= c <= 'Z' || 'a' <= c <= 'z' || c == '-'
  }

  function ParseRelease(digit: char -> bool, text: string): Option<Release> {
    var v := TrimSpace(text);
    if v == "" || v[0] != 'v' then None
    else
      var (core, metadata, hasBuild) := Cut(v[1..], '+');
      if core == "" then None
      else
        var (base, pre, hasPre) := Cut(core, '-');
        var parts := Split(base, '.');
        if |parts| != 3 then None
        else match (ParseNumericPart(parts[0]), ParseNumericPart(parts[1]), ParseNumericPart(parts[2]))
          case (Some(major), Some(minor), Some(patch)) =>
            if hasPre && !ValidDotIdentifiers(digit, pre) then None
            else if hasBuild && !ValidDotIdentifiers(digit, metadata) then None
            else Some(Release(major, minor, patch, if hasPre then Split(pre, '.') else []))
          case _ => None
  }

  // ---- Comparing ----

  function CompareNumbers(a: nat, b: nat): int {
    if a < b then -1 else if a > b then 1 else 0
  }

  function CompareText(a: string, b: string): int {
    if StringLess(a, b) then -1 else if StringLess(b, a) then 1 else 0
  }

  function CompareIdentifier(a: string, b: string): int {
    match (ParseDigits(a), ParseDigits(b))
    case (Some(m), Some(n)) => CompareNumbers(m, n)
    case (Some(_), None) => -1
    case (None, Some(_)) => 1
    case (None, None) => CompareText(a, b)
  }

  /** The loop over two identifier lists, from index `i` on. */
  function CompareFrom(a: seq<string>, b: seq<string>, i: nat): int
    requires i <= |a| && i <= |b|
    decreases |a| - i
  {
    if i == |a| || i == |b| then CompareNumbers(|a|, |b|)
    else if CompareIdentifier(a[i], b[i]) != 0 then CompareIdentifier(a[i], b[i])
    else CompareFrom(a, b, i + 1)
  }

  function ComparePrerelease(a: seq<string>, b: seq<string>): int {
    if a == [] && b == [] then 0
    else if a == [] then 1
    else if b == [] then -1
    else CompareFrom(a, b, 0)
  }

  function Compare(a: Release, b: Release): int {
    if a.major != b.major then CompareNumbers(a.major, b.major)
    else if a.minor != b.minor then CompareNumbers(a.minor, b.minor)
    else if a.patch != b.patch then CompareNumbers(a.patch, b.patch)
    else ComparePrerelease(a.pre, b.pre)
  }

  function CompareRelease(digit: char -> bool, a: string, b: string): Option<int> {
    match (ParseRelease(digit, a), ParseRelease(digit, b))
    case (Some(r), Some(s)) => Some(Compare(r, s))
    case _ => None
  }

  // ---- A total preorder ----

  /** Three comparisons are consistent: what the first two say forces the third. */
  predicate Consistent(ab: int, bc: int, ac: int) {
    && (ab <= 0 && bc <= 0 ==> ac <= 0 && (ac == 0 <==> ab == 0 && bc == 0))
    && (ab >= 0 && bc >= 0 ==> ac >= 0 && (ac == 0 <==> ab == 0 && bc == 0))
  }

  lemma TextOrder(a: string, b: string, c: string)
    ensures CompareText(a, b) == -CompareText(b, a)
    ensures Consistent(CompareText(a, b), CompareText(b, c), CompareText(a, c))
  {
    StringLessTotal(a, b);
    StringLessTotal(b, c);
    StringLessTotal(a, c);
    if !StringLess(b, a) && !StringLess(c, b) {
      StringLessTransitive(a, b, c);
    }
    if !StringLess(a, b) && !StringLess(b, c) {
      StringLessTransitive(c, b, a);
    }
    hide StringLess;
  }

  lemma IdentifierOrder(a: string, b: string, c: string)
    ensures CompareIdentifier(a, b) == -CompareIdentifier(b, a)
    ensures Consistent(CompareIdentifier(a, b), CompareIdentifier(b, c), CompareIdentifier(a, c))
  {
    TextOrder(a, b, c);
    hide CompareText, ParseDigits;
  }

  lemma {:induction false} FromOrder(a: seq<string>, b: seq<string>, c: seq<string>, i: nat)
    requires i <= |a| && i <= |b| && i <= |c|
    ensures CompareFrom(a, b, i) == -CompareFrom(b, a, i)
    ensures Consistent(CompareFrom(a, b, i), CompareFrom(b, c, i), CompareFrom(a, c, i))
    decreases |a| - i
  {
    hide CompareIdentifier;
    if i < |a| && i < |b| {
      IdentifierOrder(a[i], b[i], b[i]);
      FromOrder(a, b, b, i + 1);
      if i < |c| {
        IdentifierOrder(a[i], b[i], c[i]);
        FromOrder(a, b, c, i + 1);
      }
    }
  }

  lemma ReleaseOrder(a: Release, b: Release, c: Release)
    ensures Compare(a, b) == -Compare(b, a)
    ensures Consistent(Compare(a, b), Compare(b, c), Compare(a, c))
  {
    FromOrder(a.pre, b.pre, c.pre, 0);
    hide CompareFrom;
  }

  /**
   CompareRelease is a total preorder on the valid release strings: it answers for exactly those,
   swapping the arguments swaps the sign, and it is transitive, strictly so when a step is strict.
   */
  lemma CompareReleaseOrder(digit: char -> bool, a: string, b: string, c: string)
    ensures CompareRelease(digit, a, b).Some? <==> ParseRelease(digit, a).Some? && ParseRelease(digit, b).Some?
    ensures CompareRelease(digit, a, b).Some? ==> CompareRelease(digit, b, a) == Some(-CompareRelease(digit, a, b).value)
    ensures CompareRelease(digit, a, b).Some? && CompareRelease(digit, b, c).Some? ==>
              && CompareRelease(digit, a, c).Some?
              && Consistent(CompareRelease(digit, a, b).value, CompareRelease(digit, b, c).value, CompareRelease(digit, a, c).value)
  {
    hide ParseRelease, Compare, Consistent;
    match (ParseRelease(digit, a), ParseRelease(digit, b))
    case (Some(r), Some(s)) =>
      ReleaseOrder(r, s, s);
      if ParseRelease(digit, c).Some? {
        ReleaseOrder(r, s, ParseRelease(digit, c).value);
      }
    case _ =>
  }

  // ---- Semantic Versioning 2.0.0, section 11 ----

  /** Numeric identifiers are those of digits alone, of any length. */
  predicate IdentifierPrecedes(a: string, b: string) {
    if AsciiDigits(a) && AsciiDigits(b) then NumberLess(a, b)
    else if AsciiDigits(a) then true
    else if AsciiDigits(b) then false
    else StringLess(a, b)
  }

  predicate SameIdentifier(a: string, b: string) {
    if AsciiDigits(a) && AsciiDigits(b) then WithoutZeros(a) == WithoutZeros(b) else a == b
  }

  /** The lists are the same up to `k`, and there `a` has the lower identifier or ends first. */
  ghost predicate DecidedAt(a: seq<string>, b: seq<string>, k: int) {
    && 0 <= k <= |a| && k <= |b|
    && (forall i :: 0 <= i < k ==> SameIdentifier(a[i], b[i]))
    && (if k < |a| && k < |b| then IdentifierPrecedes(a[k], b[k]) else k == |a| && k < |b|)
  }

  /** The first difference decides; a longer list wins if there is none. */
  ghost predicate ListPrecedes(a: seq<string>, b: seq<string>) {
    exists k :: DecidedAt(a, b, k)
  }

  ghost predicate Precedes(a: Release, b: Release) {
    || a.major < b.major
    || (a.major == b.major && a.minor < b.minor)
    || (a.major == b.major && a.minor == b.minor && a.patch < b.patch)
    || (a.major == b.major && a.minor == b.minor && a.patch == b.patch &&
        if a.pre == [] then false else if b.pre == [] then true else ListPrecedes(a.pre, b.pre))
  }

  /** Every numeric identifier fits an int. */
  predicate Fits(r: Release) {
    forall s :: s in r.pre && AsciiDigits(s) ==> !NumberLess(Decimal(0x7FFF_FFFF_FFFF_FFFF), s)
  }

  /** An identifier of digits is read as a number exactly if its text is not above that of the largest int. */
  lemma FitsMeaning(s: string)
    requires AsciiDigits(s)
    ensures Value(s) <= MAX_INT <==> !NumberLess(Decimal(0x7FFF_FFFF_FFFF_FFFF), s)
  {
    DecimalReads(MAX_INT);
    NumberOrder(Decimal(MAX_INT), s);
    hide NumberLess, Value, Decimal;
  }

  lemma FitsValues(r: Release)
    ensures Fits(r) <==> forall s :: s in r.pre && AsciiDigits(s) ==> Value(s) <= MAX_INT
  {
    forall s | s in r.pre && AsciiDigits(s)
      ensures Value(s) <= MAX_INT <==> !NumberLess(Decimal(0x7FFF_FFFF_FFFF_FFFF), s)
    {
      FitsMeaning(s);
    }
    hide Value, NumberLess, AsciiDigits, Decimal;
  }

  lemma IdentifierAgrees(a: string, b: string)
    requires AsciiDigits(a) ==> Value(a) <= MAX_INT
    requires AsciiDigits(b) ==> Value(b) <= MAX_INT
    ensures CompareIdentifier(a, b) == -1 <==> IdentifierPrecedes(a, b)
    ensures CompareIdentifier(a, b) == 0 <==> SameIdentifier(a, b)
  {
    StringLessTotal(a, b);
    if AsciiDigits(a) && AsciiDigits(b) {
      NumberOrder(a, b);
    }
    hide Value, StringLess, AsciiDigits, NumberLess, WithoutZeros;
  }

  lemma {:induction false} ListAgrees(a: seq<string>, b: seq<string>, i: nat)
    requires i <= |a| && i <= |b|
    requires forall s :: s in a + b && AsciiDigits(s) ==> Value(s) <= MAX_INT
    requires forall k :: 0 <= k < i ==> SameIdentifier(a[k], b[k]) && !IdentifierPrecedes(a[k], b[k])
    ensures CompareFrom(a, b, i) == -1 <==> ListPrecedes(a, b)
    decreases |a| - i
  {
    if i < |a| && i < |b| {
      assert a[i] in a + b && b[i] in a + b;
      IdentifierAgrees(a[i], b[i]);
      StringLessTotal(a[i], b[i]);
      StringLessTotal(a[i], a[i]);
      hide Value, StringLess, AsciiDigits, CompareIdentifier;
      if SameIdentifier(a[i], b[i]) {
        assert !IdentifierPrecedes(a[i], b[i]);
        ListAgrees(a, b, i + 1);
      } else {
        FirstDifference(a, b, i);
      }
    } else {
      hide Value, StringLess, AsciiDigits, IdentifierPrecedes, CompareIdentifier;
      SameThroughout(a, b, i);
    }
  }

  lemma FirstDifference(a: seq<string>, b: seq<string>, i: nat)
    requires i < |a| && i < |b| && !SameIdentifier(a[i], b[i])
    requires forall k :: 0 <= k < i ==> SameIdentifier(a[k], b[k]) && !IdentifierPrecedes(a[k], b[k])
    ensures ListPrecedes(a, b) <==> IdentifierPrecedes(a[i], b[i])
  {
    hide SameIdentifier, IdentifierPrecedes;
    if k :| DecidedAt(a, b, k) {
      assert k == i;
    }
    assert IdentifierPrecedes(a[i], b[i]) ==> DecidedAt(a, b, i);
  }

  lemma SameThroughout(a: seq<string>, b: seq<string>, i: nat)
    requires i <= |a| && i <= |b| && (i == |a| || i == |b|)
    requires forall k :: 0 <= k < i ==> SameIdentifier(a[k], b[k]) && !IdentifierPrecedes(a[k], b[k])
    ensures ListPrecedes(a, b) <==> |a| < |b|
  {
    hide SameIdentifier, IdentifierPrecedes;
    if k :| DecidedAt(a, b, k) {
      assert k == i;
    }
    assert |a| < |b| ==> DecidedAt(a, b, i);
  }

  lemma AgreesWhenFits(a: Release, b: Release)
    requires Fits(a) && Fits(b)
    ensures Compare(a, b) == -1 <==> Precedes(a, b)
  {
    FitsValues(a);
    FitsValues(b);
    hide Fits;
    ListAgrees(a.pre, b.pre, 0);
    hide CompareFrom, ListPrecedes, Value, AsciiDigits;
  }

  /** The version that tells a too large identifier at `k` from a number: same start, then a hyphen. */
  function Witness(a: Release, k: nat): Release
    requires k < |a.pre|
  {
    a.(pre := a.pre[..k] + ["-"])
  }

  lemma {:induction false} EqualStart(a: seq<string>, b: seq<string>, i: nat, k: nat)
    requires i <= k < |a| && k < |b| && forall j :: 0 <= j < k ==> a[j] == b[j]
    ensures CompareFrom(a, b, i) == CompareFrom(a, b, k)
    decreases k - i
  {
    if i < k {
      IdentifierOrder(a[i], a[i], a[i]);
      EqualStart(a, b, i + 1, k);
    }
  }

  lemma TooLargeDisagrees(a: Release, k: nat)
    requires k < |a.pre| && AsciiDigits(a.pre[k]) && Value(a.pre[k]) > MAX_INT
    requires forall j :: 0 <= j < k && AsciiDigits(a.pre[j]) ==> Value(a.pre[j]) <= MAX_INT
    ensures Fits(Witness(a, k)) && Precedes(a, Witness(a, k)) && Compare(a, Witness(a, k)) == 1
  {
    var big, w := a.pre[k], Witness(a, k).pre;
    FitsValues(Witness(a, k));
    hide Value, Fits, NumberLess;
    assert '-' in "-";
    assert w[k] == "-" && !AsciiDigits("-");
    assert big[0] in big;
    assert StringLess("-", big) && !StringLess(big, "-");
    assert CompareIdentifier(big, "-") == 1;
    EqualStart(a.pre, w, 0, k);
    assert IdentifierPrecedes(a.pre[k], w[k]);
    assert DecidedAt(a.pre, w, k);
  }

  /**
   The comparison follows section 11 against every version that fits an int exactly when the
   version itself has no numeric identifier past an int.
   */
  lemma MatchesSemver(a: Release)
    ensures (forall b :: Fits(b) ==> (Compare(a, b) == -1 <==> Precedes(a, b))) <==> Fits(a)
  {
    if Fits(a) {
      forall b | Fits(b)
        ensures Compare(a, b) == -1 <==> Precedes(a, b)
      {
        AgreesWhenFits(a, b);
      }
    } else {
      var k := FirstTooLarge(a);
      TooLargeDisagrees(a, k);
    }
    hide Compare, Precedes, Fits;
  }

  lemma FirstTooLarge(a: Release) returns (k: nat)
    requires !Fits(a)
    ensures k < |a.pre| && AsciiDigits(a.pre[k]) && Value(a.pre[k]) > MAX_INT
    ensures forall j :: 0 <= j < k && AsciiDigits(a.pre[j]) ==> Value(a.pre[j]) <= MAX_INT
  {
    FitsValues(a);
    hide Value, AsciiDigits, Fits;
    k := 0;
    while k < |a.pre| && !(AsciiDigits(a.pre[k]) && Value(a.pre[k]) > MAX_INT)
      invariant k <= |a.pre|
      invariant forall j :: 0 <= j < k && AsciiDigits(a.pre[j]) ==> Value(a.pre[j]) <= MAX_INT
    {
      k := k + 1;
    }
  }
}
