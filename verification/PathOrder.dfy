/** The order in which change sets are sorted: slash-joined path names, compared character by character. */
module PathOrder {
  import opened FileTree
  import opened Text

  function StringLess(a: string, b: string): bool {
    b != [] && (a == [] || a[0] < b[0] || (a[0] == b[0] && StringLess(a[1..], b[1..])))
  }

  lemma SameStart(a: string, b: string, k: nat)
    requires 0 < k <= |a| && k <= |b| && a[..k] == b[..k]
    ensures a[0] == b[0]
  {
    assert a[..k][0] == b[..k][0];
  }

  /** The first difference decides; a text comes before its extensions. */
  lemma {:induction false} StringLessMeaning(a: string, b: string)
    ensures StringLess(a, b) <==>
              exists k :: 0 <= k <= |a| && k <= |b| && a[..k] == b[..k] && k < |b| && (k == |a| || a[k] < b[k])
  {
    if a != [] && b != [] && a[0] == b[0] {
      StringLessMeaning(a[1..], b[1..]);
      if StringLess(a, b) {
        var k :| 0 <= k <= |a[1..]| && k <= |b[1..]| && a[1..][..k] == b[1..][..k] && k < |b[1..]| && (k == |a[1..]| || a[1..][k] < b[1..][k]);
        assert a[..k + 1] == [a[0]] + a[1..][..k] && b[..k + 1] == [b[0]] + b[1..][..k];
        assert k + 1 == |a| || a[k + 1] < b[k + 1];
      }
      if k :| 0 <= k <= |a| && k <= |b| && a[..k] == b[..k] && k < |b| && (k == |a| || a[k] < b[k]) {
        assert k > 0;
        assert a[1..][..k - 1] == a[..k][1..] && b[1..][..k - 1] == b[..k][1..];
      }
    } else if StringLess(a, b) {
      assert a[..0] == b[..0];
    } else {
      forall k | 0 <= k <= |a| && k < |b| && a[..k] == b[..k] && (k == |a| || a[k] < b[k])
        ensures StringLess(a, b)
      {
        if k > 0 {
          SameStart(a, b, k);
        }
      }
    }
  }

  lemma {:induction false} StringLessTotal(a: string, b: string)
    ensures StringLess(a, b) || StringLess(b, a) || a == b
    ensures !(StringLess(a, b) && StringLess(b, a))
    ensures !StringLess(a, a)
  {
    if a != [] {
      StringLessTotal(a[1..], a[1..]);
      if b != [] && a[0] == b[0] {
        StringLessTotal(a[1..], b[1..]);
        assert a == [a[0]] + a[1..] && b == [b[0]] + b[1..];
      }
    }
  }

  lemma {:induction false} StringLessTransitive(a: string, b: string, c: string)
    requires !StringLess(b, a) && !StringLess(c, b)
    ensures !StringLess(c, a)
  {
    if a != [] && b != [] && c != [] && a[0] == b[0] == c[0] {
      StringLessTransitive(a[1..], b[1..], c[1..]);
    }
  }

  lemma {:induction false} PrefixIsLess(a: string, b: string)
    requires b != []
    ensures StringLess(a, a + b)
  {
    if a != [] {
      PrefixIsLess(a[1..], b);
      assert (a + b)[1..] == a[1..] + b;
    }
  }

  /** The manifest name of a path: its segments joined by slashes, "." for the root. */
  function Name(p: Path): string {
    if p == [] then "." else if |p| == 1 then p[0] else Name(Parent(p)) + "/" + p[|p| - 1]
  }

  lemma {:induction false} JoinLast(parts: seq<string>, last: string, separator: string)
    requires parts != []
    ensures Join(parts + [last], separator) == Join(parts, separator) + separator + last
  {
    assert (parts + [last])[1..] == parts[1..] + [last];
    if |parts| > 1 {
      JoinLast(parts[1..], last, separator);
    } else {
      assert parts[1..] + [last] == [last];
    }
  }

  /** A name is the segments joined by slashes. */
  lemma {:induction false} NameMeaning(p: Path)
    ensures Name([]) == "."
    ensures p != [] ==> Name(p) == Join(p, "/")
    decreases |p|
  {
    if |p| > 1 {
      NameMeaning(Parent(p));
      assert p == Parent(p) + [p[|p| - 1]];
      JoinLast(Parent(p), p[|p| - 1], "/");
    }
  }

  predicate PathLess(p: Path, q: Path) {
    StringLess(Name(p), Name(q))
  }

  /** A directory sorts before everything below it. */
  lemma {:induction false} ParentSortsFirst(q: Path, p: Path)
    requires p != [] && Below(q, p)
    ensures PathLess(p, q)
    decreases |q|
  {
    var up := Parent(q);
    ParentIsAbove(q, p);
    var tail := "/" + q[|q| - 1];
    assert Name(q) == Name(up) + tail;
    PrefixIsLess(Name(up), tail);
    if up != p {
      ParentSortsFirst(up, p);
      StringLessTotal(Name(p), Name(up));
      StringLessTotal(Name(up), Name(q));
      if !PathLess(p, q) {
        StringLessTransitive(Name(q), Name(p), Name(up));
      }
    }
  }

  lemma NeverSortsBefore(q: Path, p: Path)
    requires p != [] && Below(q, p)
    ensures PathLess(p, q) && !PathLess(q, p)
  {
    ParentSortsFirst(q, p);
    StringLessTotal(Name(p), Name(q));
  }
}
