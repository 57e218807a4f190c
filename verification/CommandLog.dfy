/** Logging a command's output line by line, however the output is cut into writes. */
module CommandLog {
  import opened Text

  /** What is collected: the unfinished line, and the lines logged so far. */
  datatype Collected = Collected(line: string, logged: seq<string>)

  const NOTHING := Collected("", [])

  function TrimBlanks(s: string): string {
    if s != "" && (s[|s| - 1] == ' ' || s[|s| - 1] == '\t') then TrimBlanks(s[..|s| - 1]) else s
  }

  /** logLine: right-trimmed, and nothing at all for a blank line. */
  function LineLogged(line: string): seq<string> {
    if TrimSpace(TrimBlanks(line)) == "" then [] else [TrimBlanks(line)]
  }

  function LinesLogged(lines: seq<string>): seq<string> {
    if lines == [] then [] else LineLogged(lines[0]) + LinesLogged(lines[1..])
  }

  function ReplaceCr(s: string): string {
    if s == "" then "" else [if s[0] == '\r' then '\n' else s[0]] + ReplaceCr(s[1..])
  }

  /** One write's text with every line end written as a newline. */
  function Normalized(s: string): string {
    ReplaceCr(ReplaceCrLf(s))
  }

  /** What the whole output should log: its non-blank lines, right-trimmed, in order. */
  function Reference(output: string): seq<string> {
    LinesLogged(Split(Normalized(output), '\n'))
  }

  // ---- One character at a time ----

  function FeedChar(c: Collected, ch: char): Collected {
    if ch == '\n' then Collected("", c.logged + LineLogged(c.line)) else c.(line := c.line + [ch])
  }

  function Feed(c: Collected, text: string): Collected
    decreases |text|
  {
    if text == "" then c else Feed(FeedChar(c, text[0]), text[1..])
  }

  function Flushed(c: Collected): Collected {
    Collected("", c.logged + LineLogged(c.line))
  }

  lemma {:induction false} FeedSum(c: Collected, a: string, b: string)
    ensures Feed(c, a + b) == Feed(Feed(c, a), b)
    decreases |a|
  {
    if a == "" {
      assert a + b == b;
    } else {
      assert (a + b)[1..] == a[1..] + b;
      FeedSum(FeedChar(c, a[0]), a[1..], b);
    }
  }

  lemma {:induction false} FeedPlain(c: Collected, a: string)
    requires '\n' !in a
    ensures Feed(c, a) == c.(line := c.line + a)
    decreases |a|
  {
    if a != "" {
      FeedPlain(FeedChar(c, a[0]), a[1..]);
      assert c.line + [a[0]] + a[1..] == c.line + a;
    } else {
      assert c.line + a == c.line;
    }
  }

  lemma FeedNewline(c: Collected)
    ensures Feed(c, "\n") == FeedChar(c, '\n')
  {
    assert "\n"[1..] == "";
  }

  lemma FeedLine(c: Collected, before: string, after: string)
    requires '\n' !in before
    ensures Feed(c, before + "\n" + after) == Feed(Collected("", c.logged + LineLogged(c.line + before)), after)
  {
    FeedSum(c, before + "\n", after);
    FeedSum(c, before, "\n");
    FeedPlain(c, before);
    FeedNewline(c.(line := c.line + before));
    hide Feed, LineLogged;
  }

  lemma SplitStep(text: string, c: char)
    ensures var i := IndexOf(text, c);
            if i < |text| then
              c !in text[..i] && text == text[..i] + [c] + text[i + 1..] &&
              LinesLogged(Split(text, c)) == LineLogged(text[..i]) + LinesLogged(Split(text[i + 1..], c))
            else c !in text && LinesLogged(Split(text, c)) == LineLogged(text)
  {
    hide LineLogged, IndexOf;
    var i := IndexOf(text, c);
    if i < |text| {
      assert Split(text, c)[1..] == Split(text[i + 1..], c);
    } else {
      assert Split(text, c)[1..] == [];
    }
  }

  /** Feeding a text and flushing logs the lines that splitting it yields. */
  lemma {:induction false} FeedSplits(logged: seq<string>, text: string)
    ensures Flushed(Feed(Collected("", logged), text)).logged == logged + LinesLogged(Split(text, '\n'))
    decreases |text|
  {
    SplitStep(text, '\n');
    hide LineLogged, Feed, Split, LinesLogged, IndexOf;
    var i := IndexOf(text, '\n');
    if i < |text| {
      var first, rest := text[..i], text[i + 1..];
      FeedLine(Collected("", logged), first, rest);
      assert "" + first == first;
      FeedSplits(logged + LineLogged(first), rest);
      assert logged + LineLogged(first) + LinesLogged(Split(rest, '\n')) == logged + (LineLogged(first) + LinesLogged(Split(rest, '\n')));
    } else {
      FeedPlain(Collected("", logged), text);
      assert "" + text == text;
    }
  }

  // ---- Line ends across writes ----

  lemma {:induction false} ReplaceCrSum(a: string, b: string)
    ensures ReplaceCr(a + b) == ReplaceCr(a) + ReplaceCr(b)
  {
    if a == "" {
      assert a + b == b;
    } else {
      assert (a + b)[1..] == a[1..] + b;
      ReplaceCrSum(a[1..], b);
    }
  }

  /** Normalising write by write costs at most a blank line, and that is never logged. */
  lemma FeedNormalized(c: Collected, a: string, b: string)
    ensures Feed(c, Normalized(a + b)) == Feed(Feed(c, Normalized(a)), Normalized(b))
  {
    var front := ReplaceCrLfSum(a, b);
    if CutsLineEnd(a, b) {
      NewlineFirst(b);
      var rest := ReplaceCr(ReplaceCrLf(b[1..]));
      ReplaceCrSum(front, "\r");
      ReplaceCrSum(front, ReplaceCrLf(b));
      ReplaceCrSum("\n", ReplaceCrLf(b[1..]));
      OneLineEnd();
      var f := ReplaceCr(front);
      assert Normalized(a) == f + "\n" && Normalized(b) == "\n" + rest && Normalized(a + b) == f + ("\n" + rest);
      hide ReplaceCr, ReplaceCrLf, Normalized;
      FeedSum(c, f, "\n" + rest);
      FeedSum(c, f, "\n");
      TwoNewlines(Feed(c, f), rest);
    } else {
      ReplaceCrSum(ReplaceCrLf(a), ReplaceCrLf(b));
      FeedSum(c, Normalized(a), Normalized(b));
    }
  }

  lemma OneLineEnd()
    ensures ReplaceCr("\r") == "\n" && ReplaceCr("\n") == "\n"
  {
    assert "\r"[1..] == "" && "\n"[1..] == "";
  }

  lemma TwoNewlines(c: Collected, rest: string)
    ensures Feed(Feed(c, "\n"), "\n" + rest) == Feed(c, "\n" + rest)
  {
    FeedSum(Feed(c, "\n"), "\n", rest);
    FeedSum(c, "\n", rest);
    FeedNewline(c);
    FeedNewline(FeedChar(c, '\n'));
    assert LineLogged("") == [];
    hide Feed, LineLogged;
    var one := FeedChar(c, '\n');
    assert one.logged + [] == one.logged;
  }

  // ---- Any sequence of writes ----

  function Concatenated(writes: seq<string>): string {
    if writes == [] then "" else Concatenated(writes[..|writes| - 1]) + writes[|writes| - 1]
  }

  function AfterWrites(writes: seq<string>): Collected {
    if writes == [] then NOTHING
    else Feed(AfterWrites(writes[..|writes| - 1]), Normalized(writes[|writes| - 1]))
  }

  lemma {:induction false} WritesFeedWhole(writes: seq<string>)
    ensures AfterWrites(writes) == Feed(NOTHING, Normalized(Concatenated(writes)))
  {
    if writes != [] {
      var front, last := writes[..|writes| - 1], writes[|writes| - 1];
      WritesFeedWhole(front);
      FeedNormalized(NOTHING, Concatenated(front), last);
      hide Feed, Normalized;
    }
  }

  /** The lines logged once the output ends do not depend on how it was cut into writes. */
  lemma LinesIndependentOfWrites(writes: seq<string>)
    ensures Flushed(AfterWrites(writes)).logged == Reference(Concatenated(writes))
  {
    WritesFeedWhole(writes);
    FeedSplits([], Normalized(Concatenated(writes)));
    assert [] + Reference(Concatenated(writes)) == Reference(Concatenated(writes));
    hide AfterWrites, Feed, Normalized, Split, LinesLogged;
  }

  /** A logged line is the line without the spaces and tabs at its end. */
  lemma {:induction false} BlanksTrimmed(s: string) returns (k: nat)
    ensures k <= |s| && TrimBlanks(s) == s[..k]
    ensures forall i :: k <= i < |s| ==> s[i] in " \t"
    ensures 0 < k ==> s[k - 1] !in " \t"
  {
    k := |s|;
    if s != "" && s[|s| - 1] in " \t" {
      k := BlanksTrimmed(s[..|s| - 1]);
    }
  }

  /** The reference logs a line exactly for each non-blank line, without the blanks at its end. */
  lemma {:induction false} LinesLoggedMeaning(lines: seq<string>, line: string)
    ensures line in LinesLogged(lines) <==>
              exists k :: 0 <= k < |lines| && line == TrimBlanks(lines[k]) && TrimSpace(line) != ""
  {
    hide TrimBlanks, TrimSpace;
    if lines != [] {
      LinesLoggedMeaning(lines[1..], line);
      if k :| 0 <= k < |lines| && line == TrimBlanks(lines[k]) && TrimSpace(line) != "" {
        assert k > 0 ==> lines[k] == lines[1..][k - 1];
      }
      if k :| 0 <= k < |lines[1..]| && line == TrimBlanks(lines[1..][k]) && TrimSpace(line) != "" {
        assert lines[k + 1] == lines[1..][k];
      }
      assert line in LineLogged(lines[0]) <==> line == TrimBlanks(lines[0]) && TrimSpace(line) != "";
    }
  }

  // ---- The collector object ----

  class CommandOutputCollector {
    var line: string
    var logged: seq<string>

    constructor ()
      ensures State() == NOTHING
    {
      line, logged := "", [];
    }

    ghost function State(): Collected
      reads this
    {
      Collected(line, logged)
    }

    method LogLine(text: string)
      modifies this`logged
      ensures logged == old(logged) + LineLogged(text)
    {
      var trimmed := TrimBlanks(text);
      if TrimSpace(trimmed) == "" {
        return;
      }
      logged := logged + [trimmed];
    }

    /** log: appends the normalised text and logs every line that is now complete. */
    method Log(p: string)
      requires '\n' !in line
      modifies this
      ensures State() == Feed(old(State()), Normalized(p)) && '\n' !in line
    {
      hide Normalized, Feed, LineLogged;
      FeedSum(Collected("", logged), line, Normalized(p));
      FeedPlain(Collected("", logged), line);
      assert "" + line == line;
      ghost var target := Feed(State(), Normalized(p));
      line := line + Normalized(p);
      while true
        invariant Feed(Collected("", logged), line) == target
        decreases |line|
      {
        var current := line;
        var (before, after, found) := Cut(current, '\n');
        if !found {
          FeedPlain(Collected("", logged), line);
          assert "" + line == line;
          return;
        }
        assert current == before + "\n" + after;
        FeedLine(Collected("", logged), before, after);
        assert "" + before == before;
        LogLine(before);
        line := after;
      }
    }

    method Flush()
      modifies this
      ensures State() == Flushed(old(State()))
    {
      if |line| == 0 {
        assert LineLogged("") == [];
        return;
      }
      LogLine(line);
      line := "";
    }
  }
}
