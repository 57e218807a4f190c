/** The text form of a section update: line ends, splitting and joining, and the whole round trip. */
module ConfigText {
  import opened Options
  import opened Text
  import opened SectionConfig

  predicate HasCrLf(s: string) {
    exists i :: 0 <= i < |s| - 1 && s[i] == '\r' && s[i + 1] == '\n'
  }

  function NewlineOf(content: string): string {
    if HasCrLf(content) then "\r\n" else "\n"
  }

  /** A text that has a carriage return before some newline is written with both, any other text with newlines alone. */
  lemma NewlineMeaning(content: string)
    ensures (exists i :: 0 <= i < |content| - 1 && content[i] == '\r' && content[i + 1] == '\n') ==> NewlineOf(content) == "\r\n"
    ensures (forall i :: 0 <= i < |content| - 1 ==> !(content[i] == '\r' && content[i + 1] == '\n')) ==> NewlineOf(content) == "\n"
  {
  }

  function SplitLines(content: string): seq<string> {
    if content == "" then []
    else
      var lines := Split(content, '\n');
      if lines[|lines| - 1] == "" then lines[..|lines| - 1] else lines
  }

  /** ParseSection */
  function Parsed(content: string, section: string): Settings {
    ParseLines(SplitLines(ReplaceCrLf(content)), section)
  }

  /** The keys that get a line of their own, in order. */
  ghost predicate NewKeysInOrder(content: string, section: string, updates: Settings, keys: seq<string>) {
    Lists(keys, NewKeys(SplitLines(ReplaceCrLf(content)), section, updates))
  }

  /** The text after an update. */
  function Applied(content: string, section: string, updates: Settings, keys: seq<string>): string
    requires forall k :: k in keys ==> k in updates
  {
    Join(Updated(SplitLines(ReplaceCrLf(content)), section, updates, keys), NewlineOf(content))
  }

  // ---- Splitting and joining ----

  ghost predicate NoNewlines(lines: seq<string>) {
    forall line :: line in lines ==> '\n' !in line
  }

  /** Without its last line if that is empty. */
  function DropBlank(lines: seq<string>): seq<string> {
    if lines != [] && lines[|lines| - 1] == "" then lines[..|lines| - 1] else lines
  }

  lemma SplitLinesJoin(lines: seq<string>)
    requires NoNewlines(lines)
    ensures SplitLines(Join(lines, "\n")) == DropBlank(lines) || (Join(lines, "\n") == "" && (lines == [] || lines == [""]))
  {
    if lines != [] && Join(lines, "\n") != "" {
      SplitJoin(lines, '\n');
    }
  }

  // ---- Line ends ----

  lemma {:induction false} NoCrLfStays(s: string)
    requires !HasCrLf(s)
    ensures ReplaceCrLf(s) == s
    decreases |s|
  {
    if |s| >= 2 {
      var rest := s[1..];
      forall i | 0 <= i < |rest| - 1
        ensures !(rest[i] == '\r' && rest[i + 1] == '\n')
      {
        assert rest[i] == s[i + 1];
      }
      NoCrLfStays(s[1..]);
      assert s == [s[0]] + s[1..];
    }
  }

  lemma OneLineNoCrLf(line: string)
    requires '\n' !in line
    ensures ReplaceCrLf(line) == line
  {
    NoCrLfStays(line);
  }

  function Chop(line: string): string {
    if line != "" && line[|line| - 1] == '\r' then line[..|line| - 1] else line
  }

  /** How joined lines read once their line ends are replaced. */
  function Reread(lines: seq<string>, newline: string): seq<string> {
    if |lines| <= 1 then lines
    else [if newline == "\n" then Chop(lines[0]) else lines[0]] + Reread(lines[1..], newline)
  }

  lemma ReplaceAtLineEnd(line: string, rest: string)
    requires '\n' !in line
    ensures ReplaceCrLf(line + "\n" + rest) == Chop(line) + "\n" + ReplaceCrLf(rest)
    ensures ReplaceCrLf(line + "\r\n" + rest) == line + "\n" + ReplaceCrLf(rest)
  {
    OneLineNoCrLf(line);
    var short, long := "\n" + rest, "\r\n" + rest;
    assert line + "\n" + rest == line + short && line + "\r\n" + rest == line + long;
    assert short[1..] == rest && long[2..] == rest;
    NewlineFirst(short);
    var front := ReplaceCrLfSum(line, short);
    var other := ReplaceCrLfSum(line, long);
    assert ReplaceCrLf(long) == "\n" + ReplaceCrLf(rest);
    hide ReplaceCrLf;
    Associates(line, "\n", ReplaceCrLf(rest));
    Associates(Chop(line), "\n", ReplaceCrLf(rest));
    if CutsLineEnd(line, short) {
      assert line == front + "\r";
      assert Chop(line) == front;
    }
  }

  lemma {:induction false} ReplaceJoined(lines: seq<string>, newline: string)
    requires NoNewlines(lines) && newline in {"\n", "\r\n"}
    ensures ReplaceCrLf(Join(lines, newline)) == Join(Reread(lines, newline), "\n")
    ensures NoNewlines(Reread(lines, newline)) && |Reread(lines, newline)| == |lines|
  {
    hide ReplaceCrLf;
    if |lines| == 1 {
      assert lines[0] in lines;
      OneLineNoCrLf(lines[0]);
    } else if |lines| == 0 {
      OneLineNoCrLf("");
    } else {
      assert lines[0] in lines;
      var rest := lines[1..];
      ReplaceJoined(rest, newline);
      ReplaceAtLineEnd(lines[0], Join(rest, newline));
      assert Reread(lines, newline)[1..] == Reread(rest, newline);
    }
  }

  // ---- Lines that read the same ----

  /** A parser cannot tell the two lines apart. */
  ghost predicate ReadsSame(a: string, b: string) {
    SectionName(a) == SectionName(b) && SettingKey(a) == SettingKey(b) && SettingValue(a) == SettingValue(b)
  }

  ghost predicate AllReadSame(a: seq<string>, b: seq<string>) {
    |a| == |b| && forall i :: 0 <= i < |a| ==> ReadsSame(a[i], b[i])
  }

  lemma {:induction false} TrimLeftMore(s: string, c: char)
    requires IsSpace(c)
    ensures TrimLeft(s + [c]) == if TrimLeft(s) == "" then "" else TrimLeft(s) + [c]
  {
    hide IsSpace;
    if s == "" {
      assert s + [c] == [c] && [c][1..] == "";
    } else if IsSpace(s[0]) {
      assert (s + [c])[1..] == s[1..] + [c];
      TrimLeftMore(s[1..], c);
    }
  }

  lemma TrimSpaceMore(s: string, c: char)
    requires IsSpace(c)
    ensures TrimSpace(s + [c]) == TrimSpace(s)
  {
    TrimLeftMore(s, c);
    var t := TrimLeft(s);
    assert (t + [c])[..|t|] == t;
    hide IsSpace, TrimLeft;
  }

  lemma {:induction false} IndexOfMore(s: string, c: char, d: char)
    requires c != d
    ensures IndexOf(s + [d], c) == if IndexOf(s, c) < |s| then IndexOf(s, c) else |s| + 1
  {
    if s != "" {
      assert (s + [d])[1..] == s[1..] + [d];
      IndexOfMore(s[1..], c, d);
    } else {
      assert (s + [d])[1..] == "";
    }
  }

  lemma ChopReadsSame(line: string)
    ensures ReadsSame(Chop(line), line)
  {
    if line != "" && line[|line| - 1] == '\r' {
      var s := Chop(line);
      assert line == s + "\r" && IsSpace('\r');
      TrimSpaceMore(s, '\r');
      IndexOfMore(s, '=', '\r');
      var i := IndexOf(s, '=');
      if i < |s| {
        assert line[i + 1..] == s[i + 1..] + "\r";
        TrimSpaceMore(s[i + 1..], '\r');
      }
      hide TrimSpace, IsSpace, IndexOf;
    }
  }

  lemma ReadSameMore(a: seq<string>, b: seq<string>, x: string, y: string)
    requires AllReadSame(a, b) && ReadsSame(x, y)
    ensures AllReadSame([x] + a, [y] + b)
  {
    hide ReadsSame;
  }

  lemma SameAll(lines: seq<string>)
    ensures AllReadSame(lines, lines)
  {
    hide SectionName, SettingKey, SettingValue;
  }

  lemma {:induction false} RereadReadsSame(lines: seq<string>, newline: string)
    ensures AllReadSame(Reread(lines, newline), lines)
  {
    hide ReadsSame, Chop, AllReadSame;
    if |lines| <= 1 {
      SameAll(lines);
    } else {
      var first, rest := lines[0], lines[1..];
      RereadReadsSame(rest, newline);
      ChopReadsSame(first);
      SameReadsSame(first);
      ReadSameMore(Reread(rest, newline), rest, Chop(first), first);
      ReadSameMore(Reread(rest, newline), rest, first, first);
      assert lines == [first] + rest;
    }
  }

  lemma SameReadsSame(line: string)
    ensures ReadsSame(line, line)
  {
  }

  lemma {:induction false} SameStart(a: seq<string>, b: seq<string>, section: string, i: nat)
    requires AllReadSame(a, b) && i <= |a|
    ensures SectionStart(a, section, i) == SectionStart(b, section, i)
    ensures SectionEnd(a, i) == SectionEnd(b, i)
    decreases |a| - i
  {
    if i < |a| {
      assert ReadsSame(a[i], b[i]);
      SameStart(a, b, section, i + 1);
      hide SectionName, SettingKey, SettingValue;
    }
  }

  lemma {:induction false} SameSettings(a: seq<string>, b: seq<string>)
    requires AllReadSame(a, b)
    ensures SettingsOf(a) == SettingsOf(b)
  {
    if a != [] {
      SameSettings(a[..|a| - 1], b[..|b| - 1]);
      assert ReadsSame(a[|a| - 1], b[|b| - 1]);
      hide SectionName, SettingKey, SettingValue;
    }
  }

  lemma ReadSameSlice(a: seq<string>, b: seq<string>, i: nat, j: nat)
    requires AllReadSame(a, b) && i <= j <= |a|
    ensures AllReadSame(a[i..j], b[i..j])
  {
    hide ReadsSame;
  }

  lemma BodyAt(lines: seq<string>, section: string, start: nat, end: nat)
    requires start == SectionStart(lines, section, 0)
    requires start < |lines| ==> end == SectionEnd(lines, start + 1)
    ensures BodyOf(lines, section) == if start == |lines| then [] else lines[start + 1..end]
  {
    hide IsHeader, IsHeaderOf;
  }

  lemma SameParse(a: seq<string>, b: seq<string>, section: string)
    requires AllReadSame(a, b)
    ensures ParseLines(a, section) == ParseLines(b, section)
  {
    assert |a| == |b|;
    hide AllReadSame, SettingsOf, BodyOf, SectionStart, SectionEnd, IsHeader, IsHeaderOf;
    SameStart(a, b, section, 0);
    var start := SectionStart(a, section, 0);
    if start == |a| {
      BodyAt(a, section, start, 0);
      BodyAt(b, section, start, 0);
    } else {
      SameStart(a, b, section, start + 1);
      var end := SectionEnd(a, start + 1);
      BodyAt(a, section, start, end);
      BodyAt(b, section, start, end);
      ReadSameSlice(a, b, start + 1, end);
      SameSettings(a[start + 1..end], b[start + 1..end]);
    }
  }

  // ---- A trailing blank line ----

  lemma BlankReads()
    ensures SectionName("") == None && SettingKey("") == None
  {
    assert TrimSpace("") == "";
  }

  lemma {:induction false} StartBeforeBlank(lines: seq<string>, section: string, i: nat)
    requires i <= |lines|
    ensures SectionStart(lines + [""], section, i) == if SectionStart(lines, section, i) < |lines| then SectionStart(lines, section, i) else |lines| + 1
    ensures SectionEnd(lines + [""], i) == if SectionEnd(lines, i) < |lines| then SectionEnd(lines, i) else |lines| + 1
    decreases |lines| - i
  {
    BlankReads();
    hide SectionName, SettingKey;
    if i < |lines| {
      assert (lines + [""])[i] == lines[i];
      StartBeforeBlank(lines, section, i + 1);
    }
  }

  lemma BlankSetting(lines: seq<string>)
    ensures SettingsOf(lines + [""]) == SettingsOf(lines)
  {
    BlankReads();
    assert (lines + [""])[..|lines|] == lines;
    hide SettingKey, SettingValue;
  }

  lemma BlankParse(lines: seq<string>, section: string)
    ensures ParseLines(lines + [""], section) == ParseLines(lines, section)
  {
    hide SettingsOf, BodyOf, SectionStart, SectionEnd, IsHeader, IsHeaderOf;
    StartBeforeBlank(lines, section, 0);
    var start, more := SectionStart(lines, section, 0), lines + [""];
    if start == |lines| {
      BodyAt(lines, section, start, 0);
      BodyAt(more, section, |more|, 0);
    } else {
      StartBeforeBlank(lines, section, start + 1);
      var end := SectionEnd(lines, start + 1);
      BodyAt(lines, section, start, end);
      if end < |lines| {
        BodyAt(more, section, start, end);
        assert more[start + 1..end] == lines[start + 1..end];
      } else {
        BodyAt(more, section, start, |more|);
        assert more[start + 1..|more|] == lines[start + 1..end] + [""];
        BlankSetting(lines[start + 1..end]);
      }
    }
  }

  lemma DropBlankParse(lines: seq<string>, section: string)
    ensures ParseLines(DropBlank(lines), section) == ParseLines(lines, section)
  {
    if lines != [] && lines[|lines| - 1] == "" {
      assert lines == lines[..|lines| - 1] + [""];
      BlankParse(lines[..|lines| - 1], section);
    }
    hide ParseLines;
  }

  /** Reading joined lines gives what the lines say, whichever line end joins them. */
  lemma JoinedParse(lines: seq<string>, newline: string, section: string)
    requires NoNewlines(lines) && newline in {"\n", "\r\n"}
    ensures Parsed(Join(lines, newline), section) == ParseLines(lines, section)
  {
    ReplaceJoined(lines, newline);
    var read := Reread(lines, newline);
    SplitLinesJoin(read);
    RereadReadsSame(lines, newline);
    SameParse(read, lines, section);
    DropBlankParse(read, section);
    if Join(read, "\n") == "" && (read == [] || read == [""]) {
      assert SplitLines("") == [];
      assert DropBlank([""]) == [] && DropBlank([]) == [];
    }
    hide ReplaceCrLf, Join, Reread, AllReadSame, ParseLines;
  }

  // ---- The round trip ----

  lemma TrimmedNoNewline(s: string, c: char)
    requires c !in s
    ensures c !in TrimSpace(s)
  {
    TrimSpaceFrom(s);
    hide TrimSpace;
  }

  lemma KeyNoNewline(line: string)
    requires '\n' !in line && SettingKey(line).Some?
    ensures '\n' !in SettingKey(line).value
  {
    TrimmedNoNewline(line, '\n');
    var trimmed := TrimSpace(line);
    var before := Cut(trimmed, '=').0;
    assert '\n' !in before;
    TrimmedNoNewline(before, '\n');
    hide TrimSpace;
  }

  lemma RewrittenNoNewline(line: string, updates: Settings)
    requires '\n' !in line && PlainSettings(updates)
    ensures '\n' !in RewrittenLine(line, updates)
  {
    if Managed(line, updates) {
      KeyNoNewline(line);
      assert PlainValue(updates[ToLower(SettingKey(line).value)]);
      hide SettingKey, ToLower;
    }
  }

  lemma NewLinesNoNewlines(keys: seq<string>, updates: Settings)
    requires PlainSettings(updates) && forall k :: k in keys ==> k in updates
    ensures NoNewlines(SettingLines(keys, updates))
  {
    forall line | line in SettingLines(keys, updates)
      ensures '\n' !in line
    {
      var i :| 0 <= i < |keys| && SettingLines(keys, updates)[i] == line;
      assert PlainKey(keys[i]) && PlainValue(updates[keys[i]]);
      hide ToLower;
    }
  }

  lemma RewrittenNoNewlines(lines: seq<string>, updates: Settings)
    requires PlainSettings(updates) && NoNewlines(lines)
    ensures NoNewlines(Rewritten(lines, updates))
  {
    forall line | line in Rewritten(lines, updates)
      ensures '\n' !in line
    {
      var i :| 0 <= i < |lines| && Rewritten(lines, updates)[i] == line;
      assert lines[i] in lines;
      RewrittenNoNewline(lines[i], updates);
    }
    hide RewrittenLine, PlainSettings;
  }

  lemma JoinedNoNewlines(a: seq<string>, b: seq<string>)
    requires NoNewlines(a) && NoNewlines(b)
    ensures NoNewlines(a + b)
  {
  }

  lemma SliceNoNewlines(a: seq<string>, i: nat, j: nat)
    requires NoNewlines(a) && i <= j <= |a|
    ensures NoNewlines(a[i..j])
  {
  }

  lemma BlankedNoNewlines(lines: seq<string>, section: string)
    requires NoNewlines(lines) && PlainSection(section)
    ensures NoNewlines(Blanked(lines) + ["[" + section + "]"])
  {
    hide TrimSpace;
    assert '\n' !in "[" + section + "]";
  }

  lemma UpdatedNoNewlines(lines: seq<string>, section: string, updates: Settings, keys: seq<string>)
    requires PlainSection(section) && PlainSettings(updates) && NoNewlines(lines) && forall k :: k in keys ==> k in updates
    ensures NoNewlines(Updated(lines, section, updates, keys))
  {
    hide NoNewlines, PlainSettings, PlainSection, Rewritten, SettingLines, Blanked, IsHeader, IsHeaderOf;
    NewLinesNoNewlines(keys, updates);
    var start := SectionStart(lines, section, 0);
    if start == |lines| {
      BlankedNoNewlines(lines, section);
      JoinedNoNewlines(Blanked(lines) + ["[" + section + "]"], SettingLines(keys, updates));
    } else {
      var end := SectionEnd(lines, start + 1);
      SliceNoNewlines(lines, 0, start + 1);
      assert lines[0..start + 1] == lines[..start] + [lines[start]];
      SliceNoNewlines(lines, start + 1, end);
      SliceNoNewlines(lines, end, |lines|);
      assert lines[end..|lines|] == lines[end..];
      RewrittenNoNewlines(lines[start + 1..end], updates);
      JoinedNoNewlines(Rewritten(lines[start + 1..end], updates), SettingLines(keys, updates));
      JoinedNoNewlines(lines[0..start + 1], Rewritten(lines[start + 1..end], updates) + SettingLines(keys, updates));
      JoinedNoNewlines(lines[0..start + 1] + (Rewritten(lines[start + 1..end], updates) + SettingLines(keys, updates)), lines[end..|lines|]);
    }
  }

  lemma LinesNoNewlines(content: string)
    ensures NoNewlines(SplitLines(content))
  {
    SplitParts(content, '\n');
    hide Split;
  }

  /**
   Reading a section back after an update gives its old settings overridden by the update, whether
   the section was there or had to be appended, for either kind of line end.
   */
  lemma ApplyThenParse(content: string, section: string, updates: Settings, keys: seq<string>)
    requires PlainSection(section) && PlainSettings(updates) && NewKeysInOrder(content, section, updates, keys)
    ensures Parsed(Applied(content, section, updates, keys), section) == Parsed(content, section) + updates
  {
    var lines := SplitLines(ReplaceCrLf(content));
    LinesNoNewlines(ReplaceCrLf(content));
    UpdateReadsBack(lines, section, updates, keys);
    UpdatedNoNewlines(lines, section, updates, keys);
    hide SplitLines, ReplaceCrLf, Updated, ParseLines, PlainSettings, PlainSection, NoNewlines, SortedKeys, Join;
    JoinedParse(Updated(lines, section, updates, keys), NewlineOf(content), section);
    hide Parsed;
    assert Parsed(content, section) == ParseLines(lines, section) by {
      ParsedIs(content, section);
    }
  }

  lemma ParsedIs(content: string, section: string)
    ensures Parsed(content, section) == ParseLines(SplitLines(ReplaceCrLf(content)), section)
  {
  }
}
