/** INI-style sections as lists of lines: finding one, reading its settings, and updating them. */
module SectionConfig {
  import opened Options
  import opened PathOrder
  import opened Text

  type Settings = map<string, string>

  function SectionName(line: string): Option<string> {
    var trimmed := TrimSpace(line);
    if |trimmed| < 2 || trimmed[0] != '[' || trimmed[|trimmed| - 1] != ']' then None
    else
      var name := TrimSpace(trimmed[1..|trimmed| - 1]);
      if name == "" then None else Some(name)
  }

  function SettingKey(line: string): Option<string> {
    var trimmed := TrimSpace(line);
    if trimmed == "" || trimmed[0] == '#' || trimmed[0] == ';' then None
    else
      var (before, _, found) := Cut(trimmed, '=');
      var key := TrimSpace(before);
      if !found || key == "" then None else Some(key)
  }

  function SettingValue(line: string): string {
    TrimSpace(Cut(line, '=').1)
  }

  predicate IsHeader(line: string) {
    SectionName(line).Some?
  }

  predicate IsHeaderOf(line: string, section: string) {
    SectionName(line).Some? && ToLower(SectionName(line).value) == ToLower(section)
  }

  /** The first header of this section, or the number of lines. */
  function SectionStart(lines: seq<string>, section: string, i: nat): (r: nat)
    requires i <= |lines|
    ensures i <= r <= |lines| && (r < |lines| ==> IsHeaderOf(lines[r], section))
    ensures forall k :: i <= k < r ==> !IsHeaderOf(lines[k], section)
    decreases |lines| - i
  {
    if i == |lines| || IsHeaderOf(lines[i], section) then i else SectionStart(lines, section, i + 1)
  }

  /** The first header of any section, or the number of lines. */
  function SectionEnd(lines: seq<string>, i: nat): (r: nat)
    requires i <= |lines|
    ensures i <= r <= |lines| && (r < |lines| ==> IsHeader(lines[r]))
    ensures forall k :: i <= k < r ==> !IsHeader(lines[k])
    decreases |lines| - i
  {
    if i == |lines| || IsHeader(lines[i]) then i else SectionEnd(lines, i + 1)
  }

  /** The settings of some lines: for a repeated key the last line wins. */
  function SettingsOf(lines: seq<string>): Settings {
    if lines == [] then map[]
    else
      var front, last := SettingsOf(lines[..|lines| - 1]), lines[|lines| - 1];
      if SettingKey(last).Some? then front[ToLower(SettingKey(last).value) := SettingValue(last)] else front
  }

  function BodyOf(lines: seq<string>, section: string): seq<string> {
    var start := SectionStart(lines, section, 0);
    if start == |lines| then [] else lines[start + 1..SectionEnd(lines, start + 1)]
  }

  function ParseLines(lines: seq<string>, section: string): Settings {
    SettingsOf(BodyOf(lines, section))
  }

  // ---- Updating ----

  function SettingLine(key: string, value: string): string {
    key + "=" + value
  }

  function SettingLines(keys: seq<string>, settings: Settings): seq<string>
    requires forall k :: k in keys ==> k in settings
  {
    seq(|keys|, i requires 0 <= i < |keys| => SettingLine(keys[i], settings[keys[i]]))
  }

  predicate Managed(line: string, updates: Settings) {
    SettingKey(line).Some? && ToLower(SettingKey(line).value) in updates
  }

  function RewrittenLine(line: string, updates: Settings): string {
    if Managed(line, updates) then SettingLine(SettingKey(line).value, updates[ToLower(SettingKey(line).value)]) else line
  }

  function Rewritten(lines: seq<string>, updates: Settings): seq<string> {
    seq(|lines|, i requires 0 <= i < |lines| => RewrittenLine(lines[i], updates))
  }

  function KeysSeen(lines: seq<string>): set<string> {
    set line | line in lines && SettingKey(line).Some? :: ToLower(SettingKey(line).value)
  }

  predicate SortedKeys(keys: seq<string>) {
    forall i, j :: 0 <= i < j < |keys| ==> StringLess(keys[i], keys[j])
  }

  /** The keys of a map in order. */
  ghost predicate Lists(keys: seq<string>, m: set<string>) {
    SortedKeys(keys) && forall k :: k in keys <==> k in m
  }

  function Blanked(lines: seq<string>): seq<string> {
    if lines != [] && TrimSpace(lines[|lines| - 1]) != "" then lines + [""] else lines
  }

  /** The lines after an update, given the order of the keys that need a new line. */
  function Updated(lines: seq<string>, section: string, updates: Settings, keys: seq<string>): seq<string>
    requires forall k :: k in keys ==> k in updates
  {
    var start := SectionStart(lines, section, 0);
    if start == |lines| then Blanked(lines) + ["[" + section + "]"] + SettingLines(keys, updates)
    else
      var end := SectionEnd(lines, start + 1);
      lines[..start] + [lines[start]] + (Rewritten(lines[start + 1..end], updates) + SettingLines(keys, updates)) + lines[end..]
  }

  /** The keys that need a new line. */
  function NewKeys(lines: seq<string>, section: string, updates: Settings): set<string> {
    updates.Keys - KeysSeen(BodyOf(lines, section))
  }

  // ---- How lines read ----

  /** Sections are told apart up to the case of letters. */
  lemma HeaderOfMeaning(line: string, section: string)
    ensures IsHeaderOf(line, section) <==> SectionName(line).Some? && SameLetters(SectionName(line).value, section)
  {
    if SectionName(line).Some? {
      FoldMeaning(SectionName(line).value, section);
    }
    hide SectionName, ToLower, SameLetters;
  }

  /** A header is a name in brackets, with any spaces around the name and the brackets. */
  lemma SectionNameExactly(line: string, name: string)
    ensures SectionName(line) == Some(name) <==>
              name != "" && exists inner :: TrimSpace(line) == "[" + inner + "]" && TrimSpace(inner) == name
  {
    var trimmed := TrimSpace(line);
    hide TrimSpace;
    if |trimmed| >= 2 && trimmed[0] == '[' && trimmed[|trimmed| - 1] == ']' {
      var inner := trimmed[1..|trimmed| - 1];
      assert trimmed == "[" + inner + "]";
      forall other | trimmed == "[" + other + "]"
        ensures other == inner
      {
        assert other == ("[" + other + "]")[1..|other| + 1];
      }
    }
  }

  /** A setting is a key before the first equals sign of a line that is no comment. */
  lemma SettingKeyExactly(line: string, key: string)
    ensures SettingKey(line) == Some(key) <==>
              key != "" && exists before, after ::
                TrimSpace(line) == before + "=" + after && '=' !in before && TrimSpace(before) == key &&
                TrimSpace(line)[0] !in "#;"
  {
    var trimmed := TrimSpace(line);
    hide TrimSpace;
    var i := IndexOf(trimmed, '=');
    if i < |trimmed| {
      assert trimmed == trimmed[..i] + "=" + trimmed[i + 1..];
    }
    forall before, after | trimmed == before + "=" + after && '=' !in before
      ensures Cut(trimmed, '=') == (before, after, true)
    {
      CutAtEquals(before, after);
    }
    hide Cut;
  }

  /** The value of a setting is what follows the first equals sign, without the spaces around it. */
  lemma SettingValueExactly(before: string, after: string)
    requires '=' !in before
    ensures SettingValue(before + "=" + after) == TrimSpace(after)
  {
    CutAtEquals(before, after);
    hide TrimSpace, Cut;
  }

  // ---- What keys and values may be ----

  predicate OneLine(s: string) {
    '\n' !in s && '\r' !in s
  }

  /** A lower-case key that reads as a key. */
  predicate PlainKey(k: string) {
    && k != "" && Trimmed(k) && OneLine(k) && '=' !in k
    && k[0] != '#' && k[0] != ';' && k[0] != '['
    && ToLower(k) == k
  }

  predicate PlainValue(v: string) {
    Trimmed(v) && OneLine(v)
  }

  predicate PlainSettings(m: Settings) {
    forall k :: k in m ==> PlainKey(k) && PlainValue(m[k])
  }

  predicate PlainSection(s: string) {
    s != "" && Trimmed(s) && OneLine(s)
  }

  // ---- A setting line reads back ----

  lemma CutAtEquals(key: string, value: string)
    requires '=' !in key
    ensures Cut(key + "=" + value, '=') == (key, value, true)
  {
    var line := key + "=" + value;
    var i := IndexOf(line, '=');
    assert line[|key|] == '=';
    assert forall k :: 0 <= k < |key| ==> line[k] == key[k];
    assert i == |key|;
    assert line[..i] == key && line[i + 1..] == value;
  }

  /** Whatever key a file spells a managed setting with, the rewritten line reads as that key and the new value. */
  lemma SettingReads(key: string, value: string)
    requires key != "" && Trimmed(key) && '=' !in key && PlainValue(value)
    requires key[0] != '#' && key[0] != ';' && key[0] != '['
    ensures SettingKey(SettingLine(key, value)) == Some(key)
    ensures SettingValue(SettingLine(key, value)) == value
    ensures !IsHeader(SettingLine(key, value))
  {
    var line := SettingLine(key, value);
    CutAtEquals(key, value);
    assert line[0] == key[0];
    assert line[|line| - 1] == if value == "" then '=' else value[|value| - 1];
    assert !IsSpace('=');
    TrimmedStays(line);
    TrimmedStays(key);
    TrimmedStays(value);
    hide TrimSpace, Cut, IsSpace;
  }

  /** The key of any line, as the file spells it. */
  lemma KeyShape(line: string)
    requires SettingKey(line).Some?
    ensures var key := SettingKey(line).value; key != "" && Trimmed(key) && '=' !in key
  {
    var trimmed := TrimSpace(line);
    var before := Cut(trimmed, '=').0;
    TrimSpaceTrims(before);
    TrimSpaceFrom(before);
    hide TrimSpace, IsSpace;
  }

  lemma KeyStart(line: string)
    requires SettingKey(line).Some?
    ensures var key := SettingKey(line).value; key != "" && key[0] != '#' && key[0] != ';'
  {
    var trimmed := TrimSpace(line);
    TrimSpaceTrims(line);
    var before := Cut(trimmed, '=').0;
    assert !IsSpace('=') && TrimSpace("") == "";
    hide IsSpace, TrimSpace;
    assert before != "" && before[0] == trimmed[0];
    TrimSpaceTrims(before);
  }

  lemma RewrittenReads(line: string, updates: Settings)
    requires PlainSettings(updates)
    ensures SettingKey(RewrittenLine(line, updates)) == SettingKey(line)
    ensures Managed(line, updates) ==>
              && SettingValue(RewrittenLine(line, updates)) == updates[ToLower(SettingKey(line).value)]
              && !IsHeader(RewrittenLine(line, updates))
  {
    if Managed(line, updates) {
      var key := SettingKey(line).value;
      KeyShape(line);
      KeyStart(line);
      assert PlainKey(ToLower(key));
      assert ToLower(key)[0] == LowerChar(key[0]);
      hide SettingKey, SettingValue, SectionName, ToLower;
      SettingReads(key, updates[ToLower(key)]);
    }
  }

  // ---- The settings after an update ----

  lemma SettingsStep(lines: seq<string>, line: string, k: string)
    ensures var here := SettingKey(line).Some? && ToLower(SettingKey(line).value) == k;
            && (k in SettingsOf(lines + [line]) <==> here || k in SettingsOf(lines))
            && (here ==> SettingsOf(lines + [line])[k] == SettingValue(line))
            && (!here && k in SettingsOf(lines) ==> SettingsOf(lines + [line])[k] == SettingsOf(lines)[k])
  {
    assert (lines + [line])[..|lines|] == lines;
    hide SettingKey, SettingValue, ToLower;
  }

  lemma RewrittenMore(lines: seq<string>, line: string, updates: Settings)
    ensures Rewritten(lines + [line], updates) == Rewritten(lines, updates) + [RewrittenLine(line, updates)]
  {
    hide RewrittenLine;
  }

  lemma {:induction false} RewrittenSettings(lines: seq<string>, updates: Settings, k: string)
    requires PlainSettings(updates)
    ensures k in SettingsOf(Rewritten(lines, updates)) <==> k in SettingsOf(lines)
    ensures k in SettingsOf(lines) ==>
              SettingsOf(Rewritten(lines, updates))[k] == if k in updates then updates[k] else SettingsOf(lines)[k]
  {
    hide SettingKey, SettingValue, PlainSettings, ToLower, SettingsOf, SettingLine;
    if lines != [] {
      hide Rewritten;
      var front, last := lines[..|lines| - 1], lines[|lines| - 1];
      assert lines == front + [last];
      RewrittenSettings(front, updates, k);
      RewrittenReads(last, updates);
      RewrittenMore(front, last, updates);
      SettingsStep(front, last, k);
      SettingsStep(Rewritten(front, updates), RewrittenLine(last, updates), k);
    } else {
      assert Rewritten(lines, updates) == [];
      NoSettings();
    }
  }

  lemma NoSettings()
    ensures SettingsOf([]) == map[]
  {
  }

  lemma {:induction false} SeenAreSettings(lines: seq<string>, k: string)
    ensures k in SettingsOf(lines) <==> k in KeysSeen(lines)
  {
    if lines != [] {
      var front, last := lines[..|lines| - 1], lines[|lines| - 1];
      SeenAreSettings(front, k);
      assert lines == front + [last];
      hide SettingKey, SettingValue, ToLower, SettingsOf;
      SettingsStep(front, last, k);
    }
  }

  lemma NewLinesMore(keys: seq<string>, key: string, updates: Settings)
    requires forall k :: k in keys + [key] ==> k in updates
    ensures key in updates && forall k :: k in keys ==> k in updates
    ensures SettingLines(keys + [key], updates) == SettingLines(keys, updates) + [SettingLine(key, updates[key])]
  {
    assert key in keys + [key];
    hide SettingLine;
  }

  lemma {:induction false} NewLinesSettings(lines: seq<string>, keys: seq<string>, updates: Settings, k: string)
    requires PlainSettings(updates) && forall key :: key in keys ==> key in updates
    ensures k in SettingsOf(lines + SettingLines(keys, updates)) <==> k in keys || k in SettingsOf(lines)
    ensures k in keys ==> SettingsOf(lines + SettingLines(keys, updates))[k] == updates[k]
    ensures k !in keys && k in SettingsOf(lines) ==> SettingsOf(lines + SettingLines(keys, updates))[k] == SettingsOf(lines)[k]
  {
    hide SettingKey, SettingValue, SettingLine, SectionName, SettingsOf, PlainSettings, ToLower;
    if keys == [] {
      assert lines + SettingLines(keys, updates) == lines;
    } else {
      hide SettingLines;
      var front, last := keys[..|keys| - 1], keys[|keys| - 1];
      assert keys == front + [last];
      NewLinesMore(front, last, updates);
      NewLinesSettings(lines, front, updates, k);
      NewLineReads(last, updates);
      var before, line := lines + SettingLines(front, updates), SettingLine(last, updates[last]);
      assert lines + SettingLines(keys, updates) == before + [line];
      SettingsStep(before, line, k);
    }
  }

  lemma NewLineReads(key: string, updates: Settings)
    requires PlainSettings(updates) && key in updates
    ensures SettingKey(SettingLine(key, updates[key])) == Some(key) && ToLower(key) == key
    ensures SettingValue(SettingLine(key, updates[key])) == updates[key]
    ensures !IsHeader(SettingLine(key, updates[key]))
  {
    hide SettingLine;
    SettingReads(key, updates[key]);
  }

  lemma NewLinesNoHeaders(keys: seq<string>, updates: Settings)
    requires PlainSettings(updates) && forall key :: key in keys ==> key in updates
    ensures forall i :: 0 <= i < |keys| ==> !IsHeader(SettingLines(keys, updates)[i])
  {
    hide PlainSettings, SettingLine, IsHeader;
    forall i | 0 <= i < |keys|
      ensures !IsHeader(SettingLines(keys, updates)[i])
    {
      NewLineReads(keys[i], updates);
    }
  }

  /** The updated body holds the old settings overridden by the update. */
  lemma BodySettings(body: seq<string>, updates: Settings, keys: seq<string>)
    requires PlainSettings(updates) && (forall k :: k in keys <==> k in updates && k !in KeysSeen(body))
    ensures SettingsOf(Rewritten(body, updates) + SettingLines(keys, updates)) == SettingsOf(body) + updates
  {
    hide SettingsOf, Rewritten, SettingLines, KeysSeen, PlainSettings;
    var after := SettingsOf(Rewritten(body, updates) + SettingLines(keys, updates));
    forall k
      ensures k in after <==> k in SettingsOf(body) || k in updates
      ensures k in after ==> after[k] == if k in updates then updates[k] else SettingsOf(body)[k]
    {
      RewrittenSettings(body, updates, k);
      NewLinesSettings(Rewritten(body, updates), keys, updates, k);
      SeenAreSettings(body, k);
    }
  }

  lemma HeaderReads(section: string)
    requires PlainSection(section)
    ensures SectionName("[" + section + "]") == Some(section)
    ensures IsHeaderOf("[" + section + "]", section)
  {
    var line := "[" + section + "]";
    assert !IsSpace('[') && !IsSpace(']');
    TrimmedStays(line);
    TrimmedStays(section);
    assert line[1..][..|section|] == section;
    hide TrimSpace, IsSpace;
  }

  /** A list of lines that starts with no header of the section, then its header, a body, and another header or the end. */
  lemma BodyFound(before: seq<string>, header: string, body: seq<string>, rest: seq<string>, section: string)
    requires forall k :: 0 <= k < |before| ==> !IsHeaderOf(before[k], section)
    requires IsHeaderOf(header, section)
    requires forall k :: 0 <= k < |body| ==> !IsHeader(body[k])
    requires rest != [] ==> IsHeader(rest[0])
    ensures BodyOf(before + [header] + body + rest, section) == body
  {
    hide IsHeader, IsHeaderOf;
    var lines := before + [header] + body + rest;
    var start := SectionStart(lines, section, 0);
    assert lines[|before|] == header;
    assert forall k :: 0 <= k < |before| ==> lines[k] == before[k];
    assert start == |before|;
    var end := SectionEnd(lines, start + 1);
    assert forall k :: 0 <= k < |body| ==> lines[|before| + 1 + k] == body[k];
    assert rest != [] ==> lines[|before| + 1 + |body|] == rest[0];
    forall k | start + 1 <= k < |before| + 1 + |body|
      ensures !IsHeader(lines[k])
    {
      assert lines[k] == body[k - |before| - 1];
    }
    assert end == |before| + 1 + |body|;
  }

  lemma RewrittenHeaders(lines: seq<string>, updates: Settings)
    requires PlainSettings(updates) && forall k :: 0 <= k < |lines| ==> !IsHeader(lines[k])
    ensures forall k :: 0 <= k < |lines| ==> !IsHeader(Rewritten(lines, updates)[k])
  {
    forall k | 0 <= k < |lines|
      ensures !IsHeader(Rewritten(lines, updates)[k])
    {
      RewrittenReads(lines[k], updates);
    }
    hide IsHeader, PlainSettings, SettingLine;
  }

  lemma AppendedReadsBack(lines: seq<string>, section: string, updates: Settings, keys: seq<string>)
    requires PlainSection(section) && PlainSettings(updates) && SectionStart(lines, section, 0) == |lines|
    requires forall k :: k in keys ==> k in updates
    ensures BodyOf(Updated(lines, section, updates, keys), section) == SettingLines(keys, updates)
    ensures BodyOf(lines, section) == []
  {
    hide PlainSettings, SettingLines, IsHeader, IsHeaderOf, PlainSection;
    HeaderReads(section);
    BlankIsNoHeader(lines, section);
    NewLinesNoHeaders(keys, updates);
    NewLinesLength(keys, updates);
    var added := SettingLines(keys, updates);
    BodyFound(Blanked(lines), "[" + section + "]", added, [], section);
    hide BodyOf;
    assert Updated(lines, section, updates, keys) == Blanked(lines) + ["[" + section + "]"] + added + [];
  }

  lemma UpdatedReadsBack(lines: seq<string>, section: string, updates: Settings, keys: seq<string>)
    requires PlainSettings(updates) && SectionStart(lines, section, 0) < |lines|
    requires forall k :: k in keys ==> k in updates
    ensures BodyOf(Updated(lines, section, updates, keys), section) ==
              Rewritten(BodyOf(lines, section), updates) + SettingLines(keys, updates)
  {
    hide PlainSettings, SettingLines, IsHeader, IsHeaderOf, Rewritten;
    var start := SectionStart(lines, section, 0);
    var end := SectionEnd(lines, start + 1);
    var body := lines[start + 1..end];
    RewrittenHeaders(body, updates);
    RewrittenLength(body, updates);
    NewLinesNoHeaders(keys, updates);
    NewLinesLength(keys, updates);
    var rewritten := Rewritten(body, updates) + SettingLines(keys, updates);
    BodyFound(lines[..start], lines[start], rewritten, lines[end..], section);
    assert Updated(lines, section, updates, keys) == lines[..start] + [lines[start]] + rewritten + lines[end..];
    hide BodyOf, Updated;
  }

  /** Reading the section back after an update gives the old settings overridden by the update. */
  lemma UpdateReadsBack(lines: seq<string>, section: string, updates: Settings, keys: seq<string>)
    requires PlainSection(section) && PlainSettings(updates)
    requires forall k :: k in keys <==> k in NewKeys(lines, section, updates)
    ensures ParseLines(Updated(lines, section, updates, keys), section) == ParseLines(lines, section) + updates
  {
    var body := BodyOf(lines, section);
    BodySettings(body, updates, keys);
    EmptyRewritten(updates);
    hide PlainSettings, SettingsOf, KeysSeen, Rewritten, SettingLines, PlainSection, BodyOf, Updated;
    if SectionStart(lines, section, 0) == |lines| {
      AppendedReadsBack(lines, section, updates, keys);
      assert Rewritten(body, updates) + SettingLines(keys, updates) == SettingLines(keys, updates);
    } else {
      UpdatedReadsBack(lines, section, updates, keys);
    }
  }

  lemma NewLinesLength(keys: seq<string>, updates: Settings)
    requires forall k :: k in keys ==> k in updates
    ensures |SettingLines(keys, updates)| == |keys|
  {
  }

  lemma RewrittenLength(body: seq<string>, updates: Settings)
    ensures |Rewritten(body, updates)| == |body|
  {
  }

  lemma EmptyRewritten(updates: Settings)
    ensures Rewritten([], updates) == []
  {
  }

  lemma BlankIsNoHeader(lines: seq<string>, section: string)
    requires forall k :: 0 <= k < |lines| ==> !IsHeaderOf(lines[k], section)
    ensures forall k :: 0 <= k < |Blanked(lines)| ==> !IsHeaderOf(Blanked(lines)[k], section)
  {
    assert TrimSpace("") == "";
    assert !IsHeaderOf("", section);
    hide IsHeaderOf, TrimSpace;
  }

  lemma ConcatAt(a: seq<string>, h: string, r: seq<string>, n: seq<string>, z: seq<string>, i: nat)
    requires i < |a| + 1 + |r| + |n| + |z|
    ensures var s := a + [h] + (r + n) + z;
            && |s| == |a| + 1 + |r| + |n| + |z|
            && s[i] == if i < |a| then a[i] else if i == |a| then h
                       else if i < |a| + 1 + |r| then r[i - |a| - 1]
                       else if i < |a| + 1 + |r| + |n| then n[i - |a| - 1 - |r|]
                       else z[i - |a| - 1 - |r| - |n|]
  {
  }

  /** Line `i` of the new list, where `added` lines were put before `end`. */
  ghost predicate LineKept(lines: seq<string>, updates: Settings, start: nat, end: nat, added: nat, now: seq<string>, i: nat)
    requires |now| == |lines| + added && i < |now| && start < end <= |lines|
  {
    && (i <= start ==> now[i] == lines[i])
    && (start < i < end ==> now[i] == RewrittenLine(lines[i], updates))
    && (end + added <= i ==> now[i] == lines[i - added])
  }

  ghost predicate LinesKept(lines: seq<string>, updates: Settings, start: nat, end: nat, added: nat, now: seq<string>)
    requires start < end <= |lines|
  {
    |now| == |lines| + added && forall i :: 0 <= i < |now| ==> LineKept(lines, updates, start, end, added, now, i)
  }

  lemma LineKeptAt(lines: seq<string>, updates: Settings, start: nat, end: nat, n: seq<string>, now: seq<string>, i: nat)
    requires start < end <= |lines|
    requires now == lines[..start] + [lines[start]] + (Rewritten(lines[start + 1..end], updates) + n) + lines[end..]
    ensures |now| == |lines| + |n|
    ensures i < |now| ==> LineKept(lines, updates, start, end, |n|, now, i)
  {
    var r := Rewritten(lines[start + 1..end], updates);
    RewrittenLength(lines[start + 1..end], updates);
    if i < |now| {
      ConcatAt(lines[..start], lines[start], r, n, lines[end..], i);
      hide RewrittenLine;
    }
  }

  /**
   The lines of an appended section: a blank line if the last line is not blank, the header, and one
   line for each key.
   */
  ghost predicate Appended(lines: seq<string>, section: string, updates: Settings, keys: seq<string>, now: seq<string>)
    requires forall k :: k in keys ==> k in updates
  {
    var blank := if lines != [] && !Spaces(lines[|lines| - 1]) then 1 else 0;
    && |now| == |lines| + blank + 1 + |keys|
    && lines <= now && (blank == 1 ==> now[|lines|] == "")
    && now[|lines| + blank] == "[" + section + "]"
    && forall i :: 0 <= i < |keys| ==> now[|lines| + blank + 1 + i] == keys[i] + "=" + updates[keys[i]]
  }

  lemma BlankMeaning(line: string)
    ensures TrimSpace(line) == "" <==> Spaces(line)
  {
    TrimExactly(line, "");
    hide IsSpace, TrimSpace;
    assert Spaces("");
    if Spaces(line) {
      assert line == line + "" + "";
    }
    if TrimSpace(line) == "" {
      var a, d :| Spaces(a) && Spaces(d) && line == a + "" + d;
      assert forall i :: 0 <= i < |line| ==> line[i] == if i < |a| then a[i] else d[i - |a|];
    }
  }

  lemma AppendedShape(lines: seq<string>, section: string, updates: Settings, keys: seq<string>)
    requires (forall k :: k in keys ==> k in updates) && SectionStart(lines, section, 0) == |lines|
    ensures Appended(lines, section, updates, keys, Updated(lines, section, updates, keys))
  {
    if lines != [] {
      BlankMeaning(lines[|lines| - 1]);
    }
    hide TrimSpace, Spaces, SectionName, SectionStart;
  }

  /** Everything outside the section stays, line for line and in order; an appended section comes after it all. */
  lemma OutsideKept(lines: seq<string>, section: string, updates: Settings, keys: seq<string>)
    requires forall k :: k in keys ==> k in updates
    ensures var start, now := SectionStart(lines, section, 0), Updated(lines, section, updates, keys);
            && (start == |lines| ==> Appended(lines, section, updates, keys, now))
            && (start < |lines| ==> LinesKept(lines, updates, start, SectionEnd(lines, start + 1), |keys|, now))
  {
    hide RewrittenLine, SettingLine, SectionName, Rewritten, LineKept;
    var start, now := SectionStart(lines, section, 0), Updated(lines, section, updates, keys);
    NewLinesLength(keys, updates);
    if start == |lines| {
      AppendedShape(lines, section, updates, keys);
    } else {
      var end := SectionEnd(lines, start + 1);
      LineKeptAt(lines, updates, start, end, SettingLines(keys, updates), now, 0);
      forall i | 0 <= i < |now|
        ensures LineKept(lines, updates, start, end, |keys|, now, i)
      {
        LineKeptAt(lines, updates, start, end, SettingLines(keys, updates), now, i);
      }
    }
  }
}
