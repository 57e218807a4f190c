/** The update and the parser as they run: scans, a rewrite in place, and sorted new lines. */
module ConfigUpdate {
  import opened PathOrder
  import opened Text
  import opened SectionConfig
  import opened ConfigText

  /** The updates under lower-case keys; which of two keys that differ in case wins is left open. */
  ghost predicate IsManaged(updates: Settings, managed: Settings) {
    && (forall k :: k in managed ==> exists key :: key in updates && ToLower(key) == k && updates[key] == managed[k])
    && (forall key :: key in updates ==> ToLower(key) in managed)
  }

  lemma ManagedIsUpdates(updates: Settings, managed: Settings)
    requires PlainSettings(updates) && IsManaged(updates, managed)
    ensures managed == updates
  {
    forall k | k in updates
      ensures ToLower(k) == k
    {
      assert PlainKey(k);
    }
    hide PlainSettings, ToLower;
  }

  method SectionRange(lines: seq<string>, section: string) returns (start: int, end: int)
    ensures SectionStart(lines, section, 0) == |lines| ==> start == -1 && end == -1
    ensures SectionStart(lines, section, 0) < |lines| ==>
              start == SectionStart(lines, section, 0) && end == SectionEnd(lines, start + 1)
  {
    hide SectionName, ToLower;
    start := -1;
    for i := 0 to |lines|
      invariant SectionStart(lines, section, 0) == SectionStart(lines, section, i)
      invariant start == -1
    {
      var name := SectionName(lines[i]);
      if name.Some? && ToLower(name.value) == ToLower(section) {
        start := i;
        break;
      }
    }
    if start == -1 {
      return -1, -1;
    }
    end := |lines|;
    for i := start + 1 to |lines|
      invariant SectionEnd(lines, start + 1) == SectionEnd(lines, i)
      invariant end == |lines|
    {
      if SectionName(lines[i]).Some? {
        end := i;
        break;
      }
    }
  }

  // ---- Ordered settings ----

  lemma LessIsTransitive(a: string, b: string, c: string)
    requires StringLess(a, b) && StringLess(b, c)
    ensures StringLess(a, c)
  {
    StringLessTotal(a, b);
    StringLessTotal(b, c);
    hide StringLess;
    if !StringLess(a, c) {
      StringLessTransitive(b, c, a);
    }
  }

  lemma InsertKey(keys: seq<string>, i: nat, key: string)
    requires SortedKeys(keys) && i <= |keys| && key !in keys
    requires forall j :: 0 <= j < i ==> StringLess(keys[j], key)
    requires i < |keys| ==> !StringLess(keys[i], key)
    ensures SortedKeys(keys[..i] + [key] + keys[i..])
  {
    hide StringLess;
    if i < |keys| {
      StringLessTotal(keys[i], key);
      assert keys[i] in keys;
    }
    forall j | i <= j < |keys|
      ensures StringLess(key, keys[j])
    {
      if i < j {
        LessIsTransitive(key, keys[i], keys[j]);
      }
    }
    var all := keys[..i] + [key] + keys[i..];
    forall a, b | 0 <= a < b < |all|
      ensures StringLess(all[a], all[b])
    {
      assert all[a] == if a < i then keys[a] else if a == i then key else keys[a - 1];
      assert all[b] == if b < i then keys[b] else if b == i then key else keys[b - 1];
    }
  }

  method SortKeys(m: set<string>) returns (keys: seq<string>)
    ensures Lists(keys, m)
  {
    hide StringLess;
    keys := [];
    var rest := m;
    while rest != {}
      invariant rest <= m && SortedKeys(keys)
      invariant forall k :: k in keys <==> k in m && k !in rest
      decreases rest
    {
      var key :| key in rest;
      rest := rest - {key};
      var i := 0;
      while i < |keys| && StringLess(keys[i], key)
        invariant i <= |keys|
        invariant forall j :: 0 <= j < i ==> StringLess(keys[j], key)
      {
        i := i + 1;
      }
      InsertKey(keys, i, key);
      assert forall k :: k in keys <==> k in keys[..i] || k in keys[i..] by {
        assert keys == keys[..i] + keys[i..];
      }
      keys := keys[..i] + [key] + keys[i..];
    }
  }

  method OrderedSettings(settings: Settings) returns (lines: seq<string>)
    ensures exists keys :: Lists(keys, settings.Keys) && lines == SettingLines(keys, settings)
  {
    var sorted := SortKeys(settings.Keys);
    lines := [];
    for i := 0 to |sorted|
      invariant |lines| == i && forall j :: 0 <= j < i ==> lines[j] == SettingLine(sorted[j], settings[sorted[j]])
    {
      hide SettingLine;
      assert sorted[i] in settings;
      lines := lines + [sorted[i] + "=" + settings[sorted[i]]];
    }
    assert Lists(sorted, settings.Keys) && lines == SettingLines(sorted, settings);
  }

  method LowerKeys(updates: Settings) returns (managed: Settings)
    ensures IsManaged(updates, managed)
  {
    hide ToLower;
    managed := map[];
    var rest := updates.Keys;
    while rest != {}
      invariant rest <= updates.Keys
      invariant forall k :: k in managed ==> exists key :: key in updates && ToLower(key) == k && updates[key] == managed[k]
      invariant forall key :: key in updates && key !in rest ==> ToLower(key) in managed
      decreases rest
    {
      var key :| key in rest;
      rest := rest - {key};
      managed := managed[ToLower(key) := updates[key]];
    }
  }

  // ---- The rewrite in place ----

  /** Lines from `start + 1` up to `i` are rewritten, the others are as they were. */
  ghost predicate RewrittenUpTo(original: seq<string>, lines: seq<string>, managed: Settings, start: nat, i: nat) {
    && |lines| == |original|
    && (forall k :: 0 <= k < |lines| && (k <= start || i <= k) ==> lines[k] == original[k])
    && (forall k :: start < k < i && k < |lines| ==> lines[k] == RewrittenLine(original[k], managed))
  }

  /** Some line after `start` and before `i` sets `k`. */
  ghost predicate SetBefore(lines: seq<string>, start: nat, i: nat, k: string) {
    exists j :: start < j < i && j < |lines| && SettingKey(lines[j]).Some? && ToLower(SettingKey(lines[j]).value) == k
  }

  lemma SetBeforeMore(lines: seq<string>, start: nat, i: nat, k: string)
    requires start < i < |lines|
    ensures SetBefore(lines, start, i + 1, k) <==>
              SetBefore(lines, start, i, k) || (SettingKey(lines[i]).Some? && ToLower(SettingKey(lines[i]).value) == k)
  {
    hide SettingKey, ToLower;
  }

  lemma RewriteOne(original: seq<string>, lines: seq<string>, managed: Settings, start: nat, i: nat, now: seq<string>)
    requires RewrittenUpTo(original, lines, managed, start, i) && start < i < |original|
    requires now == lines[i := RewrittenLine(original[i], managed)]
    ensures RewrittenUpTo(original, now, managed, start, i + 1)
  {
    hide RewrittenLine;
  }

  method RewriteSection(original: seq<string>, managed: Settings, start: nat, end: nat) returns (lines: seq<string>, seen: set<string>)
    requires start < end <= |original|
    ensures lines == original[..start] + [original[start]] + Rewritten(original[start + 1..end], managed) + original[end..]
    ensures forall k :: k in seen <==> k in managed && k in KeysSeen(original[start + 1..end])
  {
    lines := original;
    seen := {};
    for i := start + 1 to end
      invariant RewrittenUpTo(original, lines, managed, start, i)
      invariant forall k :: k in seen <==> k in managed && SetBefore(original, start, i, k)
    {
      assert lines[i] == original[i];
      assert lines[i := original[i]] == lines;
      forall k
        ensures SetBefore(original, start, i + 1, k) <==>
                  SetBefore(original, start, i, k) || (SettingKey(original[i]).Some? && ToLower(SettingKey(original[i]).value) == k)
      {
        SetBeforeMore(original, start, i, k);
      }
      ghost var now := lines[i := RewrittenLine(original[i], managed)];
      RewriteOne(original, lines, managed, start, i, now);
      hide SettingKey, ToLower, SetBefore, RewrittenUpTo;
      var key := SettingKey(lines[i]);
      if key.None? {
        continue;
      }
      var lower := ToLower(key.value);
      if lower !in managed {
        continue;
      }
      lines := lines[i := key.value + "=" + managed[lower]];
      seen := seen + {lower};
    }
    hide RewrittenLine, SettingKey, ToLower, SetBefore, KeysSeen;
    forall k
      ensures k in KeysSeen(original[start + 1..end]) <==> SetBefore(original, start, end, k)
    {
      SeenInBody(original, start, end, k);
    }
    RewrittenWhole(original, lines, managed, start, end);
  }

  lemma SeenInBody(original: seq<string>, start: nat, end: nat, k: string)
    requires start < end <= |original|
    ensures k in KeysSeen(original[start + 1..end]) <==> SetBefore(original, start, end, k)
  {
    hide SettingKey, ToLower;
    var body := original[start + 1..end];
    if SetBefore(original, start, end, k) {
      var j :| start < j < end && j < |original| && SettingKey(original[j]).Some? && ToLower(SettingKey(original[j]).value) == k;
      assert body[j - start - 1] == original[j];
    }
    if k in KeysSeen(body) {
      var line :| line in body && SettingKey(line).Some? && ToLower(SettingKey(line).value) == k;
      var i :| 0 <= i < |body| && body[i] == line;
      assert original[start + 1 + i] == line;
    }
  }

  lemma RewrittenWhole(original: seq<string>, lines: seq<string>, managed: Settings, start: nat, end: nat)
    requires start < end <= |original| && RewrittenUpTo(original, lines, managed, start, end)
    ensures lines == original[..start] + [original[start]] + Rewritten(original[start + 1..end], managed) + original[end..]
  {
    hide RewrittenLine;
    var r := Rewritten(original[start + 1..end], managed);
    var whole := original[..start] + [original[start]] + (r + []) + original[end..];
    assert r + [] == r;
    assert |whole| == |lines|;
    forall i | 0 <= i < |lines|
      ensures lines[i] == whole[i]
    {
      ConcatAt(original[..start], original[start], r, [], original[end..], i);
    }
  }

  lemma InsertAt(a: seq<string>, r: seq<string>, n: seq<string>, z: seq<string>)
    ensures (a + r + z)[..|a + r|] + n + (a + r + z)[|a + r|..] == a + (r + n) + z
  {
    assert (a + r + z)[..|a + r|] == a + r && (a + r + z)[|a + r|..] == z;
  }

  method AppendSection(lines: seq<string>, section: string, updates: Settings, newline: string) returns (text: string)
    requires SectionStart(lines, section, 0) == |lines|
    ensures exists keys :: Lists(keys, updates.Keys) && text == Join(Updated(lines, section, updates, keys), newline)
  {
    hide Join, SettingLine, SortedKeys, IsHeader, IsHeaderOf, TrimSpace;
    var padded := lines;
    if |lines| > 0 && TrimSpace(lines[|lines| - 1]) != "" {
      padded := lines + [""];
    }
    var added := OrderedSettings(updates);
    ghost var keys :| Lists(keys, updates.Keys) && added == SettingLines(keys, updates);
    text := Join(padded + ["[" + section + "]"] + added, newline);
    assert text == Join(Updated(lines, section, updates, keys), newline);
  }

  method UpdateSection(lines: seq<string>, section: string, start: nat, end: nat, managed: Settings, newline: string)
    returns (text: string)
    requires start == SectionStart(lines, section, 0) < |lines| && end == SectionEnd(lines, start + 1)
    ensures exists keys :: Lists(keys, NewKeys(lines, section, managed)) && text == Join(Updated(lines, section, managed, keys), newline)
  {
    hide Join, SettingLine, RewrittenLine, KeysSeen, SortedKeys, IsHeader, IsHeaderOf, Rewritten;
    var rewritten, seen := RewriteSection(lines, managed, start, end);
    var remaining := map k | k in managed && k !in seen :: managed[k];
    var added := OrderedSettings(remaining);
    ghost var keys :| Lists(keys, remaining.Keys) && added == SettingLines(keys, remaining);
    assert remaining.Keys == NewKeys(lines, section, managed);
    SameLines(keys, remaining, managed);
    var body := Rewritten(lines[start + 1..end], managed);
    RewrittenLength(lines[start + 1..end], managed);
    InsertAt(lines[..start] + [lines[start]], body, added, lines[end..]);
    hide SettingLines;
    text := Join(rewritten[..end] + added + rewritten[end..], newline);
    assert text == Join(Updated(lines, section, managed, keys), newline);
  }

  /** The text is the update of the content, with the new lines in key order. */
  ghost predicate IsUpdate(content: string, section: string, updates: Settings, managed: Settings, keys: seq<string>, text: string) {
    var lines := SplitLines(ReplaceCrLf(content));
    if SectionStart(lines, section, 0) == |lines| then
      Lists(keys, updates.Keys) && text == Applied(content, section, updates, keys)
    else
      Lists(keys, NewKeys(lines, section, managed)) && text == Applied(content, section, managed, keys)
  }

  /**
   Apply: rewrites the managed settings of the section where they stand and adds the missing ones at
   its end, or appends the whole section. The line ends of the text stay. Plain settings read back as
   the old ones overridden by the update.
   */
  method Apply(content: string, section: string, updates: Settings) returns (text: string)
    ensures exists managed, keys :: IsManaged(updates, managed) && IsUpdate(content, section, updates, managed, keys, text)
    ensures PlainSection(section) && PlainSettings(updates) ==> Parsed(text, section) == Parsed(content, section) + updates
  {
    hide ReplaceCrLf, SplitLines, Join, Updated, SectionStart, SectionEnd, SortedKeys, KeysSeen, IsManaged, HasCrLf, PlainSection, PlainSettings, Parsed;
    var newline := "\n";
    var plain := content;
    if HasCrLf(content) {
      newline := "\r\n";
      plain := ReplaceCrLf(content);
    } else {
      NoCrLfStays(content);
    }
    var lines := SplitLines(plain);
    var start, end := SectionRange(lines, section);
    var managed := LowerKeys(updates);
    ghost var keys;
    if start == -1 {
      text := AppendSection(lines, section, updates, newline);
      keys :| Lists(keys, updates.Keys) && text == Join(Updated(lines, section, updates, keys), newline);
    } else {
      text := UpdateSection(lines, section, start, end, managed, newline);
      keys :| Lists(keys, NewKeys(lines, section, managed)) && text == Join(Updated(lines, section, managed, keys), newline);
    }
    assert IsUpdate(content, section, updates, managed, keys, text);
    hide IsUpdate;
    if PlainSection(section) && PlainSettings(updates) {
      UpdateRoundTrip(content, section, updates, managed, keys, text);
    }
  }

  lemma SameLines(keys: seq<string>, few: Settings, all: Settings)
    requires forall k :: k in few ==> k in all && all[k] == few[k]
    requires forall k :: k in keys ==> k in few
    ensures SettingLines(keys, few) == SettingLines(keys, all)
  {
    hide SettingLine;
  }

  method ParseSection(content: string, section: string) returns (settings: Settings)
    ensures settings == Parsed(content, section)
  {
    hide ReplaceCrLf, SplitLines, SectionName, SettingKey, SettingValue, ToLower;
    var lines := SplitLines(ReplaceCrLf(content));
    var start, end := SectionRange(lines, section);
    settings := map[];
    if start == -1 {
      return;
    }
    var body := lines[start + 1..end];
    for i := 0 to |body|
      invariant settings == SettingsOf(body[..i])
    {
      assert body[..i + 1][..i] == body[..i];
      var key := SettingKey(body[i]);
      if key.Some? {
        settings := settings[ToLower(key.value) := SettingValue(body[i])];
      }
    }
    assert body[..|body|] == body;
  }

  /** Whatever Apply returns for plain settings reads back as the old settings overridden by the update. */
  lemma UpdateRoundTrip(content: string, section: string, updates: Settings, managed: Settings, keys: seq<string>, text: string)
    requires PlainSection(section) && PlainSettings(updates) && IsManaged(updates, managed)
    requires IsUpdate(content, section, updates, managed, keys, text)
    ensures Parsed(text, section) == Parsed(content, section) + updates
  {
    ManagedIsUpdates(updates, managed);
    hide ReplaceCrLf, SplitLines, PlainSection, PlainSettings, IsManaged, Applied, Parsed;
    var lines := SplitLines(ReplaceCrLf(content));
    if SectionStart(lines, section, 0) == |lines| {
      NothingSeen();
      assert NewKeys(lines, section, updates) == updates.Keys;
    }
    ApplyThenParse(content, section, updates, keys);
  }

  lemma NothingSeen()
    ensures KeysSeen([]) == {}
  {
  }
}
