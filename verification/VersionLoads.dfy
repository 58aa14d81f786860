/** What the loader makes of a file whose version the release scripts have rewritten. */
module VersionLoads {
  import opened Sequences
  import opened Records
  import opened Scanning
  import opened Trimming
  import opened ConfigText
  import opened Config
  import opened Overrides
  import opened Bootstrap
  import opened VersionFile
  import BootstrapRoundTrip

  function WithVersion(c: Config, version: string): Config {
    WithText(c, BuildVersion, version)
  }

  /** What the loader stores of a version. */
  function Stored(version: string): string {
    TrimTo(version, NAME_CAPACITY)
  }

  /** The loader's section, as the dispatch sees it, is the root. */
  predicate AtRoot(section: string) {
    TrimTo(section, SECTION_CAPACITY) == ""
  }

  function SectionAfter(section: string, line: string): string {
    var kind := Classified(line + "\n");
    if kind.Heading? then kind.section else section
  }

  // The two conditions, each found in one pass over the file before it is rewritten.

  /** Wherever the scripts print their line, the loader's section is the root. */
  predicate PrintsAtRoot(lines: seq<string>, inRoot: bool, wrote: bool, section: string)
    decreases |lines|
  {
    if lines == [] then wrote || AtRoot(section)
    else
      var line, rest := lines[0], lines[1..];
      if IsHeader(line) then
        (wrote || AtRoot(section)) && PrintsAtRoot(rest, false, true, SectionAfter(section, line))
      else if inRoot && Key(line) == TARGET_KEY then
        AtRoot(section) && PrintsAtRoot(rest, true, true, section)
      else
        PrintsAtRoot(rest, inRoot, wrote, SectionAfter(section, line))
  }

  /** The line as the loader sees it sets the build version; this is what it stores. */
  function VersionOf(section: string, line: string): Option<string> {
    var kind := Classified(line + "\n");
    if kind.Pair? && Target(Entry(section, kind.key, kind.value)) == Some(TextSetting(BuildVersion))
    then Some(Stored(Unquoted(TrimTo(kind.value, VALUE_CAPACITY))))
    else None
  }

  /** The version that the loader meets last below the last line the scripts print, if any. */
  function Stale(lines: seq<string>, inRoot: bool, wrote: bool, section: string, last: Option<string>): Option<string>
    decreases |lines|
  {
    if lines == [] then if wrote then last else None
    else
      var line, rest := lines[0], lines[1..];
      if IsHeader(line) then
        Stale(rest, false, true, SectionAfter(section, line), Later(section, line, if wrote then last else None))
      else if inRoot && Key(line) == TARGET_KEY then
        Stale(rest, true, true, section, None)
      else
        Stale(rest, inRoot, wrote, SectionAfter(section, line), Later(section, line, last))
  }

  function Later(section: string, line: string, last: Option<string>): Option<string> {
    if VersionOf(section, line).Some? then VersionOf(section, line) else last
  }

  /** The loader ends up with the version the scripts wrote. */
  predicate NothingStale(lines: seq<string>, version: string) {
    var stale := Stale(lines, true, false, "", None);
    stale.None? || stale.value == Stored(version)
  }

  // Keys and lines, as the scripts and as the loader take them apart.

  predicate IsVersionChar(c: char) {
    c == '.' || '0' <= c <= '9'
  }

  lemma VersionChars(version: string)
    requires IsVersion(version)
    ensures version != "" && Trimmed(version) && forall i | 0 <= i < |version| :: IsVersionChar(version[i])
  {
    JoinOfSplit(version, '.');
    var parts := SplitOn(version, '.');
    assert parts[1..][1..] == [parts[2]] && Join([parts[2]], '.') == parts[2];
    assert Join(parts[1..], '.') == parts[1] + ['.'] + parts[2];
    DottedChars(parts[0], parts[1], parts[2]);
  }

  lemma DottedChars(p: string, q: string, r: string)
    requires Component(p) && Component(q) && Component(r)
    ensures var version := p + ['.'] + (q + ['.'] + r);
            Trimmed(version) && forall i | 0 <= i < |version| :: IsVersionChar(version[i])
  {
    var version := p + ['.'] + (q + ['.'] + r);
    forall i | 0 <= i < |version|
      ensures IsVersionChar(version[i])
    {
      if i < |p| {
        assert version[i] == p[i];
      } else if |p| < i < |p| + 1 + |q| {
        assert version[i] == q[i - |p| - 1];
      } else if i > |p| + 1 + |q| {
        assert version[i] == r[i - |p| - |q| - 2];
      }
    }
  }

  /** A line around its trimmed core. */
  lemma CoreOfLine(line: string) returns (left: string, right: string)
    ensures line == left + Trim(line) + right && AllSpace(left) && AllSpace(right)
    ensures Trim(line + "\n") == Trim(line)
  {
    left, right := TrimParts(line);
    TrimSkips("", line, "\n");
    assert "" + line + "\n" == line + "\n";
  }

  /** Trimming first and splitting second finds the same key as the other way round. */
  lemma KeysAgree(line: string)
    requires IsShortLine(line) && |Key(line)| < SECTION_CAPACITY
    ensures Classified(line + "\n").Pair? ==> Classified(line + "\n").key == Key(line)
    ensures Classified(line + "\n").Heading? ==> Classified(line + "\n").section == TrimTo(Key(line), SECTION_CAPACITY)
  {
    var left, right := CoreOfLine(line);
    assert TrimTo(line + "\n", LINE_CAPACITY) == Trim(line);
    var core := Trim(line);
    if Find(core, ':') < |core| {
      KeyOfParts(left, core, right);
      assert TrimTo(core[..Find(core, ':')], KEY_CAPACITY) == Key(line);
    }
  }

  lemma KeyIs(line: string, n: nat, key: string)
    requires Find(line, ':') == n && n <= |line| && line[..n] == key
    ensures Key(line) == Trim(key)
  {
  }

  lemma KeyOfParts(left: string, core: string, right: string)
    requires AllSpace(left) && Find(core, ':') < |core|
    ensures Key(left + core + right) == Trim(core[..Find(core, ':')])
  {
    var n := Find(core, ':');
    FindBehind(left, core, right);
    TakeBehind(left, core, right, n);
    KeyIs(left + core + right, |left| + n, left + core[..n]);
    TrimSkips(left, core[..n], "");
    assert left + core[..n] + "" == left + core[..n];
  }

  lemma TakeBehind(left: string, core: string, right: string, n: nat)
    requires n <= |core|
    ensures (left + core + right)[..|left| + n] == left + core[..n]
  {
  }

  lemma FindBehind(left: string, core: string, right: string)
    requires AllSpace(left) && Find(core, ':') < |core|
    ensures Find(left + core + right, ':') == |left| + Find(core, ':')
  {
    var line, n := left + core + right, Find(core, ':');
    forall i | 0 <= i < |left| + n
      ensures line[i] != ':'
    {
      if i < |left| {
        assert line[i] == left[i];
      } else {
        assert line[i] == core[i - |left|];
      }
    }
    assert line[|left| + n] == core[n];
    FindIs(line, ':', |left| + n);
  }

  /** Lines that the loader skips have another key. */
  lemma SkippedKey(line: string)
    requires IsShortLine(line) && Classified(line + "\n").Skip?
    ensures Key(line) != TARGET_KEY
  {
    var left, right := CoreOfLine(line);
    var core := Trim(line);
    assert TrimTo(line + "\n", LINE_CAPACITY) == core;
    var n := Find(core, ':');
    if n < |core| {
      KeyOfParts(left, core, right);
      var key := core[..n];
      assert n > 0 && key[0] == '#';
      assert TrimLeft(key) == key;
      TrimRightSplits(key);
    } else {
      NoColon(left, core, right);
      assert line[..|line|] == line;
    }
  }

  lemma NoColon(left: string, core: string, right: string)
    requires AllSpace(left) && AllSpace(right) && Find(core, ':') == |core|
    ensures Find(left + core + right, ':') == |left + core + right|
  {
    var line := left + core + right;
    forall i | 0 <= i < |line|
      ensures line[i] != ':'
    {
      if i < |left| {
        assert line[i] == left[i];
      } else if i < |left| + |core| {
        assert line[i] == core[i - |left|];
      } else {
        assert line[i] == right[i - |left| - |core|];
      }
    }
    FindIs(line, ':', |line|);
  }

  // The scripts' line itself.

  lemma VersionLineIsPair(version: string)
    requires IsVersion(version) && |version| + 2 < VALUE_CAPACITY
    ensures Classified(VersionLine(version) + "\n") == Pair(TARGET_KEY, version)
  {
    VersionChars(version);
    var printed := "\"" + version + "\"";
    BootstrapRoundTrip.QuotedReads(version);
    assert VersionLine(version) + "\n" == "" + TARGET_KEY + ": " + printed + "\n";
    BootstrapRoundTrip.TextKeysAreWords(BuildVersion);
    BootstrapRoundTrip.SettingLine("", TARGET_KEY, printed);
  }

  lemma VersionKeyIsRoot(section: string)
    ensures SettingOf(section, TARGET_KEY) == if section == "" then Some(TextSetting(BuildVersion)) else None
  {
    var setting := SettingOf(section, TARGET_KEY);
    if setting.Some? {
      BootstrapRoundTrip.DispatchReachesOnly(section, TARGET_KEY);
    }
  }

  lemma TargetKeyIsNormal()
    ensures TrimTo(TARGET_KEY, KEY_CAPACITY) == TARGET_KEY
  {
    TrimmedIsFixed(TARGET_KEY);
  }

  /** In the root it sets the version, anywhere else the loader refuses it. */
  lemma VersionLineLoads(d: Config, section: string, version: string)
    requires IsVersion(version) && |version| + 2 < VALUE_CAPACITY
    ensures AfterLine(State(d, section), Classified(VersionLine(version) + "\n")) ==
            if AtRoot(section) then Some(State(WithVersion(d, Stored(version)), section)) else None
  {
    VersionLineIsPair(version);
    VersionKeyIsRoot(TrimTo(section, SECTION_CAPACITY));
    TargetKeyIsNormal();
    VersionChars(version);
    TrimmedIsFixed(version);
    assert Unquoted(TrimTo(version, VALUE_CAPACITY)) == version;
  }

  // Lines the scripts keep.

  /** Assignments of other settings do not care about the version. */
  lemma OtherEntryKeepsVersion(d: Config, e: Entry, version: string)
    requires Overridden(d, e).Some? && Target(e) != Some(TextSetting(BuildVersion))
    ensures Overridden(WithVersion(d, version), e) == Some(WithVersion(Overridden(d, e).value, version))
  {
    var value := Unquoted(TrimTo(e.value, VALUE_CAPACITY));
    match Target(e).value
    case TextSetting(text) => TextsCommute(d, BuildVersion, version, text, TrimTo(value, TextCapacity(text)));
    case _ => TextLeavesRest(d, BuildVersion, version, Target(e).value, value);
  }

  lemma VersionEntry(d: Config, e: Entry)
    requires Overridden(d, e).Some? && Target(e) == Some(TextSetting(BuildVersion))
    ensures Overridden(d, e) == Some(WithVersion(d, Stored(Unquoted(TrimTo(e.value, VALUE_CAPACITY)))))
  {
  }

  /** A line that both files have, met by the loader in the same section with configurations that
      differ in the version at most. */
  lemma KeptLine(d: Config, version: string, section: string, line: string)
    requires AfterLine(State(d, section), Classified(line + "\n")).Some?
    ensures var next := AfterLine(State(d, section), Classified(line + "\n")).value;
            var last := VersionOf(section, line);
            && next.section == SectionAfter(section, line)
            && AfterLine(State(WithVersion(d, version), section), Classified(line + "\n")) ==
               Some(State(WithVersion(next.config, if last.Some? then last.value else version), next.section))
  {
    var kind := Classified(line + "\n");
    if kind.Pair? {
      var e := Entry(section, kind.key, kind.value);
      if Target(e) == Some(TextSetting(BuildVersion)) {
        VersionEntry(d, e);
        VersionAgain(d, e, version);
      } else {
        OtherEntryKeepsVersion(d, e, version);
      }
    }
  }

  lemma VersionAgain(d: Config, e: Entry, version: string)
    requires Overridden(d, e).Some? && Target(e) == Some(TextSetting(BuildVersion))
    ensures Overridden(WithVersion(d, version), e) ==
            Some(WithVersion(Overridden(d, e).value, Stored(Unquoted(TrimTo(e.value, VALUE_CAPACITY)))))
  {
  }

  /** The loader's section in the rewritten file is that in the old one, unless the scripts have just
      replaced a line that the loader took for a heading. */
  predicate SameSection(section: string, section': string, wrote: bool) {
    section' == section || (wrote && section == TARGET_KEY)
  }

  lemma TargetSectionIsUnknown(key: string)
    ensures SettingOf(TrimTo(TARGET_KEY, SECTION_CAPACITY), key) == None
  {
    TrimmedIsFixed(TARGET_KEY);
  }

  /** The loader's configuration on the rewritten file. */
  function Current(d: Config, version: string, wrote: bool, last: Option<string>): Config {
    if !wrote then d else WithVersion(d, if last.Some? then last.value else Stored(version))
  }

  lemma KeptInBoth(d: Config, version: string, wrote: bool, last: Option<string>, section: string, section': string,
                   line: string)
    requires AfterLine(State(d, section), Classified(line + "\n")).Some? && SameSection(section, section', wrote)
    ensures var next := AfterLine(State(d, section), Classified(line + "\n")).value;
            && SameSection(next.section, SectionAfter(section', line), wrote)
            && AfterLine(State(Current(d, version, wrote, last), section'), Classified(line + "\n")) ==
               Some(State(Current(next.config, version, wrote, Later(section', line, last)),
                          SectionAfter(section', line)))
  {
    if section' == section {
      KeptLine(d, if last.Some? then last.value else Stored(version), section, line);
    } else {
      var kind := Classified(line + "\n");
      if kind.Pair? {
        TargetSectionIsUnknown(TrimTo(kind.key, KEY_CAPACITY));
      }
    }
  }

  /** A line the scripts replace: as an override it was in the root, as a heading it named itself. */
  lemma ReplacedLine(d: Config, section: string, line: string)
    requires IsShortLine(line) && Key(line) == TARGET_KEY
    requires AfterLine(State(d, section), Classified(line + "\n")).Some?
    ensures var next := AfterLine(State(d, section), Classified(line + "\n")).value;
            || (next.section == TARGET_KEY && next.config == d)
            || (next.section == section && AtRoot(section) && section != TARGET_KEY
                && forall version :: WithVersion(next.config, version) == WithVersion(d, version))
  {
    var kind := Classified(line + "\n");
    if kind.Skip? {
      SkippedKey(line);
    } else {
      KeysAgree(line);
      TargetKeyIsNormal();
      TrimmedIsFixed(TARGET_KEY);
      if kind.Pair? {
        VersionKeyIsRoot(TrimTo(section, SECTION_CAPACITY));
        VersionEntry(d, Entry(section, kind.key, kind.value));
      }
    }
  }

  // The rewritten file, line by line.

  lemma FirstOfLines(s: State, line: string, rest: seq<string>)
    ensures Loaded(s, Ended([line] + rest)) ==
            var next := AfterLine(s, Classified(line + "\n"));
            if next.None? then None else Loaded(next.value, Ended(rest))
  {
    assert ([line] + rest)[1..] == rest;
    LoadedFirst(s, line + "\n", Ended(rest));
  }

  lemma FirstOf(s: State, lines: seq<string>)
    requires lines != []
    ensures Loaded(s, Ended(lines)) ==
            var next := AfterLine(s, Classified(lines[0] + "\n"));
            if next.None? then None else Loaded(next.value, Ended(lines[1..]))
  {
    FirstOfLines(s, lines[0], lines[1..]);
    assert [lines[0]] + lines[1..] == lines;
  }

  /** The loader at a line the scripts print, and from there on. */
  lemma PrintedFirst(e: Config, section: string, version: string, rest: seq<string>)
    requires IsVersion(version) && |version| + 2 < VALUE_CAPACITY
    ensures Loaded(State(e, section), Ended([VersionLine(version)] + rest)) ==
            if AtRoot(section) then Loaded(State(WithVersion(e, Stored(version)), section), Ended(rest)) else None
  {
    FirstOfLines(State(e, section), VersionLine(version), rest);
    VersionLineLoads(e, section, version);
  }

  /** What the loader makes of the rest of the rewritten file, from what it made of the rest of the old one. */
  function Outcome(c: Config, lines: seq<string>, version: string, inRoot: bool, wrote: bool, section: string,
                   last: Option<string>): Option<Config> {
    var stale := Stale(lines, inRoot, wrote, section, last);
    if PrintsAtRoot(lines, inRoot, wrote, section)
    then Some(WithVersion(c, if stale.Some? then stale.value else Stored(version)))
    else None
  }

  predicate AllShort(lines: seq<string>) {
    forall i | 0 <= i < |lines| :: IsShortLine(lines[i])
  }

  lemma RestIsShort(lines: seq<string>)
    requires AllShort(lines) && lines != []
    ensures IsShortLine(lines[0]) && AllShort(lines[1..])
  {
  }

  lemma {:induction false} RewrittenLoads(d: Config, c: Config, section: string, section': string, lines: seq<string>,
                                          version: string, inRoot: bool, wrote: bool, last: Option<string>)
    requires IsVersion(version) && |version| + 2 < VALUE_CAPACITY && (inRoot || wrote)
    requires AllShort(lines)
    requires SameSection(section, section', wrote)
    requires Loaded(State(d, section), Ended(lines)) == Some(c)
    ensures Loaded(State(Current(d, version, wrote, last), section'),
                   Ended(Rewritten(lines, version, inRoot, wrote))) ==
            Outcome(c, lines, version, inRoot, wrote, section', last)
    decreases |lines|
  {
    if lines == [] {
      EndOfFile(d, version, wrote, section', last);
    } else {
      FirstOf(State(d, section), lines);
      var next := AfterLine(State(d, section), Classified(lines[0] + "\n")).value;
      if IsHeader(lines[0]) {
        HeaderLine(d, c, next, section, section', lines, version, inRoot, wrote, last);
      } else if inRoot && Key(lines[0]) == TARGET_KEY {
        TargetLine(d, c, next, section, section', lines, version, wrote, last);
      } else {
        OtherLine(d, c, next, section, section', lines, version, inRoot, wrote, last);
      }
    }
  }

  lemma EndOfFile(d: Config, version: string, wrote: bool, section: string, last: Option<string>)
    requires IsVersion(version) && |version| + 2 < VALUE_CAPACITY
    ensures Loaded(State(Current(d, version, wrote, last), section), Ended(Rewritten([], version, true, wrote))) ==
            Outcome(d, [], version, true, wrote, section, last)
    ensures Rewritten([], version, true, wrote) == Rewritten([], version, false, wrote)
  {
    if !wrote {
      assert [VersionLine(version)] + [] == [VersionLine(version)];
      PrintedFirst(d, section, version, []);
    }
  }

  lemma OtherLine(d: Config, c: Config, next: State, section: string, section': string, lines: seq<string>,
                  version: string, inRoot: bool, wrote: bool, last: Option<string>)
    requires IsVersion(version) && |version| + 2 < VALUE_CAPACITY && (inRoot || wrote)
    requires AllShort(lines)
    requires SameSection(section, section', wrote)
    requires lines != [] && !IsHeader(lines[0]) && !(inRoot && Key(lines[0]) == TARGET_KEY)
    requires AfterLine(State(d, section), Classified(lines[0] + "\n")) == Some(next)
    requires Loaded(next, Ended(lines[1..])) == Some(c)
    ensures Loaded(State(Current(d, version, wrote, last), section'),
                   Ended(Rewritten(lines, version, inRoot, wrote))) ==
            Outcome(c, lines, version, inRoot, wrote, section', last)
    decreases |lines|, 0
  {
    var line, rest := lines[0], lines[1..];
    RestIsShort(lines);
    KeptInBoth(d, version, wrote, last, section, section', line);
    FirstOfLines(State(Current(d, version, wrote, last), section'), line, Rewritten(rest, version, inRoot, wrote));
    RewrittenLoads(next.config, c, next.section, SectionAfter(section', line), rest, version, inRoot, wrote,
                   Later(section', line, last));
    OtherUnfolds(c, lines, version, inRoot, wrote, section', last);
  }

  lemma OtherUnfolds(c: Config, lines: seq<string>, version: string, inRoot: bool, wrote: bool, section: string,
                     last: Option<string>)
    requires lines != [] && !IsHeader(lines[0]) && !(inRoot && Key(lines[0]) == TARGET_KEY)
    ensures Rewritten(lines, version, inRoot, wrote) == [lines[0]] + Rewritten(lines[1..], version, inRoot, wrote)
    ensures Outcome(c, lines, version, inRoot, wrote, section, last) ==
            Outcome(c, lines[1..], version, inRoot, wrote, SectionAfter(section, lines[0]),
                    Later(section, lines[0], last))
  {
  }

  lemma TargetLine(d: Config, c: Config, next: State, section: string, section': string, lines: seq<string>,
                   version: string, wrote: bool, last: Option<string>)
    requires IsVersion(version) && |version| + 2 < VALUE_CAPACITY
    requires AllShort(lines)
    requires SameSection(section, section', wrote)
    requires lines != [] && !IsHeader(lines[0]) && Key(lines[0]) == TARGET_KEY
    requires AfterLine(State(d, section), Classified(lines[0] + "\n")) == Some(next)
    requires Loaded(next, Ended(lines[1..])) == Some(c)
    ensures Loaded(State(Current(d, version, wrote, last), section'), Ended(Rewritten(lines, version, true, wrote))) ==
            Outcome(c, lines, version, true, wrote, section', last)
    decreases |lines|, 0
  {
    var rest := lines[1..];
    RestIsShort(lines);
    ReplacedLine(d, section, lines[0]);
    PrintedFirst(Current(d, version, wrote, last), section', version, Rewritten(rest, version, true, true));
    if AtRoot(section') {
      VersionOverrides(d, next.config, version, wrote, last);
      RewrittenLoads(next.config, c, next.section, section', rest, version, true, true, None);
    }
    TargetUnfolds(c, lines, version, wrote, section', last);
  }

  lemma VersionOverrides(d: Config, next: Config, version: string, wrote: bool, last: Option<string>)
    requires next == d || forall v :: WithVersion(next, v) == WithVersion(d, v)
    ensures WithVersion(Current(d, version, wrote, last), Stored(version)) == Current(next, version, true, None)
  {
  }

  lemma TargetUnfolds(c: Config, lines: seq<string>, version: string, wrote: bool, section: string,
                      last: Option<string>)
    requires lines != [] && !IsHeader(lines[0]) && Key(lines[0]) == TARGET_KEY
    ensures Rewritten(lines, version, true, wrote) ==
            [VersionLine(version)] + Rewritten(lines[1..], version, true, true)
    ensures Outcome(c, lines, version, true, wrote, section, last) ==
            if AtRoot(section) then Outcome(c, lines[1..], version, true, true, section, None) else None
  {
  }

  lemma HeaderLine(d: Config, c: Config, next: State, section: string, section': string, lines: seq<string>,
                   version: string, inRoot: bool, wrote: bool, last: Option<string>)
    requires IsVersion(version) && |version| + 2 < VALUE_CAPACITY
    requires AllShort(lines)
    requires SameSection(section, section', wrote)
    requires lines != [] && IsHeader(lines[0])
    requires AfterLine(State(d, section), Classified(lines[0] + "\n")) == Some(next)
    requires Loaded(next, Ended(lines[1..])) == Some(c)
    ensures Loaded(State(Current(d, version, wrote, last), section'),
                   Ended(Rewritten(lines, version, inRoot, wrote))) ==
            Outcome(c, lines, version, inRoot, wrote, section', last)
    decreases |lines|, 0
  {
    var line, rest := lines[0], lines[1..];
    var kept := [line] + Rewritten(rest, version, false, true);
    var last' := if wrote then last else None;
    RestIsShort(lines);
    HeaderUnfolds(c, lines, version, inRoot, wrote, section', last);
    if !wrote {
      PrintedFirst(d, section', version, kept);
    }
    if wrote || AtRoot(section') {
      KeptInBoth(d, version, true, last', section, section', line);
      FirstOfLines(State(Current(d, version, true, last'), section'), line, Rewritten(rest, version, false, true));
      RewrittenLoads(next.config, c, next.section, SectionAfter(section', line), rest, version, false, true,
                     Later(section', line, last'));
    }
  }

  lemma HeaderUnfolds(c: Config, lines: seq<string>, version: string, inRoot: bool, wrote: bool, section: string,
                      last: Option<string>)
    requires lines != [] && IsHeader(lines[0])
    ensures var kept := [lines[0]] + Rewritten(lines[1..], version, false, true);
            Rewritten(lines, version, inRoot, wrote) == if wrote then kept else [VersionLine(version)] + kept
    ensures Outcome(c, lines, version, inRoot, wrote, section, last) ==
            if wrote || AtRoot(section)
            then Outcome(c, lines[1..], version, false, true, SectionAfter(section, lines[0]),
                         Later(section, lines[0], if wrote then last else None))
            else None
  {
    Associate([VersionLine(version)], [lines[0]], Rewritten(lines[1..], version, false, true));
    Associate([], [lines[0]], Rewritten(lines[1..], version, false, true));
  }

  // Versions that do not fit the loader's value buffer.

  lemma LongPrinted(version: string, printed: string)
    requires IsVersion(version) && VALUE_CAPACITY <= |version| + 2
    requires printed <= "\"" + version + "\"" && VALUE_CAPACITY <= |printed|
    ensures Trimmed(printed) && Cut(printed, VALUE_CAPACITY) == "\"" + version[..254]
    ensures Unquoted("\"" + version[..254]) == "\"" + version[..254]
  {
    VersionChars(version);
    var value := "\"" + version[..254];
    assert forall i | 1 <= i < 255 :: printed[i] == version[i - 1] == value[i];
    assert Cut(printed, VALUE_CAPACITY) == value && IsVersionChar(value[254]);
    var n := |printed| - 1;
    assert n <= |version| ==> IsVersionChar(printed[n]);
  }

  /** As much of the scripts' line as one read of the loader takes, if the version is too long. */
  lemma LongChunk(version: string, printed: string, end: string)
    requires IsVersion(version) && VALUE_CAPACITY <= |version| + 2
    requires printed <= "\"" + version + "\"" && VALUE_CAPACITY <= |printed| < LINE_CAPACITY - 15 && AllSpace(end)
    ensures Classified(TARGET_KEY + ": " + printed + end) == Pair(TARGET_KEY, "\"" + version[..254])
  {
    LongPrinted(version, printed);
    var tail := " " + printed;
    var core := TARGET_KEY + (":" + tail);
    assert TARGET_KEY + ": " + printed + end == "" + core + end;
    assert core[|core| - 1] == printed[|printed| - 1];
    TrimIsUnique("", core, end);
    assert tail == " " + printed + "";
    TrimIsUnique(" ", printed, "");
    BootstrapRoundTrip.TextKeysAreWords(BuildVersion);
    BootstrapRoundTrip.ColonLine(TARGET_KEY + ": " + printed + end, TARGET_KEY, tail);
  }

  lemma QuoteIsNoVersion(value: string)
    requires value != "" && value[0] == '\"'
    ensures !IsVersion(value)
  {
    if IsVersion(value) {
      VersionChars(value);
      assert false;
    }
  }

  lemma LongValueIsRefused(s: State, version: string)
    requires IsVersion(version) && VALUE_CAPACITY <= |version| + 2
    ensures AfterLine(s, Pair(TARGET_KEY, "\"" + version[..254])) == None
  {
    var value := "\"" + version[..254];
    LongPrinted(version, "\"" + version + "\"");
    assert Trim(value) == value by {
      VersionChars(version);
      assert IsVersionChar(value[254]);
      TrimmedIsFixed(value);
    }
    assert TrimTo(value, VALUE_CAPACITY) == value;
    QuoteIsNoVersion(value);
    VersionKeyIsRoot(TrimTo(s.section, SECTION_CAPACITY));
    TargetKeyIsNormal();
  }

  /** The first read of a too long version line. */
  lemma LongLineIsRefused(s: State, version: string, more: string)
    requires IsVersion(version) && VALUE_CAPACITY <= |version| + 2
    ensures var text := VersionLine(version) + "\n" + more;
            AfterLine(s, Classified(text[..ChunkLength(text)])) == None
  {
    var line, text := VersionLine(version), VersionLine(version) + "\n" + more;
    var quoted := "\"" + version + "\"";
    LineEnds(version, more);
    LongValueIsRefused(s, version);
    assert line == TARGET_KEY + ": " + quoted;
    if |line| < LINE_CAPACITY - 1 {
      assert text[..|line| + 1] == TARGET_KEY + ": " + quoted + "\n";
      LongChunk(version, quoted, "\n");
    } else {
      var printed := quoted[..LINE_CAPACITY - 16];
      assert text[..LINE_CAPACITY - 1] == TARGET_KEY + ": " + printed + "";
      LongChunk(version, printed, "");
    }
  }

  lemma LineEnds(version: string, more: string)
    requires IsVersion(version)
    ensures Find(VersionLine(version) + "\n" + more, '\n') == |VersionLine(version)|
  {
    VersionChars(version);
    var line := VersionLine(version);
    BootstrapRoundTrip.TextKeysAreWords(BuildVersion);
    forall i | 0 <= i < |line|
      ensures line[i] != '\n'
    {
      if i < 13 {
        assert line[i] == TARGET_KEY[i];
      } else if 16 <= i < |line| - 1 {
        assert line[i] == version[i - 16];
      }
    }
    FindIs(line + "\n" + more, '\n', |line|);
  }

  lemma {:induction false} ChunksAfterLines(lines: seq<string>, text: string)
    requires AllShort(lines)
    ensures Chunks(TextOfLines(lines) + text) == Ended(lines) + Chunks(text)
  {
    if lines == [] {
      assert "" + text == text && [] + Chunks(text) == Chunks(text);
    } else {
      RestIsShort(lines);
      ChunksAfterLines(lines[1..], text);
      ChunkOfLine(lines[0], TextOfLines(lines[1..]) + text);
      var line, rest := lines[0], TextOfLines(lines[1..]);
      Associate(line + "\n", rest, text);
      Associate([line + "\n"], Ended(lines[1..]), Chunks(text));
    }
  }

  lemma ChunkOfLine(line: string, rest: string)
    requires IsShortLine(line)
    ensures Chunks(line + "\n" + rest) == [line + "\n"] + Chunks(rest)
  {
    var text := line + "\n" + rest;
    FindIs(text, '\n', |line|);
    assert text[..|line| + 1] == line + "\n" && text[|line| + 1..] == rest;
  }

  lemma {:induction false} RefusedAnywhere(s: State, before: seq<string>, chunk: string, after: seq<string>)
    requires forall t :: AfterLine(t, Classified(chunk)) == None
    ensures Loaded(s, before + ([chunk] + after)) == None
    decreases |before|
  {
    if before == [] {
      LoadedFirst(s, chunk, after);
      assert before + ([chunk] + after) == [chunk] + after;
    } else {
      assert before + ([chunk] + after) == [before[0]] + (before[1..] + ([chunk] + after));
      LoadedFirst(s, before[0], before[1..] + ([chunk] + after));
      var next := AfterLine(s, Classified(before[0]));
      if next.Some? {
        RefusedAnywhere(next.value, before[1..], chunk, after);
      }
    }
  }

  lemma {:induction false} FirstPrinted(lines: seq<string>, version: string)
    returns (before: seq<string>, after: seq<string>)
    requires AllShort(lines)
    ensures Written(lines, version) == before + ([VersionLine(version)] + after) && AllShort(before)
    decreases |lines|
  {
    before := [];
    if lines == [] {
      after := [];
    } else if IsHeader(lines[0]) {
      after := [lines[0]] + Rewritten(lines[1..], version, false, true);
    } else if Key(lines[0]) == TARGET_KEY {
      after := Rewritten(lines[1..], version, true, true);
    } else {
      RestIsShort(lines);
      before, after := FirstPrinted(lines[1..], version);
      Associate([lines[0]], before, [VersionLine(version)] + after);
      before := [lines[0]] + before;
    }
  }

  lemma {:induction false} TextAppends(a: seq<string>, b: seq<string>)
    ensures TextOfLines(a + b) == TextOfLines(a) + TextOfLines(b)
  {
    if a == [] {
      assert a + b == b;
    } else {
      assert (a + b)[1..] == a[1..] + b;
      TextAppends(a[1..], b);
      Associate(a[0] + "\n", TextOfLines(a[1..]), TextOfLines(b));
    }
  }

  /** The scripts write a version of 254 characters or more, and the loader takes no such file. */
  lemma LongVersionIsRefused(lines: seq<string>, version: string)
    requires AllShort(lines) && IsVersion(version) && VALUE_CAPACITY <= |version| + 2
    ensures LoadedFile(TextOfLines(Written(lines, version))) == None
  {
    var before, after := FirstPrinted(lines, version);
    var text := VersionLine(version) + "\n" + TextOfLines(after);
    TextAppends(before, [VersionLine(version)] + after);
    assert ([VersionLine(version)] + after)[1..] == after;
    ChunksAfterLines(before, text);
    var chunk := text[..ChunkLength(text)];
    forall t
      ensures AfterLine(t, Classified(chunk)) == None
    {
      LongLineIsRefused(t, version, TextOfLines(after));
    }
    RefusedAnywhere(State(Defaults(), ""), Ended(before), chunk, Chunks(text[ChunkLength(text)..]));
  }

  // Whole files.

  lemma VersionLineIsShort(version: string)
    requires IsVersion(version) && |version| + 2 < VALUE_CAPACITY
    ensures IsShortLine(VersionLine(version))
  {
    VersionChars(version);
    var line := VersionLine(version);
    LineEnds(version, "");
    assert line + "\n" + "" == line + "\n";
    assert forall i | 0 <= i < |line| :: line[i] == (line + "\n")[i];
    forall i | 0 <= i < |line|
      ensures line[i] != '\0'
    {
      if 16 <= i < |line| - 1 {
        assert line[i] == version[i - 16];
      }
    }
  }

  lemma {:induction false} WrittenIsShort(lines: seq<string>, version: string, inRoot: bool, wrote: bool)
    requires IsShortLine(VersionLine(version)) && forall line | line in lines :: IsShortLine(line)
    ensures forall line | line in Rewritten(lines, version, inRoot, wrote) :: IsShortLine(line)
    decreases |lines|
  {
    if lines != [] {
      if IsHeader(lines[0]) {
        WrittenIsShort(lines[1..], version, false, true);
      } else if inRoot && Key(lines[0]) == TARGET_KEY {
        WrittenIsShort(lines[1..], version, true, true);
      } else {
        WrittenIsShort(lines[1..], version, inRoot, wrote);
      }
    }
  }

  /** What the loader makes of the rewritten file, for every version that fits its value buffer. */
  lemma WrittenFileOutcome(lines: seq<string>, version: string)
    requires AllShort(lines) && LoadedFile(TextOfLines(lines)).Some?
    requires IsVersion(version) && |version| + 2 < VALUE_CAPACITY
    ensures LoadedFile(TextOfLines(Written(lines, version))) ==
            Outcome(LoadedFile(TextOfLines(lines)).value, lines, version, true, false, "", None)
  {
    VersionLineIsShort(version);
    WrittenIsShort(lines, version, true, false);
    assert AllShort(Written(lines, version)) by {
      assert forall line | line in Written(lines, version) :: IsShortLine(line);
    }
    ChunksOfLines(lines);
    ChunksOfLines(Written(lines, version));
    RewrittenLoads(Defaults(), LoadedFile(TextOfLines(lines)).value, "", "", lines, version, true, false, None);
  }

  /** If the loader takes a file, then after the scripts wrote a version to it the loader takes it with
      that version and nothing else changed, exactly if the version fits the name buffer, the scripts
      print it only where the loader's section is the root, and the loader meets no other version
      below the last line they print. */
  lemma WrittenFileLoadsIff(lines: seq<string>, version: string)
    requires AllShort(lines) && IsVersion(version) && LoadedFile(TextOfLines(lines)).Some?
    ensures LoadedFile(TextOfLines(Written(lines, version))) ==
            Some(LoadedFile(TextOfLines(lines)).value.(buildVersion := version)) <==>
            |version| < NAME_CAPACITY && PrintsAtRoot(lines, true, false, "") && NothingStale(lines, version)
  {
    if |version| + 2 < VALUE_CAPACITY {
      WrittenFileOutcome(lines, version);
      OutcomeDecides(lines, version, LoadedFile(TextOfLines(lines)).value);
    } else {
      LongVersionIsRefused(lines, version);
    }
  }

  lemma OutcomeDecides(lines: seq<string>, version: string, c: Config)
    requires IsVersion(version)
    ensures Outcome(c, lines, version, true, false, "", None) == Some(c.(buildVersion := version)) <==>
            |version| < NAME_CAPACITY && PrintsAtRoot(lines, true, false, "") && NothingStale(lines, version)
  {
    var stale := Stale(lines, true, false, "", None);
    VersionChars(version);
    TrimmedIsFixed(version);
    assert Stored(version) == version <==> |version| < NAME_CAPACITY;
    StaleIsStored(lines, true, false, "", None);
    VersionDecides(c, if stale.Some? then stale.value else Stored(version), version);
  }

  lemma VersionDecides(c: Config, v: string, w: string)
    ensures WithVersion(c, v) == c.(buildVersion := w) <==> v == w
  {
    assert WithVersion(c, v).buildVersion == v && c.(buildVersion := w).buildVersion == w;
  }

  /** Whatever the loader stores is short. */
  lemma {:induction false} StaleIsStored(lines: seq<string>, inRoot: bool, wrote: bool, section: string,
                                         last: Option<string>)
    requires last.Some? ==> |last.value| < NAME_CAPACITY
    ensures var stale := Stale(lines, inRoot, wrote, section, last);
            stale.Some? ==> |stale.value| < NAME_CAPACITY
    decreases |lines|
  {
    if lines != [] {
      var line, rest := lines[0], lines[1..];
      if IsHeader(line) {
        var last' := if wrote then last else None;
        StaleIsStored(rest, false, true, SectionAfter(section, line), Later(section, line, last'));
      } else if inRoot && Key(line) == TARGET_KEY {
        StaleIsStored(rest, true, true, section, None);
      } else {
        StaleIsStored(rest, inRoot, wrote, SectionAfter(section, line), Later(section, line, last));
      }
    }
  }

  // Cases.

  lemma CommentLine()
    ensures IsHeader("#:") && IsShortLine("#:") && Classified("#:" + "\n") == Skip
    ensures AtRoot("")
  {
    FindIs("#:"[1..], ':', 0);
    TrimmedIsFixed("#:");
    TrimmedIsFixed("");
    BootstrapRoundTrip.RemarkLine("#:");
  }

  lemma StaleLine(stale: string)
    requires IsVersion(stale) && |stale| < NAME_CAPACITY
    ensures IsShortLine(VersionLine(stale)) && Stored(stale) == stale
    ensures VersionOf("", VersionLine(stale)) == Some(stale)
    ensures !IsHeader(VersionLine(stale)) && Key(VersionLine(stale)) == TARGET_KEY
    ensures Classified(VersionLine(stale) + "\n").Pair?
  {
    VersionLineIsRead(stale);
    VersionLineIsShort(stale);
    VersionLineIsPair(stale);
    assert Trim(stale) == stale && !IsWrapped(stale) by {
      VersionChars(stale);
      TrimmedIsFixed(stale);
    }
    assert Target(Entry("", TARGET_KEY, stale)) == Some(TextSetting(BuildVersion)) by {
      TrimmedIsFixed("");
      TargetKeyIsNormal();
    }
  }

  lemma CommentThenVersion(stale: string)
    requires IsVersion(stale) && |stale| < NAME_CAPACITY
    ensures LoadedFile(TextOfLines(["#:", VersionLine(stale)])) == Some(WithVersion(Defaults(), stale))
  {
    var line := VersionLine(stale);
    CommentLine();
    StaleLine(stale);
    ChunksOfLines(["#:", line]);
    assert ["#:", line] == ["#:"] + ([line] + []);
    FirstOfLines(State(Defaults(), ""), "#:", [line] + []);
    FirstOfLines(State(Defaults(), ""), line, []);
    VersionLineLoads(Defaults(), "", stale);
  }

  lemma StaleBelowComment(stale: string)
    requires IsVersion(stale) && |stale| < NAME_CAPACITY
    ensures PrintsAtRoot(["#:", VersionLine(stale)], true, false, "")
    ensures Stale(["#:", VersionLine(stale)], true, false, "", None) == Some(stale)
  {
    var line := VersionLine(stale);
    CommentLine();
    StaleLine(stale);
    assert ["#:", line][1..] == [line] && [line][1..] == [];
    assert Stale([line], false, true, "", None) == Some(stale);
    assert PrintsAtRoot([line], false, true, "");
  }

  lemma VersionThenComment(stale: string)
    requires IsVersion(stale) && |stale| < NAME_CAPACITY
    ensures LoadedFile(TextOfLines([VersionLine(stale), "#:"])) == Some(WithVersion(Defaults(), stale))
  {
    var line := VersionLine(stale);
    CommentLine();
    StaleLine(stale);
    ChunksOfLines([line, "#:"]);
    assert [line, "#:"] == [line] + (["#:"] + []);
    FirstOfLines(State(Defaults(), ""), line, ["#:"] + []);
    VersionLineLoads(Defaults(), "", stale);
    FirstOfLines(State(WithVersion(Defaults(), stale), ""), "#:", []);
  }

  lemma NothingBelowVersion(stale: string)
    requires IsVersion(stale) && |stale| < NAME_CAPACITY
    ensures PrintsAtRoot([VersionLine(stale), "#:"], true, false, "")
    ensures Stale([VersionLine(stale), "#:"], true, false, "", None) == None
  {
    var line := VersionLine(stale);
    CommentLine();
    StaleLine(stale);
    assert [line, "#:"][1..] == ["#:"] && ["#:"][1..] == [];
    assert Stale(["#:"], true, true, "", None) == None;
    assert PrintsAtRoot(["#:"], true, true, "");
  }

  /** The scripts take a comment that ends in a colon for a heading, write their line before it, and
      leave the old version below, where the loader finds it last. Then the scripts read one version
      and the program reports another. */
  lemma CommentHidesVersion(stale: string, version: string)
    requires IsVersion(stale) && IsVersion(version) && |stale| < NAME_CAPACITY && |version| < NAME_CAPACITY
    ensures var lines := ["#:", VersionLine(stale)];
            var written := Written(lines, version);
            && VersionIn(written) == Some(version)
            && LoadedFile(TextOfLines(lines)) == Some(Defaults().(buildVersion := stale))
            && LoadedFile(TextOfLines(written)) == Some(Defaults().(buildVersion := stale))
  {
    var lines := ["#:", VersionLine(stale)];
    ReadAfterWrite(lines, version);
    CommentLine();
    StaleLine(stale);
    CommentThenVersion(stale);
    StaleBelowComment(stale);
    WrittenFileOutcome(lines, version);
  }

  /** The same comment below the version does no harm. */
  lemma CommentBelowIsHarmless(stale: string, version: string)
    requires IsVersion(stale) && IsVersion(version) && |stale| < NAME_CAPACITY && |version| < NAME_CAPACITY
    ensures LoadedFile(TextOfLines(Written([VersionLine(stale), "#:"], version))) ==
            Some(Defaults().(buildVersion := version))
  {
    var lines := [VersionLine(stale), "#:"];
    CommentLine();
    StaleLine(stale);
    VersionThenComment(stale);
    NothingBelowVersion(stale);
    WrittenFileLoadsIff(lines, version);
  }
}
