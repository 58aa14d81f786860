/** The release scripts' passes over a configuration file: reading and writing its build version. */
module VersionFile {
  import opened Records
  import opened Scanning
  import opened Trimming
  import opened ConfigText

  const TARGET_KEY := "build_version"

  /** The section pattern: something other than whitespace, then no colon until one that only
      whitespace follows. */
  predicate IsHeader(line: string) {
    && line != "" && !IsSpace(line[0])
    && var n := 1 + Find(line[1..], ':');
       n < |line| && AllSpace(line[n + 1..])
  }

  /** Blank lines and comments, which only the reader skips. */
  predicate IsIgnored(line: string) {
    TrimLeft(line) == "" || TrimLeft(line)[0] == '#'
  }

  /** The text before the first colon, trimmed. */
  function Key(line: string): string {
    Trim(line[..Find(line, ':')])
  }

  function VersionLine(version: string): string {
    TARGET_KEY + ": \"" + version + "\""
  }

  function DropQuotes(value: string): string {
    var s := if value != "" && value[0] == '\"' then value[1..] else value;
    if s != "" && s[|s| - 1] == '\"' then s[..|s| - 1] else s
  }

  function ValueOf(line: string): string {
    var n := Find(line, ':');
    DropQuotes(Trim(if n < |line| then line[n + 1..] else line))
  }

  // The passes, on values.

  function Rewritten(lines: seq<string>, version: string, inRoot: bool, wrote: bool): seq<string>
    decreases |lines|
  {
    if lines == [] then
      if wrote then [] else [VersionLine(version)]
    else
      var line, rest := lines[0], lines[1..];
      if IsHeader(line) then
        (if wrote then [] else [VersionLine(version)]) + [line] + Rewritten(rest, version, false, true)
      else if inRoot && Key(line) == TARGET_KEY then
        [VersionLine(version)] + Rewritten(rest, version, true, true)
      else
        [line] + Rewritten(rest, version, inRoot, wrote)
  }

  function Written(lines: seq<string>, version: string): seq<string> {
    Rewritten(lines, version, true, false)
  }

  function Found(lines: seq<string>, inRoot: bool): Option<string>
    decreases |lines|
  {
    if lines == [] then None
    else
      var line, rest := lines[0], lines[1..];
      if IsIgnored(line) then Found(rest, inRoot)
      else if IsHeader(line) then Found(rest, false)
      else if inRoot && Key(line) == TARGET_KEY then Some(ValueOf(line))
      else Found(rest, inRoot)
  }

  function VersionIn(lines: seq<string>): Option<string> {
    var found := Found(lines, true);
    if found.Some? && IsVersion(found.value) then found else None
  }

  // The passes, line by line.

  /** mp_logger_write_build_version_to_config; nothing is written for an invalid version. */
  method WriteVersion(lines: seq<string>, version: string) returns (output: Option<seq<string>>)
    ensures output == if IsVersion(version) then Some(Written(lines, version)) else None
  {
    var valid := IsBuildVersionValid(version);
    if !valid {
      return None;
    }
    var printed := Rewrite(lines, version);
    return Some(printed);
  }

  /** The writing pass. */
  method Rewrite(lines: seq<string>, version: string) returns (printed: seq<string>)
    ensures printed == Written(lines, version)
  {
    var inRoot := true;
    var wrote := false;
    printed := [];
    for i := 0 to |lines|
      invariant printed + Rewritten(lines[i..], version, inRoot, wrote) == Written(lines, version)
    {
      var line := lines[i];
      ghost var before, rest := printed, Rewritten(lines[i..], version, inRoot, wrote);
      assert lines[i..][1..] == lines[i + 1..];
      if IsHeader(line) {
        if !wrote {
          printed := printed + [VersionLine(version)];
          wrote := true;
        }
        printed := printed + [line];
        inRoot := false;
      } else if !inRoot {
        printed := printed + [line];
      } else if Key(line) == TARGET_KEY {
        printed := printed + [VersionLine(version)];
        wrote := true;
      } else {
        printed := printed + [line];
      }
      Shift(before, rest, printed[|before|..], Rewritten(lines[i + 1..], version, inRoot, wrote));
    }
    if !wrote {
      printed := printed + [VersionLine(version)];
    }
  }

  lemma Shift<T>(before: seq<T>, rest: seq<T>, step: seq<T>, later: seq<T>)
    requires rest == step + later
    ensures before + rest == before + step + later
  {
  }

  /** mp_logger_read_build_version_from_config. */
  method ReadVersion(lines: seq<string>) returns (version: Option<string>)
    ensures version == VersionIn(lines)
  {
    var inRoot := true;
    for i := 0 to |lines|
      invariant Found(lines[i..], inRoot) == Found(lines, true)
    {
      var line := lines[i];
      assert lines[i..][1..] == lines[i + 1..];
      if IsIgnored(line) {
      } else if IsHeader(line) {
        inRoot := false;
      } else if inRoot && Key(line) == TARGET_KEY {
        var value := ValueOf(line);
        var valid := IsBuildVersionValid(value);
        return if valid then Some(value) else None;
      }
    }
    return None;
  }

  // What the passes promise.

  lemma VersionLineIsRead(version: string)
    requires IsVersion(version)
    ensures !IsIgnored(VersionLine(version)) && !IsHeader(VersionLine(version))
    ensures Key(VersionLine(version)) == TARGET_KEY && ValueOf(VersionLine(version)) == version
  {
    var line := VersionLine(version);
    var tail := " " + ("\"" + version + "\"");
    assert line == TARGET_KEY + (":" + tail);
    FindIs(line, ':', |TARGET_KEY|);
    FindIs(line[1..], ':', |TARGET_KEY| - 1);
    assert line[..|TARGET_KEY|] == TARGET_KEY && line[|TARGET_KEY| + 1..] == tail;
    TrimmedIsFixed(TARGET_KEY);
    assert tail[1] == '\"';
    assert tail == " " + ("\"" + version + "\"") + "";
    TrimIsUnique(" ", "\"" + version + "\"", "");
    assert ("\"" + version + "\"")[1..] == version + "\"";
    assert (version + "\"")[..|version|] == version;
    assert TrimLeft(line) == line;
  }

  /** Reading after writing gives the written version, for every file. */
  lemma ReadAfterWrite(lines: seq<string>, version: string)
    requires IsVersion(version)
    ensures VersionIn(Written(lines, version)) == Some(version)
  {
    FoundInRewritten(lines, version);
  }

  lemma {:induction false} FoundInRewritten(lines: seq<string>, version: string)
    requires IsVersion(version)
    ensures Found(Written(lines, version), true) == Some(version)
    decreases |lines|
  {
    VersionLineIsRead(version);
    if lines != [] && !IsHeader(lines[0]) && Key(lines[0]) != TARGET_KEY {
      var rest := Written(lines[1..], version);
      assert Written(lines, version) == [lines[0]] + rest;
      assert ([lines[0]] + rest)[1..] == rest;
      FoundInRewritten(lines[1..], version);
    }
  }

  /** The root build_version lines, as the writer sees them, taken out. */
  function Others(lines: seq<string>, inRoot: bool): seq<string>
    decreases |lines|
  {
    if lines == [] then []
    else if IsHeader(lines[0]) then [lines[0]] + Others(lines[1..], false)
    else if inRoot && Key(lines[0]) == TARGET_KEY then Others(lines[1..], true)
    else [lines[0]] + Others(lines[1..], inRoot)
  }

  /** Writing keeps every other line, in order. */
  lemma {:induction false} WriteKeepsOthers(lines: seq<string>, version: string, inRoot: bool, wrote: bool)
    requires IsVersion(version) && (inRoot || wrote)
    ensures Others(Rewritten(lines, version, inRoot, wrote), inRoot) == Others(lines, inRoot)
    decreases |lines|
  {
    VersionLineIsRead(version);
    if lines != [] {
      var line, rest := lines[0], lines[1..];
      if IsHeader(line) {
        WriteKeepsOthers(rest, version, false, true);
      } else if inRoot && Key(line) == TARGET_KEY {
        WriteKeepsOthers(rest, version, true, true);
      } else {
        WriteKeepsOthers(rest, version, inRoot, wrote);
      }
    }
  }

  /** The root build_version lines themselves. */
  function RootVersions(lines: seq<string>, inRoot: bool): seq<string>
    decreases |lines|
  {
    if lines == [] then []
    else if IsHeader(lines[0]) then RootVersions(lines[1..], false)
    else if inRoot && Key(lines[0]) == TARGET_KEY then [lines[0]] + RootVersions(lines[1..], true)
    else RootVersions(lines[1..], inRoot)
  }

  /** Outside the root there is nothing to find. */
  lemma {:induction false} NoneOutsideRoot(lines: seq<string>)
    ensures RootVersions(lines, false) == []
    decreases |lines|
  {
    if lines != [] {
      NoneOutsideRoot(lines[1..]);
    }
  }

  /** Every root build_version line is replaced by the written one; if there was none, one is added. */
  lemma {:induction false} WriteReplacesAll(lines: seq<string>, version: string, inRoot: bool, wrote: bool)
    requires IsVersion(version) && (inRoot || wrote)
    ensures var n := |RootVersions(lines, inRoot)|;
            RootVersions(Rewritten(lines, version, inRoot, wrote), inRoot) ==
            seq(if n == 0 && !wrote then 1 else n, i => VersionLine(version))
    decreases |lines|
  {
    VersionLineIsRead(version);
    if lines != [] {
      var line, rest := lines[0], lines[1..];
      if IsHeader(line) {
        WriteReplacesAll(rest, version, false, true);
        NoneOutsideRoot(rest);
        NoneOutsideRoot(Rewritten(rest, version, false, true));
      } else if inRoot && Key(line) == TARGET_KEY {
        WriteReplacesAll(rest, version, true, true);
      } else {
        WriteReplacesAll(rest, version, inRoot, wrote);
      }
    }
  }

  /** The last write wins, and writing the same version again changes nothing. */
  lemma {:induction false} WriteTwice(lines: seq<string>, v: string, w: string, inRoot: bool, wrote: bool)
    requires IsVersion(v) && (inRoot || wrote)
    ensures Rewritten(Rewritten(lines, v, inRoot, wrote), w, inRoot, wrote) == Rewritten(lines, w, inRoot, wrote)
    decreases |lines|
  {
    VersionLineIsRead(v);
    if lines != [] {
      var line, rest := lines[0], lines[1..];
      if IsHeader(line) {
        WriteTwice(rest, v, w, false, true);
      } else if inRoot && Key(line) == TARGET_KEY {
        WriteTwice(rest, v, w, true, true);
      } else {
        WriteTwice(rest, v, w, inRoot, wrote);
      }
    }
  }
}
