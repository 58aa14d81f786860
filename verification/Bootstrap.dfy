/** The bootstrap loader: one trimmed line at a time, with an explicit current section. */
module Bootstrap {
  import opened Records
  import opened CStrings
  import opened Scanning
  import opened Trimming
  import opened ConfigText
  import opened Config
  import opened Overrides
  import Render

  const LINE_CAPACITY: nat := 512

  /** mp_logger_config_init_defaults. */
  function Defaults(): Config {
    Config(
      "mp-service", "development", "0.0.0",
      Capacities(1024, 512, 1024, 8, 32, 128), Render.JsonFormat, false,
      ".", "mp-service", "mp-logger-internal", "stdout,stderr,file",
      Levels(0, 2, 3, 5, 0, 5, 4, 5), "127.0.0.1", 5514)
  }

  predicate HasYamlExtension(path: string) {
    var n := LastDot(path);
    n < |path| && (SameIgnoringCase(path[n..], ".yaml") || SameIgnoringCase(path[n..], ".yml"))
  }

  /** strrchr for a dot: its last position, or the length if there is none. */
  function LastDot(path: string): (n: nat)
    ensures n <= |path|
    ensures n < |path| ==> path[n] == '.' && '.' !in path[n + 1..]
    ensures n == |path| ==> '.' !in path
  {
    if path == "" then 0
    else
      var n := LastDot(path[1..]);
      if n < |path| - 1 || path[0] != '.' then n + 1 else 0
  }

  // The text as fgets hands it out.

  /** Through the next newline, but no more than fits the line buffer with its terminator. */
  function ChunkLength(text: string): (n: nat)
    requires text != ""
    ensures 0 < n <= |text|
  {
    Min(Min(Find(text, '\n') + 1, |text|), LINE_CAPACITY - 1)
  }

  function Chunks(text: string): (chunks: seq<string>)
    decreases |text|
  {
    if text == "" then [] else [text[..ChunkLength(text)]] + Chunks(text[ChunkLength(text)..])
  }

  /** A line that fits the line buffer with its newline. */
  predicate IsShortLine(line: string) {
    |line| < LINE_CAPACITY - 1 && NulFree(line) && !Occurs(line, '\n')
  }

  function TextOfLines(lines: seq<string>): string {
    if lines == [] then "" else lines[0] + "\n" + TextOfLines(lines[1..])
  }

  function Ended(lines: seq<string>): (chunks: seq<string>) {
    if lines == [] then [] else [lines[0] + "\n"] + Ended(lines[1..])
  }

  /** fgets finds short lines again. */
  lemma {:induction false} ChunksOfLines(lines: seq<string>)
    requires forall i | 0 <= i < |lines| :: IsShortLine(lines[i])
    ensures Chunks(TextOfLines(lines)) == Ended(lines)
  {
    if lines != [] {
      var line, rest := lines[0], TextOfLines(lines[1..]);
      var text := line + "\n" + rest;
      FindIs(text, '\n', |line|);
      assert text[..|line| + 1] == line + "\n" && text[|line| + 1..] == rest;
      ChunksOfLines(lines[1..]);
    }
  }

  // What a line means.

  datatype Line = Skip | Bad | Heading(section: string) | Pair(key: string, value: string)

  function Classified(chunk: string): Line {
    var line := TrimTo(chunk, LINE_CAPACITY);
    if line == "" || line[0] == '#' then Skip
    else
      var n := Find(line, ':');
      if n == |line| then Bad
      else
        var key := TrimTo(line[..n], KEY_CAPACITY);
        var value := Unquoted(TrimTo(line[n + 1..], VALUE_CAPACITY));
        if value == "" then Heading(TrimTo(key, SECTION_CAPACITY))
        else if key == "" then Bad
        else Pair(key, value)
  }

  /** The loader's state between lines. */
  datatype State = State(config: Config, section: string)

  function AfterLine(s: State, line: Line): Option<State> {
    match line
    case Skip => Some(s)
    case Bad => None
    case Heading(name) => Some(s.(section := name))
    case Pair(key, value) =>
      var next := Overridden(s.config, Entry(s.section, key, value));
      if next.None? then None else Some(s.(config := next.value))
  }

  /** What the loader makes of the remaining lines; nothing if one of them is refused. */
  function Loaded(s: State, chunks: seq<string>): Option<Config>
    decreases |chunks|
  {
    if chunks == [] then Some(s.config)
    else
      var next := AfterLine(s, Classified(chunks[0]));
      if next.None? then None else Loaded(next.value, chunks[1..])
  }

  function LoadedFile(text: string): Option<Config> {
    Loaded(State(Defaults(), ""), Chunks(text))
  }

  /** The triples of a file, found without looking at any configuration. */
  function Triples(section: string, chunks: seq<string>): Option<seq<Entry>>
    decreases |chunks|
  {
    if chunks == [] then Some([])
    else
      match Classified(chunks[0])
      case Skip => Triples(section, chunks[1..])
      case Bad => None
      case Heading(name) => Triples(name, chunks[1..])
      case Pair(key, value) =>
        var rest := Triples(section, chunks[1..]);
        if rest.None? then None else Some([Entry(section, key, value)] + rest.value)
  }

  /** The loader is the left fold of the overrides over the triples; it fails exactly when some line
      is bad or some override is refused, wherever in the file that is. */
  lemma {:induction false} LoadIsFold(s: State, chunks: seq<string>)
    ensures Loaded(s, chunks) ==
            if Triples(s.section, chunks).None? then None
            else Fold(s.config, Triples(s.section, chunks).value)
    decreases |chunks|
  {
    if chunks != [] {
      var line := Classified(chunks[0]);
      var next := AfterLine(s, line);
      if next.Some? {
        LoadIsFold(next.value, chunks[1..]);
      }
      if line.Pair? && Triples(s.section, chunks[1..]).Some? {
        FoldFirst(s.config, Entry(s.section, line.key, line.value), Triples(s.section, chunks[1..]).value);
      }
    }
  }

  lemma LoadSucceedsIff(s: State, chunks: seq<string>)
    ensures Loaded(s, chunks).Some? <==>
            Triples(s.section, chunks).Some? && AllAccepted(Triples(s.section, chunks).value)
  {
    LoadIsFold(s, chunks);
    if Triples(s.section, chunks).Some? {
      FoldSucceedsIff(s.config, Triples(s.section, chunks).value);
    }
  }

  // The loader itself.

  /** The caller's out_config. */
  class ConfigCell {
    var config: Config

    constructor (c: Config)
      ensures config == c
    {
      config := c;
    }
  }

  /** fgets: the next chunk, if any text is left. */
  method ReadLine(text: string, position: nat, line: array<char>) returns (length: nat)
    requires position < |text| && NulFree(text) && line.Length == LINE_CAPACITY
    modifies line
    ensures length == ChunkLength(text[position..])
    ensures TextIn(line[..], 0, text[position..][..length])
  {
    var rest := text[position..];
    length := 0;
    while && length < LINE_CAPACITY - 1 && position + length < |text|
          && (length == 0 || text[position + length - 1] != '\n')
      invariant length <= |rest| && length < LINE_CAPACITY
      invariant forall i | 0 <= i < length :: line[i] == rest[i]
      invariant forall i | 0 <= i < length - 1 :: rest[i] != '\n'
    {
      line[length] := text[position + length];
      length := length + 1;
    }
    line[length] := '\0';
    IsTextIn(line, rest[..length]);
    if Find(rest, '\n') < length - 1 {
      assert false;
    }
  }

  /** One pass of the loop up to the override: takes the line apart in place, and keeps the current
      section in its buffer. */
  method TakeLine(line: array<char>, ghost chunk: string, section: array<char>, key: array<char>, value: array<char>)
    returns (kind: Line)
    requires TextIn(line[..], 0, chunk) && line.Length == LINE_CAPACITY && section.Length == SECTION_CAPACITY
    requires key.Length == KEY_CAPACITY && value.Length == VALUE_CAPACITY
    requires line != key && line != value && key != value && section != line && section != key && section != value
    modifies line, section, key, value
    ensures kind == Classified(chunk)
    ensures kind.Pair? ==> TextIn(key[..], 0, kind.key) && TextIn(value[..], 0, kind.value)
    ensures if kind.Heading? then TextIn(section[..], 0, kind.section) else section[..] == old(section[..])
  {
    CopyTrimmed(line, 0, LINE_CAPACITY, line, 0, chunk);
    ghost var text := TrimTo(chunk, LINE_CAPACITY);
    TextAsArray(line, 0, text);
    assert text != "" ==> line[0 + 0] == text[0];
    if line[0] == '\0' || line[0] == '#' {
      return Skip;
    }
    var n, found := CutPiece(line, 0, ':', text);
    if !found {
      return Bad;
    }
    ghost var trimmedKey := TrimTo(text[..n], KEY_CAPACITY);
    ghost var trimmedValue := TrimTo(text[n + 1..], VALUE_CAPACITY);
    CopyTrimmed(key, 0, KEY_CAPACITY, line, 0, text[..n]);
    CopyTrimmed(value, 0, VALUE_CAPACITY, line, n + 1, text[n + 1..]);
    UnquoteScalar(value, trimmedValue);
    var valueText := ReadText(value, 0, Unquoted(trimmedValue));
    if valueText == "" {
      CopyTrimmed(section, 0, SECTION_CAPACITY, key, 0, trimmedKey);
      var name := ReadText(section, 0, TrimTo(trimmedKey, SECTION_CAPACITY));
      return Heading(name);
    }
    var keyText := ReadText(key, 0, trimmedKey);
    if keyText == "" {
      return Bad;
    }
    return Pair(keyText, valueText);
  }

  /** mp_logger_bootstrap_load. `file` is the text behind the path, if it can be opened. All or
      nothing: the caller's configuration is written once, after the last line. */
  method Load(path: Option<string>, file: Option<string>, out: ConfigCell?) returns (status: Status)
    requires file.Some? ==> NulFree(file.value)
    modifies out
    ensures status == LoadStatus(path, file, out != null)
    ensures out != null ==>
              out.config == if status == Ok then LoadedFile(file.value).value else old(out.config)
  {
    if path.None? || out == null {
      return InvalidArgument;
    }
    if !HasYamlExtension(path.value) {
      return ConfigError;
    }
    if file.None? {
      return IoError;
    }
    var config := LoadText(file.value);
    if config.None? {
      return ConfigError;
    }
    out.config := config.value;
    return Ok;
  }

  function LoadStatus(path: Option<string>, file: Option<string>, hasOut: bool): Status {
    if path.None? || !hasOut then InvalidArgument
    else if !HasYamlExtension(path.value) then ConfigError
    else if file.None? then IoError
    else if LoadedFile(file.value).None? then ConfigError
    else Ok
  }

  /** The line loop. */
  method LoadText(text: string) returns (loaded: Option<Config>)
    requires NulFree(text)
    ensures loaded == LoadedFile(text)
  {
    var config := Defaults();
    var line := new char[LINE_CAPACITY];
    var section := new char[SECTION_CAPACITY];
    section[0] := '\0';
    IsTextIn(section, "");
    ghost var current := "";
    var position: nat := 0;
    RestBegins(text);
    while position < |text|
      invariant position <= |text| && TextIn(section[..], 0, current)
      invariant LoadedFile(text) == LoadedRest(State(config, current), text, position)
      decreases |text| - position
    {
      var length := ReadLine(text, position, line);
      ghost var chunk := text[position..][..length];
      RestGoesOn(State(config, current), text, position);
      var next;
      next, current := ApplyLine(config, line, chunk, section, current);
      if next.None? {
        return None;
      }
      config := next.value;
      position := position + length;
    }
    RestEnds(State(config, current), text);
    return Some(config);
  }

  /** What the loader makes of the text from a position on. */
  ghost function LoadedRest(s: State, text: string, position: nat): Option<Config>
    requires position <= |text|
  {
    Loaded(s, Chunks(text[position..]))
  }

  lemma RestBegins(text: string)
    ensures LoadedFile(text) == LoadedRest(State(Defaults(), ""), text, 0)
  {
    assert text[0..] == text;
  }

  lemma RestEnds(s: State, text: string)
    ensures LoadedRest(s, text, |text|) == Some(s.config)
  {
    assert text[|text|..] == "";
  }

  lemma RestGoesOn(s: State, text: string, position: nat)
    requires position < |text|
    ensures var length := ChunkLength(text[position..]);
            var next := AfterLine(s, Classified(text[position..][..length]));
            LoadedRest(s, text, position) ==
            if next.None? then None else LoadedRest(next.value, text, position + length)
  {
    var rest := text[position..];
    ChunksGoOn(text, position);
    LoadedFirst(s, rest[..ChunkLength(rest)], Chunks(text[position + ChunkLength(rest)..]));
  }

  /** One pass of the loop. */
  method ApplyLine(config: Config, line: array<char>, ghost chunk: string, section: array<char>, ghost current: string)
    returns (next: Option<Config>, ghost current': string)
    requires TextIn(line[..], 0, chunk) && line.Length == LINE_CAPACITY
    requires TextIn(section[..], 0, current) && section.Length == SECTION_CAPACITY && section != line
    modifies line, section
    ensures var after := AfterLine(State(config, current), Classified(chunk));
            if after.None? then next.None?
            else next == Some(after.value.config) && current' == after.value.section
                 && TextIn(section[..], 0, current')
  {
    var key := new char[KEY_CAPACITY];
    var value := new char[VALUE_CAPACITY];
    current' := current;
    var kind := TakeLine(line, chunk, section, key, value);
    match kind {
      case Skip => next := Some(config);
      case Bad => next := None;
      case Heading(name) => next, current' := Some(config), name;
      case Pair(keyText, valueText) =>
        var status, config' := ApplyOverride(config, section, key, value, Entry(current, keyText, valueText));
        next := if status == Ok then Some(config') else None;
    }
  }

  lemma ChunksGoOn(text: string, position: nat)
    requires position < |text|
    ensures var rest := text[position..];
            var length := ChunkLength(rest);
            Chunks(rest) == [rest[..length]] + Chunks(text[position + length..])
  {
    var rest := text[position..];
    assert rest[ChunkLength(rest)..] == text[position + ChunkLength(rest)..];
  }

  lemma LoadedFirst(s: State, chunk: string, rest: seq<string>)
    ensures Loaded(s, [chunk] + rest) ==
            var next := AfterLine(s, Classified(chunk));
            if next.None? then None else Loaded(next.value, rest)
  {
    assert ([chunk] + rest)[1..] == rest;
  }
}
