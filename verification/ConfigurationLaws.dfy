/** What the configuration functions mean, in the terms in which files and callers use them. */
module ConfigurationLaws {
  import opened Records
  import opened Trimming
  import opened ConfigText
  import opened Config
  import opened Streams
  import opened Overrides
  import opened Bootstrap
  import opened BootstrapRoundTrip
  import Decimal
  import Render
  import Validation
  import opened Sequences

  // Built-in streams and their sections.

  /** The stream of a sink carries the name of the sink's section and takes the sink's two bounds. */
  lemma SinkIsRetuned(levels: Levels, stream: Stream, sink: Sink)
    requires stream.name == SectionOf(LevelSetting(sink, Minimum))
    ensures Tuned(levels, stream).minimum == LevelOf(levels, sink, Minimum)
    ensures Tuned(levels, stream).maximum == LevelOf(levels, sink, Maximum)
  {
    match sink { case StdoutSink => case StderrSink => case FileSink => case UdpSink => }
  }

  lemma OtherStreamsKeepBounds(levels: Levels, stream: Stream)
    requires forall sink :: stream.name != SectionOf(LevelSetting(sink, Minimum))
    ensures Tuned(levels, stream) == stream
  {
    assert stream.name != SectionOf(LevelSetting(StdoutSink, Minimum));
    assert stream.name != SectionOf(LevelSetting(StderrSink, Minimum));
    assert stream.name != SectionOf(LevelSetting(FileSink, Minimum));
    assert stream.name != SectionOf(LevelSetting(UdpSink, Minimum));
  }

  /** From the file to the stream: a level given under a sink's section, once configured, is that bound of
      the stream of that name, and the other bound is as it was. */
  lemma OverrideReachesStream(c: Config, sink: Sink, bound: Bound, value: string, stream: Stream)
    requires Overridden(c, Entry(SectionOf(LevelSetting(sink, bound)), KeyOf(LevelSetting(sink, bound)), value)).Some?
    requires stream.name == SectionOf(LevelSetting(sink, bound))
    ensures var e := Entry(SectionOf(LevelSetting(sink, bound)), KeyOf(LevelSetting(sink, bound)), value);
            var tuned := Tuned(Overridden(c, e).value.levels, stream);
            var level := ParseLevel(Unquoted(TrimTo(value, VALUE_CAPACITY)));
            && level.Some?
            && (bound == Minimum ==> tuned.minimum == level.value && tuned.maximum == LevelOf(c.levels, sink, Maximum))
            && (bound == Maximum ==> tuned.maximum == level.value && tuned.minimum == LevelOf(c.levels, sink, Minimum))
  {
    var setting := LevelSetting(sink, bound);
    var e := Entry(SectionOf(setting), KeyOf(setting), value);
    TargetOfSetting(setting, value);
    LevelIsAssigned(c, sink, bound, ParseLevel(Unquoted(TrimTo(value, VALUE_CAPACITY))).value);
    var d := Overridden(c, e).value;
    assert Agree(d, c, LevelSetting(sink, if bound == Minimum then Maximum else Minimum));
    SinkIsRetuned(d.levels, stream, sink);
  }

  lemma TargetOfSetting(setting: Setting, value: string)
    ensures Target(Entry(SectionOf(setting), KeyOf(setting), value)) == Some(setting)
  {
    SectionsAreWords(setting);
    KeysAreWords(setting);
    WordFits(SectionOf(setting), SECTION_CAPACITY);
    WordFits(KeyOf(setting), KEY_CAPACITY);
    DispatchReachesSetting(setting);
  }

  lemma WordFits(word: string, capacity: nat)
    requires IsPlainWord(word) && |word| < capacity
    ensures TrimTo(word, capacity) == word
  {
    WordIsTrimmed(word);
  }

  // Configuring.

  /** An accepted request is what the logger is configured with, its prefixes sanitized and its names
      trimmed. */
  lemma ConfiguredIsRequest(current: Config, request: Config)
    requires ConfigureStatus(current, request) == Ok
    ensures Configured(current, request) ==
            Normalized(request).(serviceName := TrimTo(request.serviceName, 64),
                                 environmentName := TrimTo(request.environmentName, 64),
                                 buildVersion := TrimTo(request.buildVersion, 64))
  {
  }

  /** Every size is large enough and every text but the stream list and the UDP host is given. */
  lemma ValidIff(c: Config)
    ensures IsValid(c) <==>
            && (forall size :: SizeOf(c.capacities, size) > if size in {BufferCapacity, FieldCapacity} then 0 else 1)
            && (forall text | text !in {ActiveStreams, UdpHost} :: TextOf(c, text) != "")
  {
    if forall size :: SizeOf(c.capacities, size) > if size in {BufferCapacity, FieldCapacity} then 0 else 1 {
      assert SizeOf(c.capacities, BufferCapacity) > 0 && SizeOf(c.capacities, FieldCapacity) > 0;
      assert SizeOf(c.capacities, MessageCapacity) > 1 && SizeOf(c.capacities, ContextCapacity) > 1;
      assert SizeOf(c.capacities, FieldKeyCapacity) > 1 && SizeOf(c.capacities, FieldValueCapacity) > 1;
    }
    if forall text | text !in {ActiveStreams, UdpHost} :: TextOf(c, text) != "" {
      assert TextOf(c, ServiceName) != "" && TextOf(c, EnvironmentName) != "" && TextOf(c, BuildVersion) != "";
      assert TextOf(c, LogDirectory) != "" && TextOf(c, FilePrefix) != "" && TextOf(c, BackupPrefix) != "";
    }
  }

  predicate IsFileChar(c: char) {
    c in Validation.LOWER || c in Validation.UPPER || c in "0123456789-_"
  }

  /** A sanitized prefix differs from the given one exactly where that is not a letter, a digit, a hyphen
      or an underscore, and has an underscore there. */
  lemma SanitizedIs(s: string)
    ensures forall i | 0 <= i < |s| :: Sanitized(s)[i] == if IsFileChar(s[i]) then s[i] else '_'
    ensures Sanitized(Sanitized(s)) == Sanitized(s)
  {
    forall c
      ensures SafeChar(c) == if IsFileChar(c) then c else '_'
    {
      SafeCharIs(c);
    }
  }

  lemma SafeCharIs(c: char)
    ensures SafeChar(c) == if IsFileChar(c) then c else '_'
  {
    Validation.LowerAre(c);
    Validation.UpperAre(c);
    var others := "0123456789-_";
    if '0' <= c <= '9' {
      assert c == others[c as int - '0' as int];
    } else if c in ['-', '_'] {
      assert others[10] == '-' && others[11] == '_';
    }
  }

  // Values.

  function Lowered(s: string): (l: string)
    ensures |l| == |s|
  {
    seq(|s|, i requires 0 <= i < |s| => ToLower(s[i]))
  }

  lemma SameAsToken(value: string, token: string)
    requires IsPlainWord(token)
    ensures SameIgnoringCase(value, token) <==> Lowered(value) == token
  {
    assert forall i | 0 <= i < |token| :: IsWordChar(token[i]) && ToLower(token[i]) == token[i];
    if SameIgnoringCase(value, token) {
      assert forall i | 0 <= i < |token| :: Lowered(value)[i] == token[i];
    }
    if Lowered(value) == token {
      forall i | 0 <= i < |value|
        ensures ToLower(value[i]) == ToLower(token[i])
      {
        assert Lowered(value)[i] == token[i];
      }
    }
  }

  lemma BoolTokens(value: string)
    ensures ParseBool(value) == Some(true) <==> Lowered(value) in ["true", "yes"] || value == "1"
    ensures ParseBool(value) == Some(false) <==> Lowered(value) in ["false", "no"] || value == "0"
  {
    SameAsToken(value, "true");
    SameAsToken(value, "yes");
    SameAsToken(value, "false");
    SameAsToken(value, "no");
  }

  lemma FormatTokens(value: string)
    ensures ParseFormat(value) == Some(Render.TextFormat) <==> Lowered(value) == "text"
    ensures ParseFormat(value) == Some(Render.JsonFormat) <==> Lowered(value) == "json"
  {
    SameAsToken(value, "text");
    SameAsToken(value, "json");
    assert "text"[0] != "json"[0];
  }

  const LEVEL_TOKENS: seq<string> := ["trace", "debug", "info", "warning", "error", "fatal"]

  /** Levels by name, in any case, with one short form. */
  lemma LevelTokens(value: string, level: int)
    requires InEnum(level)
    ensures ParseLevel(value) == Some(level) <==>
            Lowered(value) == LEVEL_TOKENS[level] || (level == 3 && Lowered(value) == "warn")
  {
    SameAsToken(value, "trace");
    SameAsToken(value, "debug");
    SameAsToken(value, "info");
    SameAsToken(value, "warn");
    SameAsToken(value, "warning");
    SameAsToken(value, "error");
    SameAsToken(value, "fatal");
    assert "trace"[0] == 't' && "debug"[0] == 'd' && "error"[0] == 'e' && "fatal"[0] == 'f';
    assert "info"[0] == 'i' && "warn"[0] == 'w';
  }

  /** How long a text each setting stores whole. */
  lemma TextIsStoredWholeIff(c: Config, text: TextSetting, value: string)
    requires Takes(TextSetting(text), value) && Trimmed(value)
    ensures TextOf(Assigned(c, TextSetting(text), value), text) == value <==>
            |value| < match text
                      case LogDirectory => 256
                      case ActiveStreams => 128
                      case UdpHost => 128
                      case _ => 64
  {
    TrimmedIsFixed(value);
    TextIsAssigned(c, text, TrimTo(value, TextCapacity(text)));
  }

  // Numbers.

  /** A numeral: whitespace, a sign, digits. */
  ghost predicate NumeralShape(value: string, pad: string, sign: string, digits: string) {
    && value == pad + (sign + digits) && AllSpace(pad) && sign in ["", "+", "-"]
    && digits != "" && Decimal.AllDigits(digits)
  }

  lemma ShapeIsNumeral(value: string, pad: string, sign: string, digits: string)
    requires NumeralShape(value, pad, sign, digits)
    ensures IsNumeral(value) && Digits(value) == digits && (HasMinus(value) <==> sign == "-")
  {
    LeftPadDrops(pad, sign + digits);
    assert sign != "" ==> (sign + digits)[0] == sign[0] && (sign + digits)[1..] == digits;
    assert sign == "" ==> sign + digits == digits;
  }

  lemma {:induction false} LeftPadDrops(pad: string, rest: string)
    requires AllSpace(pad) && rest != "" && !IsSpace(rest[0])
    ensures TrimLeft(pad + rest) == rest
  {
    if pad == "" {
      assert pad + rest == rest;
    } else {
      TailOfAppend(pad, rest);
      LeftPadDrops(pad[1..], rest);
    }
  }

  lemma NumeralHasShape(value: string) returns (pad: string, sign: string, digits: string)
    requires IsNumeral(value)
    ensures NumeralShape(value, pad, sign, digits)
  {
    pad := LeftPart(value);
    var core := TrimLeft(value);
    digits := Digits(value);
    sign := if digits == core then "" else [core[0]];
    assert core == sign + digits;
  }

  /** Which texts a size setting takes, and as what number. */
  lemma SizeIs(value: string, size: nat)
    ensures ParseSize(value) == Some(size) <==>
            exists pad, sign, digits ::
              && NumeralShape(value, pad, sign, digits)
              && Decimal.Value(digits) < TWO_64
              && size == if sign == "-" && Decimal.Value(digits) > 0 then TWO_64 - Decimal.Value(digits)
                         else Decimal.Value(digits)
  {
    if ParseSize(value) == Some(size) {
      var pad, sign, digits := NumeralHasShape(value);
      ShapeIsNumeral(value, pad, sign, digits);
    }
    forall pad, sign, digits | NumeralShape(value, pad, sign, digits)
      ensures IsNumeral(value) && Digits(value) == digits && (HasMinus(value) <==> sign == "-")
    {
      ShapeIsNumeral(value, pad, sign, digits);
    }
  }

  lemma PortIs(value: string, port: nat)
    ensures ParsePort(value) == Some(port) <==> ParseSize(value) == Some(port) && port <= 65535
  {
  }

  // Names.

  /** A section and a key name a setting exactly if they are its names once trimmed; that they are cut to
      their buffers never makes a longer name match. */
  lemma TargetIff(e: Entry, setting: Setting)
    ensures Target(e) == Some(setting) <==>
            Trim(e.section) == SectionOf(setting) && Trim(e.key) == KeyOf(setting)
  {
    DispatchIsBijective(setting, TrimTo(e.section, SECTION_CAPACITY), TrimTo(e.key, KEY_CAPACITY));
    NameLengths(setting);
  }

  /** An override is taken exactly if it names a setting whose parser takes the value. */
  lemma OverrideIsTakenIff(c: Config, e: Entry)
    ensures Overridden(c, e).Some? <==>
            exists setting ::
              && Trim(e.section) == SectionOf(setting) && Trim(e.key) == KeyOf(setting)
              && Takes(setting, Unquoted(TrimTo(e.value, 256)))
  {
    forall setting
      ensures Target(e) == Some(setting) <==>
              Trim(e.section) == SectionOf(setting) && Trim(e.key) == KeyOf(setting)
    {
      TargetIff(e, setting);
    }
    if Target(e).Some? {
      KeysAreWords(Target(e).value);
    }
  }

  lemma NameLengths(setting: Setting)
    ensures |SectionOf(setting)| < 31 && |KeyOf(setting)| < 63
  {
    SectionsAreWords(setting);
    KeysAreWords(setting);
  }

  // The file.

  /** Where the last dot is. */
  lemma LastDotIs(stem: string, extension: string)
    requires '.' !in extension
    ensures '.' in stem + "." + extension && LastDot(stem + "." + extension) == |stem|
  {
    AroundSeparator(stem, '.', extension);
    var path := stem + "." + extension;
    var n := LastDot(path);
    assert forall i | |stem| < i < |path| :: path[i] == extension[i - |stem| - 1];
    assert forall i | n < i < |path| :: path[i] == path[n + 1..][i - n - 1];
  }

  /** The text after the last dot is yaml or yml, in any case. */
  ghost predicate EndsInYaml(path: string) {
    exists stem, extension {:trigger stem + "." + extension} ::
      path == stem + "." + extension && '.' !in extension && Lowered(extension) in ["yaml", "yml"]
  }

  lemma YamlIsFound(path: string)
    requires HasYamlExtension(path)
    ensures EndsInYaml(path)
  {
    var n := LastDot(path);
    var stem, extension := path[..n], path[n + 1..];
    SplitAt(path, n);
    assert path == stem + "." + extension;
    HeadAndTail(path[n..]);
    assert path[n..] == "." + extension;
    ExtensionMatches(path[n..], extension);
  }

  lemma FoundIsYaml(stem: string, extension: string)
    requires '.' !in extension && Lowered(extension) in ["yaml", "yml"]
    ensures HasYamlExtension(stem + "." + extension)
  {
    LastDotIs(stem, extension);
    Associate(stem, ".", extension);
    TakeAndDrop(stem, "." + extension);
    ExtensionMatches("." + extension, extension);
  }

  lemma YamlExtensionIff(path: string)
    ensures HasYamlExtension(path) <==> EndsInYaml(path)
  {
    if HasYamlExtension(path) {
      YamlIsFound(path);
    }
    if EndsInYaml(path) {
      var stem, extension :| path == stem + "." + extension && '.' !in extension
                             && Lowered(extension) in ["yaml", "yml"];
      FoundIsYaml(stem, extension);
    }
  }

  lemma ExtensionMatches(dotted: string, extension: string)
    requires dotted == "." + extension
    ensures SameIgnoringCase(dotted, ".yaml") <==> Lowered(extension) == "yaml"
    ensures SameIgnoringCase(dotted, ".yml") <==> Lowered(extension) == "yml"
  {
    DottedMatches(dotted, extension, "yaml");
    DottedMatches(dotted, extension, "yml");
    assert "." + "yaml" == ".yaml" && "." + "yml" == ".yml";
  }

  lemma DottedMatches(dotted: string, extension: string, token: string)
    requires dotted == "." + extension && IsPlainWord(token)
    ensures SameIgnoringCase(dotted, "." + token) <==> Lowered(extension) == token
  {
    SameAsToken(extension, token);
    var other := "." + token;
    assert forall i | 0 <= i < |extension| :: dotted[i + 1] == extension[i];
    assert forall i | 0 <= i < |token| :: other[i + 1] == token[i];
    if SameIgnoringCase(extension, token) {
      forall i | 0 <= i < |dotted|
        ensures ToLower(dotted[i]) == ToLower(other[i])
      {
        assert i > 0 ==> dotted[i] == extension[i - 1] && other[i] == token[i - 1];
      }
    }
    if SameIgnoringCase(dotted, other) {
      forall i | 0 <= i < |extension|
        ensures ToLower(extension[i]) == ToLower(token[i])
      {
        assert ToLower(dotted[i + 1]) == ToLower(other[i + 1]);
      }
    }
  }

  /** Which answer the loader gives. */
  lemma LoadAnswers(path: Option<string>, file: Option<string>, hasOut: bool)
    ensures var status := LoadStatus(path, file, hasOut);
            var readable := path.Some? && hasOut && HasYamlExtension(path.value);
            && (status == InvalidArgument <==> path.None? || !hasOut)
            && (status == IoError <==> readable && file.None?)
            && (status == Ok <==> readable && file.Some? && LoadedFile(file.value).Some?)
            && status in {InvalidArgument, IoError, ConfigError, Ok}
  {
  }
}
