/** Configuration overrides: (section, key, value) triples applied to a configuration. */
module Overrides {
  import opened Sequences
  import opened Records
  import opened CStrings
  import opened Trimming
  import opened ConfigText
  import opened Config
  import Decimal
  import Render

  // Value parsers.

  function ToLower(c: char): char {
    if 'A' <= c <= 'Z' then (c as int + 32) as char else c
  }

  predicate SameIgnoringCase(a: string, b: string) {
    |a| == |b| && forall i | 0 <= i < |a| :: ToLower(a[i]) == ToLower(b[i])
  }

  function ParseBool(value: string): Option<bool> {
    if SameIgnoringCase(value, "true") || value == "1" || SameIgnoringCase(value, "yes") then Some(true)
    else if SameIgnoringCase(value, "false") || value == "0" || SameIgnoringCase(value, "no") then Some(false)
    else None
  }

  function ParseLevel(value: string): Option<int> {
    if SameIgnoringCase(value, "trace") then Some(0)
    else if SameIgnoringCase(value, "debug") then Some(1)
    else if SameIgnoringCase(value, "info") then Some(2)
    else if SameIgnoringCase(value, "warn") || SameIgnoringCase(value, "warning") then Some(3)
    else if SameIgnoringCase(value, "error") then Some(4)
    else if SameIgnoringCase(value, "fatal") then Some(5)
    else None
  }

  function ParseFormat(value: string): Option<Render.Format> {
    if SameIgnoringCase(value, "text") then Some(Render.TextFormat)
    else if SameIgnoringCase(value, "json") then Some(Render.JsonFormat)
    else None
  }

  /** The text after leading whitespace and a sign. */
  function Digits(value: string): string {
    var s := TrimLeft(value);
    if s != "" && (s[0] == '+' || s[0] == '-') then s[1..] else s
  }

  predicate HasMinus(value: string) {
    TrimLeft(value) != "" && TrimLeft(value)[0] == '-'
  }

  predicate IsNumeral(value: string) {
    Digits(value) != "" && Decimal.AllDigits(Digits(value))
  }

  /** The number that a numeral denotes. */
  function Denoted(value: string): int
    requires IsNumeral(value)
  {
    var n: int := Decimal.Value(Digits(value));
    if HasMinus(value) then -n else n
  }

  /** strtoull in base 10 on the whole string: whitespace, a sign, digits; a minus sign negates
      modulo 2^64, and only an overflow of the magnitude is an error. */
  function ParseSize(value: string): Option<nat> {
    if !IsNumeral(value) || Decimal.Value(Digits(value)) >= TWO_64 then None
    else if HasMinus(value) && Decimal.Value(Digits(value)) > 0 then Some(TWO_64 - Decimal.Value(Digits(value)))
    else Some(Decimal.Value(Digits(value)))
  }

  function ParsePort(value: string): Option<nat> {
    var size := ParseSize(value);
    if size.Some? && size.value > 0xFFFF then None else size
  }

  /** An accepted value is the number its text denotes exactly if the text has no minus sign or denotes
      zero; otherwise it is off by 2^64. */
  lemma SizeIsDenotedIff(value: string)
    requires ParseSize(value).Some?
    ensures ParseSize(value).value == Denoted(value) <==> !HasMinus(value) || Decimal.Value(Digits(value)) == 0
    ensures ParseSize(value).value == Denoted(value) || ParseSize(value).value == Denoted(value) + TWO_64
  {
  }

  /** The same for ports: what the range test lets through is the number denoted, or wraps into range. */
  lemma PortIsDenotedIff(value: string)
    requires ParsePort(value).Some?
    ensures ParsePort(value).value == Denoted(value) <==> !HasMinus(value) || Decimal.Value(Digits(value)) == 0
    ensures ParsePort(value).value == Denoted(value) || TWO_64 - 0xFFFF <= -Denoted(value) < TWO_64
  {
    SizeIsDenotedIff(value);
  }

  lemma MinusNumeral(n: nat)
    ensures var value := "-" + Decimal.Print(n);
            IsNumeral(value) && HasMinus(value) && Digits(value) == Decimal.Print(n) && Denoted(value) + n == 0
  {
    Decimal.ValueOfPrint(n);
    var value := "-" + Decimal.Print(n);
    assert TrimLeft(value) == value;
    assert value[1..] == Decimal.Print(n);
  }

  /** A minus sign is accepted: the text of a negative number parses as its value modulo 2^64. */
  lemma MinusSignWraps(n: nat)
    requires n < TWO_64
    ensures ParseSize("-" + Decimal.Print(n)) == Some(if n == 0 then 0 else TWO_64 - n)
  {
    MinusNumeral(n);
    Decimal.ValueOfPrint(n);
  }

  /** Which negative ports are accepted. */
  lemma NegativePortIff(n: nat)
    ensures ParsePort("-" + Decimal.Print(n)).Some? <==> n == 0 || (n < TWO_64 && TWO_64 - n <= 0xFFFF)
  {
    MinusNumeral(n);
    Decimal.ValueOfPrint(n);
  }

  // The settings.

  datatype TextSetting =
    | ServiceName | EnvironmentName | BuildVersion | LogDirectory
    | FilePrefix | BackupPrefix | ActiveStreams | UdpHost

  datatype SizeSetting =
    | BufferCapacity | MessageCapacity | ContextCapacity | FieldCapacity | FieldKeyCapacity | FieldValueCapacity

  datatype Sink = StdoutSink | StderrSink | FileSink | UdpSink

  datatype Bound = Minimum | Maximum

  datatype Setting =
    | TextSetting(text: TextSetting)
    | SizeSetting(size: SizeSetting)
    | LevelSetting(sink: Sink, bound: Bound)
    | OutputFormat
    | PrettyOutput
    | UdpPort

  function RootSetting(key: string): Option<Setting> {
    if key == "service_name" then Some(TextSetting(ServiceName))
    else if key == "environment_name" then Some(TextSetting(EnvironmentName))
    else if key == "build_version" then Some(TextSetting(BuildVersion))
    else None
  }

  function LoggerSetting(key: string): Option<Setting> {
    if key == "buffer_capacity" then Some(SizeSetting(BufferCapacity))
    else if key == "message_capacity" then Some(SizeSetting(MessageCapacity))
    else if key == "context_capacity" then Some(SizeSetting(ContextCapacity))
    else if key == "field_capacity" then Some(SizeSetting(FieldCapacity))
    else if key == "field_key_capacity" then Some(SizeSetting(FieldKeyCapacity))
    else if key == "field_value_capacity" then Some(SizeSetting(FieldValueCapacity))
    else if key == "format" then Some(OutputFormat)
    else if key == "pretty_output" then Some(PrettyOutput)
    else if key == "log_directory" then Some(TextSetting(LogDirectory))
    else if key == "file_name_prefix" then Some(TextSetting(FilePrefix))
    else if key == "backup_file_name_prefix" then Some(TextSetting(BackupPrefix))
    else if key == "active_streams" then Some(TextSetting(ActiveStreams))
    else None
  }

  function SinkSetting(sink: Sink, key: string): Option<Setting> {
    if key == "minimum_level" then Some(LevelSetting(sink, Minimum))
    else if key == "maximum_level" then Some(LevelSetting(sink, Maximum))
    else if sink == UdpSink && key == "host" then Some(TextSetting(UdpHost))
    else if sink == UdpSink && key == "port" then Some(UdpPort)
    else None
  }

  /** The section and key dispatch of mp_logger_apply_value; unknown names have no setting. */
  function SettingOf(section: string, key: string): Option<Setting> {
    if section == "" then RootSetting(key)
    else if section == "logger" then LoggerSetting(key)
    else if section == "stdout" then SinkSetting(StdoutSink, key)
    else if section == "stderr" then SinkSetting(StderrSink, key)
    else if section == "file" then SinkSetting(FileSink, key)
    else if section == "udp" then SinkSetting(UdpSink, key)
    else None
  }

  /** Whether the setting's parser takes the value. */
  predicate Takes(setting: Setting, value: string) {
    match setting
    case TextSetting(text) => text == BuildVersion ==> IsVersion(value)
    case SizeSetting(_) => ParseSize(value).Some?
    case LevelSetting(_, _) => ParseLevel(value).Some?
    case OutputFormat => ParseFormat(value).Some?
    case PrettyOutput => ParseBool(value).Some?
    case UdpPort => ParsePort(value).Some?
  }

  function TextCapacity(text: TextSetting): nat {
    match text
    case LogDirectory => PATH_CAPACITY
    case ActiveStreams => ACTIVE_STREAMS_CAPACITY
    case UdpHost => HOST_CAPACITY
    case _ => NAME_CAPACITY
  }

  function TextOf(c: Config, text: TextSetting): string {
    match text
    case ServiceName => c.serviceName
    case EnvironmentName => c.environmentName
    case BuildVersion => c.buildVersion
    case LogDirectory => c.logDirectory
    case FilePrefix => c.filePrefix
    case BackupPrefix => c.backupPrefix
    case ActiveStreams => c.activeStreams
    case UdpHost => c.udpHost
  }

  function SizeOf(c: Capacities, size: SizeSetting): nat {
    match size
    case BufferCapacity => c.slots
    case MessageCapacity => c.message
    case ContextCapacity => c.context
    case FieldCapacity => c.fields
    case FieldKeyCapacity => c.key
    case FieldValueCapacity => c.value
  }

  function LevelOf(l: Levels, sink: Sink, bound: Bound): int {
    match (sink, bound)
    case (StdoutSink, Minimum) => l.stdoutMinimum
    case (StdoutSink, Maximum) => l.stdoutMaximum
    case (StderrSink, Minimum) => l.stderrMinimum
    case (StderrSink, Maximum) => l.stderrMaximum
    case (FileSink, Minimum) => l.fileMinimum
    case (FileSink, Maximum) => l.fileMaximum
    case (UdpSink, Minimum) => l.udpMinimum
    case (UdpSink, Maximum) => l.udpMaximum
  }

  function WithText(c: Config, setting: TextSetting, text: string): Config {
    match setting
    case ServiceName => c.(serviceName := text)
    case EnvironmentName => c.(environmentName := text)
    case BuildVersion => c.(buildVersion := text)
    case LogDirectory => c.(logDirectory := text)
    case FilePrefix => c.(filePrefix := text)
    case BackupPrefix => c.(backupPrefix := text)
    case ActiveStreams => c.(activeStreams := text)
    case UdpHost => c.(udpHost := text)
  }

  function WithSize(capacities: Capacities, setting: SizeSetting, size: nat): Capacities {
    match setting
    case BufferCapacity => capacities.(slots := size)
    case MessageCapacity => capacities.(message := size)
    case ContextCapacity => capacities.(context := size)
    case FieldCapacity => capacities.(fields := size)
    case FieldKeyCapacity => capacities.(key := size)
    case FieldValueCapacity => capacities.(value := size)
  }

  function WithLevel(levels: Levels, sink: Sink, bound: Bound, level: int): Levels {
    match (sink, bound)
    case (StdoutSink, Minimum) => levels.(stdoutMinimum := level)
    case (StdoutSink, Maximum) => levels.(stdoutMaximum := level)
    case (StderrSink, Minimum) => levels.(stderrMinimum := level)
    case (StderrSink, Maximum) => levels.(stderrMaximum := level)
    case (FileSink, Minimum) => levels.(fileMinimum := level)
    case (FileSink, Maximum) => levels.(fileMaximum := level)
    case (UdpSink, Minimum) => levels.(udpMinimum := level)
    case (UdpSink, Maximum) => levels.(udpMaximum := level)
  }

  function Assigned(c: Config, setting: Setting, value: string): Config
    requires Takes(setting, value)
  {
    match setting
    case TextSetting(text) => WithText(c, text, TrimTo(value, TextCapacity(text)))
    case SizeSetting(size) => c.(capacities := WithSize(c.capacities, size, ParseSize(value).value))
    case LevelSetting(sink, bound) => c.(levels := WithLevel(c.levels, sink, bound, ParseLevel(value).value))
    case OutputFormat => c.(format := ParseFormat(value).value)
    case PrettyOutput => c.(pretty := ParseBool(value).value)
    case UdpPort => c.(udpPort := ParsePort(value).value)
  }

  const SECTION_CAPACITY: nat := 32
  const KEY_CAPACITY: nat := 64
  const VALUE_CAPACITY: nat := 256

  /** One (section, key, value) triple as the loader passes it on. */
  datatype Entry = Entry(section: string, key: string, value: string)

  /** mp_logger_config_apply_override: the new configuration, or nothing if the override is refused. */
  function Overridden(c: Config, e: Entry): Option<Config> {
    var key := TrimTo(e.key, KEY_CAPACITY);
    var value := Unquoted(TrimTo(e.value, VALUE_CAPACITY));
    var setting := SettingOf(TrimTo(e.section, SECTION_CAPACITY), key);
    if key == "" || setting.None? || !Takes(setting.value, value) then None
    else Some(Assigned(c, setting.value, value))
  }

  /** Which setting an entry changes. */
  function Target(e: Entry): Option<Setting> {
    SettingOf(TrimTo(e.section, SECTION_CAPACITY), TrimTo(e.key, KEY_CAPACITY))
  }

  /** What an accepted override of a size stores, against what its text says. */
  lemma SizeOverrideIsDenotedIff(c: Config, e: Entry, size: SizeSetting)
    requires Overridden(c, e).Some? && Target(e) == Some(SizeSetting(size))
    ensures var value := Unquoted(TrimTo(e.value, VALUE_CAPACITY));
            && IsNumeral(value)
            && (SizeOf(Overridden(c, e).value.capacities, size) == Denoted(value) <==>
                !HasMinus(value) || Decimal.Value(Digits(value)) == 0)
  {
    SizeIsDenotedIff(Unquoted(TrimTo(e.value, VALUE_CAPACITY)));
  }

  lemma PortOverrideIsDenotedIff(c: Config, e: Entry)
    requires Overridden(c, e).Some? && Target(e) == Some(UdpPort)
    ensures var value := Unquoted(TrimTo(e.value, VALUE_CAPACITY));
            && IsNumeral(value)
            && (Overridden(c, e).value.udpPort == Denoted(value) <==>
                !HasMinus(value) || Decimal.Value(Digits(value)) == 0)
  {
    PortIsDenotedIff(Unquoted(TrimTo(e.value, VALUE_CAPACITY)));
  }

  /** buffer_capacity: -1 is taken, as the largest 64-bit number. */
  lemma NegativeCapacityIsTaken(c: Config)
    ensures Overridden(c, Entry("logger", "buffer_capacity", "-1")) ==
            Some(c.(capacities := c.capacities.(slots := TWO_64 - 1)))
  {
    assert ParseSize("-1") == Some(TWO_64 - 1) by {
      MinusSignWraps(1);
      assert Decimal.Print(1) == "1" && "-" + "1" == "-1";
    }
    assert TrimTo("logger", SECTION_CAPACITY) == "logger" by {
      TrimmedIsFixed("logger");
    }
    assert TrimTo("buffer_capacity", KEY_CAPACITY) == "buffer_capacity" by {
      TrimmedIsFixed("buffer_capacity");
    }
    assert TrimTo("-1", VALUE_CAPACITY) == "-1" by {
      TrimmedIsFixed("-1");
    }
  }

  // Overrides of different settings commute; of the same setting the last one wins.

  lemma TextsCommute(c: Config, a: TextSetting, v: string, b: TextSetting, w: string)
    requires a != b
    ensures WithText(WithText(c, a, v), b, w) == WithText(WithText(c, b, w), a, v)
  {
  }

  lemma SizesCommute(c: Capacities, a: SizeSetting, v: nat, b: SizeSetting, w: nat)
    requires a != b
    ensures WithSize(WithSize(c, a, v), b, w) == WithSize(WithSize(c, b, w), a, v)
  {
  }

  lemma LevelsCommute(c: Levels, a: Sink, k: Bound, v: int, b: Sink, l: Bound, w: int)
    requires (a, k) != (b, l)
    ensures WithLevel(WithLevel(c, a, k, v), b, l, w) == WithLevel(WithLevel(c, b, l, w), a, k, v)
  {
  }

  /** A text assignment commutes with every assignment to the rest of the configuration. */
  lemma TextLeavesRest(c: Config, a: TextSetting, v: string, b: Setting, w: string)
    requires !b.TextSetting? && Takes(b, w)
    ensures Assigned(WithText(c, a, v), b, w) == WithText(Assigned(c, b, w), a, v)
  {
    match b {
      case SizeSetting(_) =>
        match a { case ServiceName => case EnvironmentName => case BuildVersion => case LogDirectory =>
                  case FilePrefix => case BackupPrefix => case ActiveStreams => case UdpHost => }
      case LevelSetting(_, _) =>
        match a { case ServiceName => case EnvironmentName => case BuildVersion => case LogDirectory =>
                  case FilePrefix => case BackupPrefix => case ActiveStreams => case UdpHost => }
      case OutputFormat =>
      case PrettyOutput =>
      case UdpPort =>
    }
  }

  lemma AssignmentsCommute(c: Config, a: Setting, v: string, b: Setting, w: string)
    requires a != b && Takes(a, v) && Takes(b, w)
    ensures Assigned(Assigned(c, a, v), b, w) == Assigned(Assigned(c, b, w), a, v)
  {
    match (a, b)
    case (TextSetting(s), TextSetting(t)) =>
      TextsCommute(c, s, TrimTo(v, TextCapacity(s)), t, TrimTo(w, TextCapacity(t)));
    case (TextSetting(s), _) =>
      TextLeavesRest(c, s, TrimTo(v, TextCapacity(s)), b, w);
    case (_, TextSetting(t)) =>
      TextLeavesRest(c, t, TrimTo(w, TextCapacity(t)), a, v);
    case (SizeSetting(s), SizeSetting(t)) =>
      SizesCommute(c.capacities, s, ParseSize(v).value, t, ParseSize(w).value);
    case (LevelSetting(s, k), LevelSetting(t, l)) =>
      LevelsCommute(c.levels, s, k, ParseLevel(v).value, t, l, ParseLevel(w).value);
    case _ =>
  }

  lemma LastTextWins(c: Config, a: TextSetting, v: string, w: string)
    ensures WithText(WithText(c, a, v), a, w) == WithText(c, a, w)
  {
  }

  lemma LastSizeWins(c: Capacities, a: SizeSetting, v: nat, w: nat)
    ensures WithSize(WithSize(c, a, v), a, w) == WithSize(c, a, w)
  {
  }

  lemma LastLevelWins(c: Levels, a: Sink, k: Bound, v: int, w: int)
    ensures WithLevel(WithLevel(c, a, k, v), a, k, w) == WithLevel(c, a, k, w)
  {
  }

  lemma LastAssignmentWins(c: Config, a: Setting, v: string, w: string)
    requires Takes(a, v) && Takes(a, w)
    ensures Assigned(Assigned(c, a, v), a, w) == Assigned(c, a, w)
  {
    match a
    case TextSetting(t) => LastTextWins(c, t, TrimTo(v, TextCapacity(t)), TrimTo(w, TextCapacity(t)));
    case SizeSetting(s) => LastSizeWins(c.capacities, s, ParseSize(v).value, ParseSize(w).value);
    case LevelSetting(s, k) => LastLevelWins(c.levels, s, k, ParseLevel(v).value, ParseLevel(w).value);
    case OutputFormat =>
    case PrettyOutput =>
    case UdpPort =>
  }

  function AndThen(c: Option<Config>, e: Entry): Option<Config> {
    if c.Some? then Overridden(c.value, e) else None
  }

  lemma OverridesCommute(c: Config, e: Entry, f: Entry)
    requires Target(e) != Target(f)
    ensures AndThen(Overridden(c, e), f) == AndThen(Overridden(c, f), e)
  {
    if Overridden(c, e).Some? && Overridden(c, f).Some? {
      AssignmentsCommute(c, Target(e).value, Unquoted(TrimTo(e.value, VALUE_CAPACITY)),
                         Target(f).value, Unquoted(TrimTo(f.value, VALUE_CAPACITY)));
    }
  }

  lemma LastOverrideWins(c: Config, e: Entry, f: Entry)
    requires Target(e) == Target(f) && Overridden(c, e).Some?
    ensures AndThen(Overridden(c, e), f) == Overridden(c, f)
  {
    if Overridden(c, f).Some? {
      LastAssignmentWins(c, Target(e).value, Unquoted(TrimTo(e.value, VALUE_CAPACITY)),
                         Unquoted(TrimTo(f.value, VALUE_CAPACITY)));
    }
  }

  // Whole lists of overrides.

  /** The left fold; a refused override refuses the list. */
  function Fold(c: Config, entries: seq<Entry>): Option<Config>
    decreases |entries|
  {
    if entries == [] then Some(c)
    else
      var next := Overridden(c, entries[0]);
      if next.None? then None else Fold(next.value, entries[1..])
  }

  /** Whether an entry is taken does not depend on the configuration. */
  predicate Accepted(e: Entry) {
    && TrimTo(e.key, KEY_CAPACITY) != ""
    && Target(e).Some?
    && Takes(Target(e).value, Unquoted(TrimTo(e.value, VALUE_CAPACITY)))
  }

  predicate AllAccepted(entries: seq<Entry>) {
    forall i | 0 <= i < |entries| :: Accepted(entries[i])
  }

  lemma AllAcceptedFirst(entries: seq<Entry>)
    requires entries != []
    ensures AllAccepted(entries) <==> Accepted(entries[0]) && AllAccepted(entries[1..])
  {
    assert forall i | 1 <= i < |entries| :: entries[i] == entries[1..][i - 1];
  }

  /** A fold succeeds exactly when every entry is accepted on its own. */
  lemma {:induction false} FoldSucceedsIff(c: Config, entries: seq<Entry>)
    ensures Fold(c, entries).Some? <==> AllAccepted(entries)
    decreases |entries|
  {
    if entries != [] {
      AllAcceptedFirst(entries);
      AcceptedIff(c, entries[0]);
      if Accepted(entries[0]) {
        FoldSucceedsIff(Overridden(c, entries[0]).value, entries[1..]);
      }
    }
  }

  lemma AcceptedIff(c: Config, e: Entry)
    ensures Overridden(c, e).Some? <==> Accepted(e)
  {
  }

  lemma {:induction false} FoldAppend(c: Config, a: seq<Entry>, b: seq<Entry>)
    ensures Fold(c, a + b) == if Fold(c, a).None? then None else Fold(Fold(c, a).value, b)
    decreases |a|
  {
    if a == [] {
      assert a + b == b;
    } else {
      assert (a + b)[1..] == a[1..] + b;
      if Overridden(c, a[0]).Some? {
        FoldAppend(Overridden(c, a[0]).value, a[1..], b);
      }
    }
  }

  lemma FoldFirst(c: Config, e: Entry, rest: seq<Entry>)
    ensures Fold(c, [e] + rest) == if Overridden(c, e).None? then None else Fold(Overridden(c, e).value, rest)
  {
    assert ([e] + rest)[1..] == rest;
  }

  lemma FoldSwaps(c: Config, e: Entry, f: Entry, rest: seq<Entry>)
    requires Target(e) != Target(f)
    ensures Fold(c, [e] + ([f] + rest)) == Fold(c, [f] + ([e] + rest))
  {
    FoldFirst(c, e, [f] + rest);
    FoldFirst(c, f, [e] + rest);
    if Overridden(c, e).Some? {
      FoldFirst(Overridden(c, e).value, f, rest);
    }
    if Overridden(c, f).Some? {
      FoldFirst(Overridden(c, f).value, e, rest);
    }
    OverridesCommute(c, e, f);
  }

  lemma Regrouped<T>(f: T, e: T, rest: seq<T>, after: seq<T>)
    ensures [f] + rest + [e] + after == [f] + (rest + [e] + after)
    ensures [e] + rest + after == [e] + (rest + after)
    ensures [e] + ([f] + rest) + after == [e] + ([f] + (rest + after))
  {
  }

  /** An entry can move ahead of entries for other settings. */
  lemma {:induction false} FoldMovesForward(c: Config, before: seq<Entry>, e: Entry, after: seq<Entry>)
    requires forall i | 0 <= i < |before| :: Target(before[i]) != Target(e)
    ensures Fold(c, before + [e] + after) == Fold(c, [e] + before + after)
    decreases |before|
  {
    if before == [] {
      assert before + [e] + after == [e] + before + after;
    } else {
      var f := before[0];
      var rest := before[1..];
      assert before == [f] + rest;
      var later := rest + after;
      Regrouped(f, e, rest, after);
      FoldFirst(c, f, rest + [e] + after);
      FoldFirst(c, f, [e] + later);
      if Overridden(c, f).Some? {
        FoldMovesForward(Overridden(c, f).value, rest, e, after);
      }
      FoldSwaps(c, e, f, later);
    }
  }

  /** The entries that go to one target, in order. */
  function EntriesFor(entries: seq<Entry>, target: Option<Setting>): (r: seq<Entry>) {
    if entries == [] then []
    else (if Target(entries[0]) == target then [entries[0]] else []) + EntriesFor(entries[1..], target)
  }

  lemma {:induction false} EntriesForAppend(a: seq<Entry>, b: seq<Entry>, target: Option<Setting>)
    ensures EntriesFor(a + b, target) == EntriesFor(a, target) + EntriesFor(b, target)
  {
    if a == [] {
      assert a + b == b;
    } else {
      assert (a + b)[1..] == a[1..] + b;
      EntriesForAppend(a[1..], b, target);
      Associate(if Target(a[0]) == target then [a[0]] else [], EntriesFor(a[1..], target), EntriesFor(b, target));
    }
  }

  /** A list with entries for a target splits at the first of them. */
  lemma {:induction false} FirstFor(entries: seq<Entry>, target: Option<Setting>)
    returns (before: seq<Entry>, after: seq<Entry>)
    requires EntriesFor(entries, target) != []
    ensures entries == before + [EntriesFor(entries, target)[0]] + after
    ensures forall i | 0 <= i < |before| :: Target(before[i]) != target
  {
    if Target(entries[0]) == target {
      before, after := [], entries[1..];
    } else {
      before, after := FirstFor(entries[1..], target);
      before := [entries[0]] + before;
    }
  }

  lemma {:induction false} NoneFor(entries: seq<Entry>, target: Option<Setting>)
    requires forall i | 0 <= i < |entries| :: Target(entries[i]) != target
    ensures EntriesFor(entries, target) == []
  {
    if entries != [] {
      NoneFor(entries[1..], target);
    }
  }

  /** The first entry of one list is in the other, behind entries for other settings only. */
  lemma FirstIsInBoth(a: seq<Entry>, b: seq<Entry>) returns (before: seq<Entry>, after: seq<Entry>)
    requires a != [] && forall t :: EntriesFor(a, t) == EntriesFor(b, t)
    ensures b == before + [a[0]] + after && forall i | 0 <= i < |before| :: Target(before[i]) != Target(a[0])
    ensures forall t :: EntriesFor(a[1..], t) == EntriesFor(before + after, t)
  {
    var e := a[0];
    assert EntriesFor(a, Target(e)) == EntriesFor(b, Target(e));
    before, after := FirstFor(b, Target(e));
    forall t
      ensures EntriesFor(a[1..], t) == EntriesFor(before + after, t)
    {
      RestOfEntries(a, before, e, after, t);
    }
  }

  /** Two lists in which every setting gets the same values in the same order give the same
      configuration: the order between different settings does not matter. */
  lemma {:induction false} OrderBetweenSettingsIsFree(c: Config, a: seq<Entry>, b: seq<Entry>)
    requires forall t :: EntriesFor(a, t) == EntriesFor(b, t)
    ensures Fold(c, a) == Fold(c, b)
    decreases |a|
  {
    if a == [] {
      if b != [] {
        HasItsOwn(b);
        assert false;
      }
    } else {
      var before, after := FirstIsInBoth(a, b);
      FoldMovesForward(c, before, a[0], after);
      assert [a[0]] + before + after == [a[0]] + (before + after) && a == [a[0]] + a[1..];
      FoldFirst(c, a[0], before + after);
      FoldFirst(c, a[0], a[1..]);
      if Overridden(c, a[0]).Some? {
        OrderBetweenSettingsIsFree(Overridden(c, a[0]).value, a[1..], before + after);
      }
    }
  }

  lemma HasItsOwn(entries: seq<Entry>)
    requires entries != []
    ensures EntriesFor(entries, Target(entries[0])) != EntriesFor([], Target(entries[0]))
  {
  }

  lemma RestOfEntries(a: seq<Entry>, before: seq<Entry>, e: Entry, after: seq<Entry>, t: Option<Setting>)
    requires a != [] && a[0] == e && forall i | 0 <= i < |before| :: Target(before[i]) != Target(e)
    requires EntriesFor(a, t) == EntriesFor(before + [e] + after, t)
    ensures EntriesFor(a[1..], t) == EntriesFor(before + after, t)
  {
    var own := EntriesFor([e], t);
    EntriesForAppend([e], a[1..], t);
    assert a == [e] + a[1..];
    EntriesOfThree(before, e, after, t);
    EntriesForAppend(before, after, t);
    if own != [] {
      assert [e][1..] == [];
      NoneFor(before, t);
    }
    Cancel(own, EntriesFor(a[1..], t), EntriesFor(before, t), EntriesFor(after, t));
  }

  lemma EntriesOfThree(before: seq<Entry>, e: Entry, after: seq<Entry>, t: Option<Setting>)
    ensures EntriesFor(before + [e] + after, t) == EntriesFor(before, t) + EntriesFor([e], t) + EntriesFor(after, t)
  {
    EntriesForAppend(before + [e], after, t);
    EntriesForAppend(before, [e], t);
  }

  lemma Cancel<T>(own: seq<T>, r: seq<T>, p: seq<T>, q: seq<T>)
    requires own + r == p + own + q && (own == [] || p == [])
    ensures r == p + q
  {
    if own == [] {
      assert own + r == r && p + own + q == p + q;
    } else {
      assert (own + r)[|own|..] == r && (p + own + q)[|own|..] == q;
      assert p + q == q;
    }
  }

  // mp_logger_config_apply_override on buffers.

  /** A caller's string; NULL stands for no string. */
  predicate Holds(buffer: array?<char>, s: string)
    reads buffer
  {
    buffer != null ==> TextIn(buffer[..], 0, s)
  }

  /** The configuration changes as the override says, or stays and the call reports an error. */
  method ApplyOverride(c: Config, section: array?<char>, key: array?<char>, value: array?<char>, ghost e: Entry)
    returns (status: Status, c': Config)
    requires Holds(section, e.section) && Holds(key, e.key) && Holds(value, e.value)
    requires section == null ==> e.section == ""
    ensures key == null || value == null ==> status == InvalidArgument && c' == c
    ensures key != null && value != null ==>
              var next := Overridden(c, e);
              status == (if next.Some? then Ok else ConfigError) && c' == (if next.Some? then next.value else c)
  {
    if key == null || value == null {
      return InvalidArgument, c;
    }
    var normalizedSection := new char[SECTION_CAPACITY];
    var normalizedKey := new char[KEY_CAPACITY];
    var normalizedValue := new char[VALUE_CAPACITY];
    if section == null {
      normalizedSection[0] := '\0';
      IsTextIn(normalizedSection, "");
    } else {
      CopyTrimmed(normalizedSection, 0, SECTION_CAPACITY, section, 0, e.section);
    }
    CopyTrimmed(normalizedKey, 0, KEY_CAPACITY, key, 0, e.key);
    CopyTrimmed(normalizedValue, 0, VALUE_CAPACITY, value, 0, e.value);
    UnquoteScalar(normalizedValue, TrimTo(e.value, VALUE_CAPACITY));
    var keyText := ReadText(normalizedKey, 0, TrimTo(e.key, KEY_CAPACITY));
    if keyText == "" {
      return ConfigError, c;
    }
    var sectionText := ReadText(normalizedSection, 0, TrimTo(e.section, SECTION_CAPACITY));
    var valueText := ReadText(normalizedValue, 0, Unquoted(TrimTo(e.value, VALUE_CAPACITY)));
    var setting := SettingOf(sectionText, keyText);
    if setting.None? || !Takes(setting.value, valueText) {
      return ConfigError, c;
    }
    return Ok, Assigned(c, setting.value, valueText);
  }
}
