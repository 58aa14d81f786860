/** Printing a configuration as a bootstrap file and loading it back. */
module BootstrapRoundTrip {
  import opened Sequences
  import opened Records
  import opened Scanning
  import opened Trimming
  import opened ConfigText
  import opened Config
  import opened Overrides
  import opened Bootstrap
  import Decimal
  import Render

  // Where a setting stands in a file.

  function SectionOf(s: Setting): string {
    match s
    case TextSetting(text) =>
      (match text
       case ServiceName => ""
       case EnvironmentName => ""
       case BuildVersion => ""
       case UdpHost => "udp"
       case _ => "logger")
    case LevelSetting(sink, _) =>
      (match sink
       case StdoutSink => "stdout"
       case StderrSink => "stderr"
       case FileSink => "file"
       case UdpSink => "udp")
    case UdpPort => "udp"
    case _ => "logger"
  }

  function KeyOf(s: Setting): string {
    match s
    case TextSetting(text) =>
      (match text
       case ServiceName => "service_name"
       case EnvironmentName => "environment_name"
       case BuildVersion => "build_version"
       case LogDirectory => "log_directory"
       case FilePrefix => "file_name_prefix"
       case BackupPrefix => "backup_file_name_prefix"
       case ActiveStreams => "active_streams"
       case UdpHost => "host")
    case SizeSetting(size) =>
      (match size
       case BufferCapacity => "buffer_capacity"
       case MessageCapacity => "message_capacity"
       case ContextCapacity => "context_capacity"
       case FieldCapacity => "field_capacity"
       case FieldKeyCapacity => "field_key_capacity"
       case FieldValueCapacity => "field_value_capacity")
    case LevelSetting(_, bound) => if bound == Minimum then "minimum_level" else "maximum_level"
    case OutputFormat => "format"
    case PrettyOutput => "pretty_output"
    case UdpPort => "port"
  }

  predicate IsWordChar(c: char) {
    'a' <= c <= 'z' || c == '_'
  }

  predicate IsPlainWord(s: string) {
    forall i | 0 <= i < |s| :: IsWordChar(s[i])
  }

  predicate IsKey(s: string) {
    0 < |s| < 24 && IsPlainWord(s)
  }

  lemma RootKeysAreWords()
    ensures IsKey("service_name") && IsKey("environment_name") && IsKey("build_version") && IsKey("host")
  {
  }

  lemma NameKeysAreWords()
    ensures IsKey("log_directory") && IsKey("file_name_prefix")
    ensures IsKey("backup_file_name_prefix") && IsKey("active_streams")
  {
  }

  lemma TextKeysAreWords(text: TextSetting)
    ensures IsKey(KeyOf(TextSetting(text)))
  {
    RootKeysAreWords();
    NameKeysAreWords();
  }

  lemma SizeKeysAreWords(size: SizeSetting)
    ensures IsKey(KeyOf(SizeSetting(size)))
  {
    match size { case BufferCapacity => case MessageCapacity => case ContextCapacity =>
                 case FieldCapacity => case FieldKeyCapacity => case FieldValueCapacity => }
  }

  lemma KeysAreWords(s: Setting)
    ensures IsKey(KeyOf(s))
  {
    match s
    case TextSetting(text) => TextKeysAreWords(text);
    case SizeSetting(size) => SizeKeysAreWords(size);
    case LevelSetting(_, bound) =>
    case OutputFormat =>
    case PrettyOutput =>
    case UdpPort =>
  }

  lemma SectionsAreWords(s: Setting)
    ensures |SectionOf(s)| < 7 && IsPlainWord(SectionOf(s))
  {
  }

  lemma DispatchReachesSetting(s: Setting)
    ensures SettingOf(SectionOf(s), KeyOf(s)) == Some(s)
  {
    match s
    case TextSetting(text) =>
      match text { case ServiceName => case EnvironmentName => case BuildVersion => case LogDirectory =>
                   case FilePrefix => case BackupPrefix => case ActiveStreams => case UdpHost => }
    case SizeSetting(size) =>
      match size { case BufferCapacity => case MessageCapacity => case ContextCapacity =>
                   case FieldCapacity => case FieldKeyCapacity => case FieldValueCapacity => }
    case LevelSetting(_, bound) =>
    case OutputFormat =>
    case PrettyOutput =>
    case UdpPort =>
  }

  lemma SinkDispatchReachesOnly(sink: Sink, key: string)
    requires SinkSetting(sink, key).Some?
    ensures key == KeyOf(SinkSetting(sink, key).value)
    ensures SectionOf(SinkSetting(sink, key).value) == SectionOf(LevelSetting(sink, Minimum))
  {
  }

  lemma LoggerTextReached(key: string)
    requires LoggerSetting(key).Some? && LoggerSetting(key).value.TextSetting?
    ensures key == KeyOf(LoggerSetting(key).value) && SectionOf(LoggerSetting(key).value) == "logger"
  {
  }

  lemma LoggerSizeReached(key: string)
    requires LoggerSetting(key).Some? && LoggerSetting(key).value.SizeSetting?
    ensures key == KeyOf(LoggerSetting(key).value) && SectionOf(LoggerSetting(key).value) == "logger"
  {
    match LoggerSetting(key).value.size { case BufferCapacity => case MessageCapacity => case ContextCapacity =>
                                          case FieldCapacity => case FieldKeyCapacity => case FieldValueCapacity => }
  }

  lemma LoggerDispatchReachesOnly(key: string)
    requires LoggerSetting(key).Some?
    ensures key == KeyOf(LoggerSetting(key).value) && SectionOf(LoggerSetting(key).value) == "logger"
  {
    match LoggerSetting(key).value
    case TextSetting(_) => LoggerTextReached(key);
    case SizeSetting(_) => LoggerSizeReached(key);
    case _ =>
  }

  lemma DispatchReachesOnly(section: string, key: string)
    requires SettingOf(section, key).Some?
    ensures section == SectionOf(SettingOf(section, key).value) && key == KeyOf(SettingOf(section, key).value)
  {
    if section == "" {
    } else if section == "logger" {
      LoggerDispatchReachesOnly(key);
    } else if section == "stdout" {
      SinkDispatchReachesOnly(StdoutSink, key);
    } else if section == "stderr" {
      SinkDispatchReachesOnly(StderrSink, key);
    } else if section == "file" {
      SinkDispatchReachesOnly(FileSink, key);
    } else {
      SinkDispatchReachesOnly(UdpSink, key);
    }
  }

  /** Every setting is reached from exactly one section and key. */
  lemma DispatchIsBijective(s: Setting, section: string, key: string)
    ensures SettingOf(section, key) == Some(s) <==> section == SectionOf(s) && key == KeyOf(s)
  {
    DispatchReachesSetting(s);
    if SettingOf(section, key) == Some(s) {
      DispatchReachesOnly(section, key);
    }
  }

  // Printed values.

  function LevelToken(level: int): string {
    if level == 0 then "trace" else if level == 1 then "debug" else if level == 2 then "info"
    else if level == 3 then "warning" else if level == 4 then "error" else "fatal"
  }

  function ValueOf(c: Config, s: Setting): string {
    match s
    case TextSetting(text) => TextOf(c, text)
    case SizeSetting(size) => Decimal.Print(SizeOf(c.capacities, size))
    case LevelSetting(sink, bound) => LevelToken(LevelOf(c.levels, sink, bound))
    case OutputFormat => if c.format.TextFormat? then "text" else "json"
    case PrettyOutput => if c.pretty then "true" else "false"
    case UdpPort => Decimal.Print(c.udpPort)
  }

  /** Text that a one-line scalar can carry: something, with no space around it and no quotes, on one line. */
  predicate IsScalar(s: string, capacity: nat) {
    && s != "" && |s| < capacity && Trimmed(s) && !IsWrapped(s) && NulFree(s) && !Occurs(s, '\n')
  }

  predicate Printable(c: Config) {
    && (forall text :: IsScalar(TextOf(c, text), TextCapacity(text)))
    && IsVersion(c.buildVersion)
    && (forall size :: SizeOf(c.capacities, size) < TWO_64)
    && (forall sink, bound :: InEnum(LevelOf(c.levels, sink, bound)))
    && c.udpPort <= 0xFFFF
  }

  /** Both configurations have the setting the same. */
  predicate Agree(c: Config, d: Config, s: Setting) {
    match s
    case TextSetting(text) => TextOf(c, text) == TextOf(d, text)
    case SizeSetting(size) => SizeOf(c.capacities, size) == SizeOf(d.capacities, size)
    case LevelSetting(sink, bound) => LevelOf(c.levels, sink, bound) == LevelOf(d.levels, sink, bound)
    case OutputFormat => c.format == d.format
    case PrettyOutput => c.pretty == d.pretty
    case UdpPort => c.udpPort == d.udpPort
  }

  /** The settings are all there is to a configuration. */
  lemma SettingsDetermineConfig(c: Config, d: Config)
    requires forall s :: Agree(c, d, s)
    ensures c == d
  {
    assert Agree(c, d, TextSetting(ServiceName)) && Agree(c, d, TextSetting(EnvironmentName));
    assert Agree(c, d, TextSetting(BuildVersion)) && Agree(c, d, TextSetting(LogDirectory));
    assert Agree(c, d, TextSetting(FilePrefix)) && Agree(c, d, TextSetting(BackupPrefix));
    assert Agree(c, d, TextSetting(ActiveStreams)) && Agree(c, d, TextSetting(UdpHost));
    assert Agree(c, d, OutputFormat) && Agree(c, d, PrettyOutput) && Agree(c, d, UdpPort);
    assert c.capacities == d.capacities by {
      assert Agree(c, d, SizeSetting(BufferCapacity)) && Agree(c, d, SizeSetting(MessageCapacity));
      assert Agree(c, d, SizeSetting(ContextCapacity)) && Agree(c, d, SizeSetting(FieldCapacity));
      assert Agree(c, d, SizeSetting(FieldKeyCapacity)) && Agree(c, d, SizeSetting(FieldValueCapacity));
    }
    assert c.levels == d.levels by {
      assert Agree(c, d, LevelSetting(StdoutSink, Minimum)) && Agree(c, d, LevelSetting(StdoutSink, Maximum));
      assert Agree(c, d, LevelSetting(StderrSink, Minimum)) && Agree(c, d, LevelSetting(StderrSink, Maximum));
      assert Agree(c, d, LevelSetting(FileSink, Minimum)) && Agree(c, d, LevelSetting(FileSink, Maximum));
      assert Agree(c, d, LevelSetting(UdpSink, Minimum)) && Agree(c, d, LevelSetting(UdpSink, Maximum));
    }
  }

  // Values parse back.

  lemma SizeParsesBack(n: nat)
    requires n < TWO_64
    ensures ParseSize(Decimal.Print(n)) == Some(n)
  {
    Decimal.ValueOfPrint(n);
    var s := Decimal.Print(n);
    assert Decimal.IsDigit(s[0]);
    assert TrimLeft(s) == s;
  }

  lemma LevelParsesBack(level: int)
    requires InEnum(level)
    ensures ParseLevel(LevelToken(level)) == Some(level)
  {
    assert "trace"[0] == 't' && "debug"[0] == 'd' && "error"[0] == 'e' && "fatal"[0] == 'f';
  }

  lemma FormatParsesBack(format: Render.Format)
    ensures ParseFormat(if format.TextFormat? then "text" else "json") == Some(format)
  {
    assert "text"[0] == 't' && "json"[0] == 'j';
  }

  lemma BoolParsesBack(flag: bool)
    ensures ParseBool(if flag then "true" else "false") == Some(flag)
  {
  }

  lemma TextIsAssigned(d: Config, text: TextSetting, value: string)
    ensures TextOf(WithText(d, text, value), text) == value
    ensures forall s | s != TextSetting(text) :: Agree(WithText(d, text, value), d, s)
  {
    match text { case ServiceName => case EnvironmentName => case BuildVersion => case LogDirectory =>
                 case FilePrefix => case BackupPrefix => case ActiveStreams => case UdpHost => }
  }

  lemma SizeIsAssigned(d: Config, size: SizeSetting, n: nat)
    ensures var e := d.(capacities := WithSize(d.capacities, size, n));
            && SizeOf(e.capacities, size) == n
            && forall s | s != SizeSetting(size) :: Agree(e, d, s)
  {
    match size { case BufferCapacity => case MessageCapacity => case ContextCapacity =>
                 case FieldCapacity => case FieldKeyCapacity => case FieldValueCapacity => }
  }

  lemma LevelIsAssigned(d: Config, sink: Sink, bound: Bound, level: int)
    ensures var e := d.(levels := WithLevel(d.levels, sink, bound, level));
            && LevelOf(e.levels, sink, bound) == level
            && forall s | s != LevelSetting(sink, bound) :: Agree(e, d, s)
  {
    match (sink, bound) {
      case (StdoutSink, Minimum) => case (StdoutSink, Maximum) =>
      case (StderrSink, Minimum) => case (StderrSink, Maximum) =>
      case (FileSink, Minimum) => case (FileSink, Maximum) =>
      case (UdpSink, Minimum) => case (UdpSink, Maximum) =>
    }
  }

  lemma OthersAreAssigned(d: Config, format: Render.Format, pretty: bool, port: nat)
    ensures forall s | s != OutputFormat :: Agree(d.(format := format), d, s)
    ensures forall s | s != PrettyOutput :: Agree(d.(pretty := pretty), d, s)
    ensures forall s | s != UdpPort :: Agree(d.(udpPort := port), d, s)
  {
  }

  lemma PrintedValueIsTaken(c: Config, s: Setting)
    requires Printable(c)
    ensures Takes(s, ValueOf(c, s))
  {
    match s
    case TextSetting(_) =>
    case SizeSetting(size) => SizeParsesBack(SizeOf(c.capacities, size));
    case LevelSetting(sink, bound) => LevelParsesBack(LevelOf(c.levels, sink, bound));
    case OutputFormat =>
    case PrettyOutput =>
    case UdpPort => SizeParsesBack(c.udpPort);
  }

  /** Assigning a printed value copies that one setting and leaves every other. */
  lemma AssignedCopiesSetting(d: Config, c: Config, s: Setting)
    requires Printable(c) && Takes(s, ValueOf(c, s))
    ensures Agree(Assigned(d, s, ValueOf(c, s)), c, s)
    ensures forall t | t != s :: Agree(Assigned(d, s, ValueOf(c, s)), d, t)
  {
    match s
    case TextSetting(text) =>
      TrimmedIsFixed(TextOf(c, text));
      assert TrimTo(TextOf(c, text), TextCapacity(text)) == TextOf(c, text);
      TextIsAssigned(d, text, TextOf(c, text));
    case SizeSetting(size) =>
      SizeParsesBack(SizeOf(c.capacities, size));
      SizeIsAssigned(d, size, SizeOf(c.capacities, size));
    case LevelSetting(sink, bound) =>
      LevelParsesBack(LevelOf(c.levels, sink, bound));
      LevelIsAssigned(d, sink, bound, LevelOf(c.levels, sink, bound));
    case _ =>
      FormatParsesBack(c.format);
      BoolParsesBack(c.pretty);
      SizeParsesBack(c.udpPort);
      OthersAreAssigned(d, c.format, c.pretty, c.udpPort);
  }

  // Files.

  /** A line of a bootstrap file: a blank line or a comment, a section heading, or a setting. */
  datatype Item = Remark(text: string) | Title(section: string) | Line(indent: string, setting: Setting, quoted: bool)

  function ItemText(c: Config, item: Item): string {
    match item
    case Remark(text) => text
    case Title(section) => section + ":"
    case Line(indent, setting, quoted) =>
      indent + KeyOf(setting) + ": " + (if quoted then "\"" + ValueOf(c, setting) + "\"" else ValueOf(c, setting))
  }

  predicate GoodItem(c: Config, item: Item) {
    && IsShortLine(ItemText(c, item))
    && match item
       case Remark(text) => Trim(text) == "" || Trim(text)[0] == '#'
       case Title(section) => |section| < SECTION_CAPACITY && IsPlainWord(section)
       case Line(indent, _, _) => AllSpace(indent)
  }

  /** Every setting stands in its own section. */
  predicate Placed(section: string, items: seq<Item>)
    decreases |items|
  {
    items == []
    || (&& (items[0].Line? ==> SectionOf(items[0].setting) == section)
        && Placed(if items[0].Title? then items[0].section else section, items[1..]))
  }

  predicate Sets(item: Item, s: Setting) {
    item.Line? && item.setting == s
  }

  predicate AnySets(items: seq<Item>, s: Setting) {
    exists i | 0 <= i < |items| :: Sets(items[i], s)
  }

  predicate GoodFile(c: Config, section: string, items: seq<Item>) {
    Placed(section, items) && forall i | 0 <= i < |items| :: GoodItem(c, items[i])
  }

  function FileLines(c: Config, items: seq<Item>): seq<string> {
    if items == [] then [] else [ItemText(c, items[0])] + FileLines(c, items[1..])
  }

  function FileText(c: Config, items: seq<Item>): string {
    TextOfLines(FileLines(c, items))
  }

  lemma ChunksOfFile(c: Config, items: seq<Item>)
    requires forall i | 0 <= i < |items| :: GoodItem(c, items[i])
    ensures Chunks(FileText(c, items)) == Ended(FileLines(c, items))
  {
    LinesAreShort(c, items);
    ChunksOfLines(FileLines(c, items));
  }

  lemma {:induction false} LinesAreShort(c: Config, items: seq<Item>)
    requires forall i | 0 <= i < |items| :: GoodItem(c, items[i])
    ensures forall i | 0 <= i < |FileLines(c, items)| :: IsShortLine(FileLines(c, items)[i])
  {
    if items != [] {
      LinesAreShort(c, items[1..]);
    }
  }

  lemma FirstLine(c: Config, s: State, items: seq<Item>)
    requires items != []
    ensures Loaded(s, Ended(FileLines(c, items))) ==
            var next := AfterLine(s, Classified(ItemText(c, items[0]) + "\n"));
            if next.None? then None else Loaded(next.value, Ended(FileLines(c, items[1..])))
  {
    assert FileLines(c, items)[1..] == FileLines(c, items[1..]);
    LoadedFirst(s, ItemText(c, items[0]) + "\n", Ended(FileLines(c, items[1..])));
  }

  /** A value fits the loader's value buffer together with its quotes. */
  predicate FitsQuotes(c: Config, item: Item) {
    item.Line? && item.quoted ==> |ValueOf(c, item.setting)| + 2 < VALUE_CAPACITY
  }

  lemma WordIsTrimmed(s: string)
    requires IsPlainWord(s)
    ensures Trimmed(s) && Trim(s) == s
  {
    TrimmedIsFixed(s);
  }

  /** A trimmed line that starts with a word and a colon. */
  lemma ColonLine(chunk: string, key: string, tail: string)
    requires Trim(chunk) == key + (":" + tail) && |Trim(chunk)| < LINE_CAPACITY
    requires IsPlainWord(key) && |key| < SECTION_CAPACITY
    ensures var value := Unquoted(TrimTo(tail, VALUE_CAPACITY));
            Classified(chunk) == if value == "" then Heading(key) else if key == "" then Bad else Pair(key, value)
  {
    var core := Trim(chunk);
    assert TrimTo(chunk, LINE_CAPACITY) == core;
    assert core[|key|] == ':' && (key != "" ==> IsWordChar(key[0]) && core[0] == key[0]);
    assert forall i | 0 <= i < |key| :: core[i] == key[i] != ':';
    FindIs(core, ':', |key|);
    assert core[..|key|] == key && core[|key| + 1..] == tail;
    WordIsTrimmed(key);
    assert TrimTo(key, KEY_CAPACITY) == key == TrimTo(key, SECTION_CAPACITY);
  }

  lemma SettingLine(indent: string, key: string, value: string)
    requires AllSpace(indent) && IsKey(key) && value != "" && Trimmed(value) && |key| + |value| + 2 < LINE_CAPACITY
    requires Unquoted(Cut(value, VALUE_CAPACITY)) != ""
    ensures Classified(indent + key + ": " + value + "\n") == Pair(key, Unquoted(Cut(value, VALUE_CAPACITY)))
  {
    var core := key + (":" + (" " + value));
    assert indent + key + ": " + value + "\n" == indent + core + "\n";
    assert core[0] == key[0] && core[|core| - 1] == value[|value| - 1];
    TrimIsUnique(indent, core, "\n");
    assert " " + value == " " + value + "";
    TrimIsUnique(" ", value, "");
    ColonLine(indent + key + ": " + value + "\n", key, " " + value);
  }

  lemma TitleLine(section: string)
    requires |section| < SECTION_CAPACITY && IsPlainWord(section)
    ensures Classified(section + ":" + "\n") == Heading(section)
  {
    var core := section + (":" + "");
    assert "" + core + "\n" == section + ":" + "\n";
    assert core[|core| - 1] == ':' && (section != "" ==> IsWordChar(section[0]) && core[0] == section[0]);
    TrimIsUnique("", core, "\n");
    WordIsTrimmed("");
    ColonLine(section + ":" + "\n", section, "");
  }

  lemma RemarkLine(text: string)
    requires Trim(text) == "" || Trim(text)[0] == '#'
    ensures Classified(text + "\n") == Skip
  {
    TrimSkips("", text, "\n");
    assert "" + text + "\n" == text + "\n";
  }

  lemma NumberIsScalar(n: nat)
    requires n < TWO_64
    ensures IsScalar(Decimal.Print(n), VALUE_CAPACITY)
  {
    Decimal.SixtyFourBitLength(n);
    var s := Decimal.Print(n);
    assert forall i | 0 <= i < |s| :: Decimal.IsDigit(s[i]);
  }

  lemma ValueIsScalar(c: Config, s: Setting)
    requires Printable(c)
    ensures IsScalar(ValueOf(c, s), VALUE_CAPACITY)
  {
    match s
    case TextSetting(text) => assert IsScalar(TextOf(c, text), TextCapacity(text));
    case SizeSetting(size) => NumberIsScalar(SizeOf(c.capacities, size));
    case LevelSetting(sink, bound) => WordIsScalar(LevelToken(LevelOf(c.levels, sink, bound)));
    case OutputFormat => WordIsScalar(ValueOf(c, s));
    case PrettyOutput => WordIsScalar(ValueOf(c, s));
    case UdpPort => NumberIsScalar(c.udpPort);
  }

  lemma WordIsScalar(s: string)
    requires IsPlainWord(s) && 0 < |s| < VALUE_CAPACITY
    ensures IsScalar(s, VALUE_CAPACITY)
  {
  }

  /** What the loader reads as the value of a printed setting. */
  function ReadBack(c: Config, setting: Setting, quoted: bool): string {
    var v := ValueOf(c, setting);
    Unquoted(Cut(if quoted then "\"" + v + "\"" else v, VALUE_CAPACITY))
  }

  lemma QuotedReads(v: string)
    requires v != "" && |v| + 2 < VALUE_CAPACITY
    ensures Unquoted(Cut("\"" + v + "\"", VALUE_CAPACITY)) == v
  {
    var printed := "\"" + v + "\"";
    assert Cut(printed, VALUE_CAPACITY) == printed;
    assert IsWrapped(printed) && printed[1..|printed| - 1] == v;
  }

  lemma PlainReads(v: string)
    requires IsScalar(v, VALUE_CAPACITY)
    ensures Unquoted(Cut(v, VALUE_CAPACITY)) == v
  {
  }

  /** A printed line reads back as its key and value if the quotes fit. */
  lemma PrintedLine(c: Config, item: Item)
    requires Printable(c) && GoodItem(c, item) && item.Line?
    ensures ReadBack(c, item.setting, item.quoted) != "" ==>
              Classified(ItemText(c, item) + "\n") == Pair(KeyOf(item.setting), ReadBack(c, item.setting, item.quoted))
    ensures FitsQuotes(c, item) ==> ReadBack(c, item.setting, item.quoted) == ValueOf(c, item.setting) != ""
  {
    var v := ValueOf(c, item.setting);
    ValueIsScalar(c, item.setting);
    if item.quoted {
      if FitsQuotes(c, item) {
        QuotedReads(v);
      }
    } else {
      PlainReads(v);
    }
    if ReadBack(c, item.setting, item.quoted) != "" {
      KeysAreWords(item.setting);
      SettingLine(item.indent, KeyOf(item.setting), if item.quoted then "\"" + v + "\"" else v);
    }
  }

  /** The override of a printed setting copies it. */
  lemma PrintedEntry(c: Config, d: Config, s: Setting)
    requires Printable(c)
    ensures Takes(s, ValueOf(c, s))
    ensures Overridden(d, Entry(SectionOf(s), KeyOf(s), ValueOf(c, s))) == Some(Assigned(d, s, ValueOf(c, s)))
  {
    PrintedValueIsTaken(c, s);
    ValueIsScalar(c, s);
    EntryIsNormal(SectionOf(s), KeyOf(s), ValueOf(c, s)) by {
      SectionsAreWords(s);
      KeysAreWords(s);
    }
    DispatchReachesSetting(s);
  }

  lemma EntryIsNormal(section: string, key: string, value: string)
    requires |section| < SECTION_CAPACITY && IsPlainWord(section) && IsKey(key) && IsScalar(value, VALUE_CAPACITY)
    ensures TrimTo(section, SECTION_CAPACITY) == section && TrimTo(key, KEY_CAPACITY) == key
    ensures Unquoted(TrimTo(value, VALUE_CAPACITY)) == value
  {
    WordIsTrimmed(section);
    WordIsTrimmed(key);
    TrimmedIsFixed(value);
  }

  function SectionAfter(section: string, item: Item): string {
    if item.Title? then item.section else section
  }

  lemma Step(c: Config, d: Config, section: string, items: seq<Item>) returns (next: Config)
    requires Printable(c) && items != [] && GoodFile(c, section, items) && FitsQuotes(c, items[0])
    ensures GoodFile(c, SectionAfter(section, items[0]), items[1..])
    ensures Loaded(State(d, section), Ended(FileLines(c, items))) ==
            Loaded(State(next, SectionAfter(section, items[0])), Ended(FileLines(c, items[1..])))
    ensures forall s :: if Sets(items[0], s) then Agree(next, c, s) else Agree(next, d, s)
  {
    var item := items[0];
    next := d;
    FirstLine(c, State(d, section), items);
    match item
    case Remark(text) => RemarkLine(text);
    case Title(name) => TitleLine(name);
    case Line(_, setting, _) =>
      PrintedLine(c, item);
      PrintedEntry(c, d, setting);
      AssignedCopiesSetting(d, c, setting);
      next := Assigned(d, setting, ValueOf(c, setting));
  }

  /** Loading copies the settings that the file has, and keeps the others. */
  lemma {:induction false} LoadItems(c: Config, d: Config, section: string, items: seq<Item>) returns (e: Config)
    requires Printable(c) && GoodFile(c, section, items)
    requires forall i | 0 <= i < |items| :: FitsQuotes(c, items[i])
    ensures Loaded(State(d, section), Ended(FileLines(c, items))) == Some(e)
    ensures forall s :: if AnySets(items, s) then Agree(e, c, s) else Agree(e, d, s)
    decreases |items|
  {
    e := d;
    if items != [] {
      var next := Step(c, d, section, items);
      e := LoadItems(c, next, SectionAfter(section, items[0]), items[1..]);
      forall s
        ensures if AnySets(items, s) then Agree(e, c, s) else Agree(e, d, s)
      {
        AnySetsFirst(items, s);
        assert if Sets(items[0], s) then Agree(next, c, s) else Agree(next, d, s);
        assert if AnySets(items[1..], s) then Agree(e, c, s) else Agree(e, next, s);
      }
    }
  }

  lemma AnySetsFirst(items: seq<Item>, s: Setting)
    requires items != []
    ensures AnySets(items, s) <==> Sets(items[0], s) || AnySets(items[1..], s)
  {
    if AnySets(items[1..], s) {
      var i :| 0 <= i < |items[1..]| && Sets(items[1..][i], s);
      assert Sets(items[i + 1], s);
    }
    if AnySets(items, s) && !Sets(items[0], s) {
      var i :| 0 <= i < |items| && Sets(items[i], s);
      assert Sets(items[1..][i - 1], s);
    }
  }

  /** A file with a line for every setting, printed from a configuration, loads as that configuration:
      in any order, with any comments and blank lines in between. */
  lemma PrintedFileLoads(c: Config, items: seq<Item>)
    requires Printable(c) && GoodFile(c, "", items)
    requires forall i | 0 <= i < |items| :: FitsQuotes(c, items[i])
    requires forall s :: AnySets(items, s)
    ensures LoadedFile(FileText(c, items)) == Some(c)
  {
    ChunksOfFile(c, items);
    var e := LoadItems(c, Defaults(), "", items);
    assert forall s :: AnySets(items, s) ==> Agree(e, c, s);
    SettingsDetermineConfig(e, c);
  }

  // Where the round trip fails: a log directory so long that its quotes do not fit the value buffer.

  lemma OnlyDirectoriesAreLong(c: Config, item: Item)
    requires Printable(c) && item.Line? && !FitsQuotes(c, item)
    ensures item.setting == TextSetting(LogDirectory) && item.quoted
    ensures 254 <= |c.logDirectory| <= 255
  {
    match item.setting
    case TextSetting(text) => assert IsScalar(TextOf(c, text), TextCapacity(text));
    case SizeSetting(size) => Decimal.SixtyFourBitLength(SizeOf(c.capacities, size));
    case UdpPort => Decimal.SixtyFourBitLength(c.udpPort);
    case _ =>
  }

  /** What is left of an over-long directory is another directory. */
  lemma CutDirectoryDiffers(v: string)
    requires IsScalar(v, PATH_CAPACITY) && 254 <= |v|
    ensures var r := Unquoted(Cut("\"" + v + "\"", VALUE_CAPACITY));
            r != "" && TrimTo(Unquoted(TrimTo(r, VALUE_CAPACITY)), PATH_CAPACITY) != v
  {
    var w := Cut("\"" + v + "\"", VALUE_CAPACITY);
    assert |w| == 255 && w[0] == '\"' && forall i | 1 <= i < 255 :: w[i] == v[i - 1];
    var r := Unquoted(w);
    var t := TrimTo(r, VALUE_CAPACITY);
    var y := TrimTo(Unquoted(t), PATH_CAPACITY);
    TrimShortens(r);
    TrimShortens(Unquoted(t));
    if y == v {
      assert r == w && t == Trim(w) && Unquoted(t) == t;
      TrimIsIdempotent(w);
      assert TrimLeft(w) == w;
      TrimRightSplits(w);
      assert v <= w;
      AllQuotes(v, w, |v|);
      assert false;
    }
  }

  lemma TrimShortens(s: string)
    ensures |Trim(s)| <= |s|
  {
    TrimLeftSplits(s);
    TrimRightSplits(TrimLeft(s));
  }

  lemma {:induction false} AllQuotes(v: string, w: string, n: nat)
    requires v <= w && n <= |v| && w != "" && w[0] == '\"'
    requires forall i | 1 <= i < |w| && i <= |v| :: w[i] == v[i - 1]
    ensures forall i | 0 <= i < n :: v[i] == '\"'
  {
    if n > 0 {
      AllQuotes(v, w, n - 1);
      assert v[n - 1] == w[n - 1];
    }
  }

  lemma DirectoryEntry(d: Config, value: string)
    ensures var setting := TextSetting(LogDirectory);
            Overridden(d, Entry(SectionOf(setting), KeyOf(setting), value)) ==
            Some(WithText(d, LogDirectory, TrimTo(Unquoted(TrimTo(value, VALUE_CAPACITY)), PATH_CAPACITY)))
  {
    var setting := TextSetting(LogDirectory);
    SectionsAreWords(setting);
    KeysAreWords(setting);
    WordIsTrimmed(SectionOf(setting));
    WordIsTrimmed(KeyOf(setting));
    DispatchReachesSetting(setting);
  }

  lemma LongLine(c: Config, d: Config, item: Item)
    requires Printable(c) && GoodItem(c, item) && item.Line? && !FitsQuotes(c, item)
    ensures var section := SectionOf(item.setting);
            var next := AfterLine(State(d, section), Classified(ItemText(c, item) + "\n"));
            next.Some? && next.value.section == section && next.value.config.logDirectory != c.logDirectory
  {
    OnlyDirectoriesAreLong(c, item);
    assert IsScalar(TextOf(c, LogDirectory), TextCapacity(LogDirectory));
    CutDirectoryDiffers(c.logDirectory);
    PrintedLine(c, item);
    DirectoryEntry(d, ReadBack(c, item.setting, true));
  }

  /** An over-long directory is never put right by later lines. */
  lemma {:induction false} LongLineSpoils(c: Config, d: Config, section: string, items: seq<Item>)
    requires Printable(c) && GoodFile(c, section, items)
    requires forall i | 0 <= i < |items| && Sets(items[i], TextSetting(LogDirectory)) :: !FitsQuotes(c, items[i])
    requires d.logDirectory != c.logDirectory || AnySets(items, TextSetting(LogDirectory))
    ensures Loaded(State(d, section), Ended(FileLines(c, items))) != Some(c)
    decreases |items|
  {
    if items != [] {
      var next: Config;
      if FitsQuotes(c, items[0]) {
        next := Step(c, d, section, items);
        assert Agree(next, d, TextSetting(LogDirectory));
      } else {
        next := LongStep(c, d, section, items);
      }
      AnySetsFirst(items, TextSetting(LogDirectory));
      LongLineSpoils(c, next, SectionAfter(section, items[0]), items[1..]);
    }
  }

  lemma LongStep(c: Config, d: Config, section: string, items: seq<Item>) returns (next: Config)
    requires Printable(c) && items != [] && GoodFile(c, section, items) && !FitsQuotes(c, items[0])
    ensures GoodFile(c, SectionAfter(section, items[0]), items[1..])
    ensures Loaded(State(d, section), Ended(FileLines(c, items))) ==
            Loaded(State(next, SectionAfter(section, items[0])), Ended(FileLines(c, items[1..])))
    ensures next.logDirectory != c.logDirectory
  {
    assert GoodItem(c, items[0]);
    LongLine(c, d, items[0]);
    FirstLine(c, State(d, section), items);
    next := AfterLine(State(d, section), Classified(ItemText(c, items[0]) + "\n")).value.config;
  }

  /** The exact condition: a quoted log directory of 254 or 255 characters does not come back,
      everything else does. */
  lemma PrintedFileLoadsIff(c: Config, items: seq<Item>, quoted: bool)
    requires Printable(c) && GoodFile(c, "", items)
    requires forall s :: AnySets(items, s)
    requires forall i | 0 <= i < |items| && Sets(items[i], TextSetting(LogDirectory)) :: items[i].quoted == quoted
    ensures LoadedFile(FileText(c, items)) == Some(c) <==> |c.logDirectory| <= 253 || !quoted
  {
    if |c.logDirectory| <= 253 || !quoted {
      forall i | 0 <= i < |items|
        ensures FitsQuotes(c, items[i])
      {
        if !FitsQuotes(c, items[i]) {
          OnlyDirectoriesAreLong(c, items[i]);
        }
      }
      PrintedFileLoads(c, items);
    } else {
      ChunksOfFile(c, items);
      LongLineSpoils(c, Defaults(), "", items);
    }
  }

  // The shape of the shipped file.

  /** The settings in the order of the shipped file. */
  function ShippedOrder(): seq<Setting> {
    [TextSetting(ServiceName), TextSetting(EnvironmentName), TextSetting(BuildVersion),
     SizeSetting(BufferCapacity), SizeSetting(MessageCapacity), SizeSetting(ContextCapacity),
     SizeSetting(FieldCapacity), SizeSetting(FieldKeyCapacity), SizeSetting(FieldValueCapacity),
     OutputFormat, PrettyOutput, TextSetting(LogDirectory),
     TextSetting(FilePrefix), TextSetting(BackupPrefix), TextSetting(ActiveStreams),
     LevelSetting(StdoutSink, Minimum), LevelSetting(StdoutSink, Maximum),
     LevelSetting(StderrSink, Minimum), LevelSetting(StderrSink, Maximum),
     LevelSetting(FileSink, Minimum), LevelSetting(FileSink, Maximum),
     LevelSetting(UdpSink, Minimum), LevelSetting(UdpSink, Maximum),
     TextSetting(UdpHost), UdpPort]
  }

  function ShippedLine(s: Setting): Item {
    var quoted := s.TextSetting? && s.text in [BuildVersion, LogDirectory, ActiveStreams, UdpHost];
    Line(if SectionOf(s) == "" then "" else "  ", s, quoted)
  }

  /** The lines for some settings, with a heading wherever the section changes. */
  function Listing(section: string, settings: seq<Setting>): seq<Item>
    decreases |settings|
  {
    if settings == [] then []
    else
      var s := settings[0];
      (if SectionOf(s) == section then [] else [Title(SectionOf(s))])
      + [ShippedLine(s)] + Listing(SectionOf(s), settings[1..])
  }

  function Shipped(c: Config): string {
    FileText(c, Listing("", ShippedOrder()))
  }

  lemma ShippedOrderIsComplete(s: Setting)
    ensures s in ShippedOrder()
  {
    var order := ShippedOrder();
    match s
    case TextSetting(text) =>
      match text {
       case ServiceName => assert s == order[0];
       case EnvironmentName => assert s == order[1];
       case BuildVersion => assert s == order[2];
       case LogDirectory => assert s == order[11];
       case FilePrefix => assert s == order[12];
       case BackupPrefix => assert s == order[13];
       case ActiveStreams => assert s == order[14];
       case UdpHost => assert s == order[23];
      }
    case SizeSetting(size) =>
      match size {
       case BufferCapacity => assert s == order[3];
       case MessageCapacity => assert s == order[4];
       case ContextCapacity => assert s == order[5];
       case FieldCapacity => assert s == order[6];
       case FieldKeyCapacity => assert s == order[7];
       case FieldValueCapacity => assert s == order[8];
      }
    case LevelSetting(sink, bound) =>
      match (sink, bound) {
        case (StdoutSink, Minimum) => assert s == order[15];
        case (StdoutSink, Maximum) => assert s == order[16];
        case (StderrSink, Minimum) => assert s == order[17];
        case (StderrSink, Maximum) => assert s == order[18];
        case (FileSink, Minimum) => assert s == order[19];
        case (FileSink, Maximum) => assert s == order[20];
        case (UdpSink, Minimum) => assert s == order[21];
        case (UdpSink, Maximum) => assert s == order[22];
      }
    case OutputFormat => assert s == order[9];
    case PrettyOutput => assert s == order[10];
    case UdpPort => assert s == order[24];
  }

  lemma ShippedOrderIsAll()
    ensures forall s: Setting :: s in ShippedOrder()
  {
    forall s: Setting
      ensures s in ShippedOrder()
    {
      ShippedOrderIsComplete(s);
    }
  }

  predicate IsClean(s: string) {
    NulFree(s) && !Occurs(s, '\n')
  }

  lemma CleanAppend(a: string, b: string)
    requires IsClean(a) && IsClean(b)
    ensures IsClean(a + b)
  {
  }

  lemma CleanWord(s: string)
    requires IsPlainWord(s)
    ensures IsClean(s)
  {
  }

  lemma CleanLine(indent: string, key: string, value: string, quoted: bool)
    requires IsClean(indent) && |indent| <= 2 && IsKey(key) && IsScalar(value, VALUE_CAPACITY)
    ensures IsShortLine(indent + key + ": " + (if quoted then "\"" + value + "\"" else value))
  {
    CleanWord(key);
    CleanAppend(indent, key);
    CleanAppend(indent + key, ": ");
    CleanAppend("\"", value);
    CleanAppend("\"" + value, "\"");
    CleanAppend(indent + key + ": ", if quoted then "\"" + value + "\"" else value);
  }

  lemma ShippedLineIsGood(c: Config, s: Setting)
    requires Printable(c)
    ensures GoodItem(c, ShippedLine(s)) && GoodItem(c, Title(SectionOf(s)))
  {
    ValueIsScalar(c, s);
    KeysAreWords(s);
    SectionsAreWords(s);
    CleanLine(ShippedLine(s).indent, KeyOf(s), ValueOf(c, s), ShippedLine(s).quoted);
    CleanWord(SectionOf(s));
    CleanAppend(SectionOf(s), ":");
  }

  lemma GoodFileGrows(c: Config, section: string, item: Item, rest: seq<Item>)
    requires GoodItem(c, item) && (item.Line? ==> SectionOf(item.setting) == section)
    requires GoodFile(c, SectionAfter(section, item), rest)
    ensures GoodFile(c, section, [item] + rest)
  {
    assert ([item] + rest)[1..] == rest;
  }

  lemma {:induction false} ListingIsGood(c: Config, section: string, settings: seq<Setting>)
    requires Printable(c)
    ensures GoodFile(c, section, Listing(section, settings))
    decreases |settings|
  {
    if settings != [] {
      var s := settings[0];
      var rest := Listing(SectionOf(s), settings[1..]);
      ShippedLineIsGood(c, s);
      ListingIsGood(c, SectionOf(s), settings[1..]);
      GoodFileGrows(c, SectionOf(s), ShippedLine(s), rest);
      GoodFileGrows(c, section, Title(SectionOf(s)), [ShippedLine(s)] + rest);
      Associate(if SectionOf(s) == section then [] else [Title(SectionOf(s))], [ShippedLine(s)], rest);
      assert SectionOf(s) == section ==> [] + ([ShippedLine(s)] + rest) == [ShippedLine(s)] + rest;
    }
  }

  lemma {:induction false} ListingSets(section: string, settings: seq<Setting>, s: Setting)
    ensures AnySets(Listing(section, settings), s) <==> s in settings
    decreases |settings|
  {
    if settings != [] {
      var first := settings[0];
      var rest := Listing(SectionOf(first), settings[1..]);
      var lines := [ShippedLine(first)] + rest;
      ListingSets(SectionOf(first), settings[1..], s);
      AnySetsFirst(lines, s);
      assert lines[1..] == rest;
      if SectionOf(first) != section {
        AnySetsFirst([Title(SectionOf(first))] + lines, s);
        assert ([Title(SectionOf(first))] + lines)[1..] == lines;
        assert Listing(section, settings) == [Title(SectionOf(first))] + lines;
      } else {
        assert Listing(section, settings) == lines;
      }
    }
  }

  /** Printing a configuration in the shape of the shipped file, with the settings in any order, and
      loading the file gives the configuration back, except for an over-long log directory. */
  lemma PrintedConfigLoadsIff(c: Config, settings: seq<Setting>)
    requires Printable(c) && forall s :: s in settings
    ensures LoadedFile(FileText(c, Listing("", settings))) == Some(c) <==> |c.logDirectory| <= 253
  {
    var items := Listing("", settings);
    ListingIsGood(c, "", settings);
    forall s
      ensures AnySets(items, s)
    {
      assert s in settings;
      ListingSets("", settings, s);
    }
    ListingQuotes("", settings);
    PrintedFileLoadsIff(c, items, true);
  }

  lemma {:induction false} ListingQuotes(section: string, settings: seq<Setting>)
    ensures forall i | 0 <= i < |Listing(section, settings)| && Listing(section, settings)[i].Line? ::
              Listing(section, settings)[i] == ShippedLine(Listing(section, settings)[i].setting)
    decreases |settings|
  {
    if settings != [] {
      ListingQuotes(SectionOf(settings[0]), settings[1..]);
    }
  }

  /** No whitespace, no quotes, nothing below. */
  predicate IsSolidText(s: string) {
    s != "" && forall i | 0 <= i < |s| :: ' ' < s[i] && s[i] != '\"' && s[i] != '\''
  }

  lemma SolidTextIsScalar(s: string, capacity: nat)
    requires IsSolidText(s) && |s| < capacity
    ensures IsScalar(s, capacity)
  {
  }

  lemma DefaultNamesAreSolid()
    ensures IsSolidText("mp-service") && IsSolidText("development") && IsSolidText("mp-logger-internal")
  {
  }

  lemma OtherDefaultsAreSolid()
    ensures IsSolidText("0.0.0") && IsSolidText(".") && IsSolidText("stdout,stderr,file") && IsSolidText("127.0.0.1")
  {
  }

  lemma DefaultTextIsScalar(text: TextSetting)
    ensures IsScalar(TextOf(Defaults(), text), TextCapacity(text))
  {
    DefaultNamesAreSolid();
    OtherDefaultsAreSolid();
    SolidTextIsScalar(TextOf(Defaults(), text), TextCapacity(text));
  }

  lemma DefaultsArePrintable()
    ensures Printable(Defaults())
  {
    var c := Defaults();
    forall text
      ensures IsScalar(TextOf(c, text), TextCapacity(text))
    {
      DefaultTextIsScalar(text);
    }
    DefaultVersionIsVersion();
    DefaultNumbersAreSmall(c.capacities, c.levels);
  }

  lemma DefaultNumbersAreSmall(capacities: Capacities, levels: Levels)
    requires capacities == Capacities(1024, 512, 1024, 8, 32, 128) && levels == Levels(0, 2, 3, 5, 0, 5, 4, 5)
    ensures forall size :: SizeOf(capacities, size) < TWO_64
    ensures forall sink, bound :: InEnum(LevelOf(levels, sink, bound))
  {
  }

  lemma DefaultVersionIsVersion()
    ensures IsVersion("0.0.0")
  {
    var parts := ["0", "0", "0"];
    SplitOfJoin(parts, '.');
    assert parts[1..] == ["0", "0"] && parts[1..][1..] == ["0"];
    assert Join(parts, '.') == "0.0.0";
  }

  /** The shipped file holds the built-in defaults. */
  lemma ShippedFileIsDefaults()
    ensures LoadedFile(Shipped(Defaults())) == Some(Defaults())
  {
    DefaultsArePrintable();
    ShippedOrderIsAll();
    PrintedConfigLoadsIff(Defaults(), ShippedOrder());
  }

  function LongDirectory(): Config {
    Defaults().(logDirectory := seq(254, i => 'a'))
  }

  /** A valid configuration whose printed file loads as another one. */
  lemma LongDirectoryIsLost()
    ensures Printable(LongDirectory()) && LoadedFile(Shipped(LongDirectory())) != Some(LongDirectory())
  {
    DefaultsArePrintable();
    SolidTextIsScalar(LongDirectory().logDirectory, PATH_CAPACITY);
    OtherDirectoryIsPrintable(Defaults(), LongDirectory().logDirectory);
    ShippedOrderIsAll();
    PrintedConfigLoadsIff(LongDirectory(), ShippedOrder());
  }

  lemma OtherDirectoryIsPrintable(c: Config, directory: string)
    requires Printable(c) && IsScalar(directory, PATH_CAPACITY)
    ensures Printable(c.(logDirectory := directory))
  {
    var d := c.(logDirectory := directory);
    assert d == WithText(c, LogDirectory, directory);
    forall text
      ensures IsScalar(TextOf(d, text), TextCapacity(text))
    {
      assert text != LogDirectory ==> TextOf(d, text) == TextOf(c, text);
    }
  }
}
