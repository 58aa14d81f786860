/** The bounded renderer: appends into a fixed buffer while counting the full logical length. */
module RenderBuffer {
  import opened Records
  import opened CStrings
  import opened Render
  import Decimal

  /** The buffer shows as much of the logical text as fits below the terminator. */
  ghost predicate Shows(buffer: seq<char>, capacity: nat, used: nat, out: string) {
    && capacity <= |buffer|
    && used == |out|
    && forall k | 0 <= k < |out| && k + 1 < capacity :: buffer[k] == out[k]
  }

  /** Nothing beyond the capacity changes. */
  ghost predicate Kept(before: seq<char>, after: seq<char>, capacity: nat) {
    |before| == |after| && forall k | capacity <= k < |before| :: after[k] == before[k]
  }

  method AppendChar(buffer: array<char>, capacity: nat, used: nat, value: char, ghost out: string)
    returns (used': nat)
    requires Shows(buffer[..], capacity, used, out)
    modifies buffer
    ensures Shows(buffer[..], capacity, used', out + [value])
    ensures Kept(old(buffer[..]), buffer[..], capacity)
  {
    if capacity > 0 && used + 1 < capacity {
      buffer[used] := value;
    }
    used' := used + 1;
  }

  method AppendString(buffer: array<char>, capacity: nat, used: nat, value: string, ghost out: string)
    returns (used': nat)
    requires Shows(buffer[..], capacity, used, out)
    modifies buffer
    ensures Shows(buffer[..], capacity, used', out + value)
    ensures Kept(old(buffer[..]), buffer[..], capacity)
  {
    var index := 0;
    used' := used;
    assert out + value[..0] == out;
    while index < |value|
      invariant index <= |value|
      invariant Shows(buffer[..], capacity, used', out + value[..index])
      invariant Kept(old(buffer[..]), buffer[..], capacity)
    {
      used' := AppendChar(buffer, capacity, used', value[index], out + value[..index]);
      assert out + value[..index] + [value[index]] == out + value[..index + 1];
      index := index + 1;
    }
    assert value[..|value|] == value;
  }

  /** The switch over one character in the two escapers. */
  method AppendEscapedChar(format: Format, buffer: array<char>, capacity: nat, used: nat, current: char,
                           ghost out: string)
    returns (used': nat)
    requires Shows(buffer[..], capacity, used, out)
    modifies buffer
    ensures Shows(buffer[..], capacity, used', out + Escape(format, current))
    ensures Kept(old(buffer[..]), buffer[..], capacity)
  {
    if current == '\\' {
      used' := AppendString(buffer, capacity, used, "\\\\", out);
    } else if current == '\"' {
      used' := AppendString(buffer, capacity, used, "\\\"", out);
    } else if current == '\n' {
      used' := AppendString(buffer, capacity, used, "\\n", out);
    } else if current == '\r' {
      used' := AppendString(buffer, capacity, used, "\\r", out);
    } else if current == '\t' {
      used' := AppendString(buffer, capacity, used, "\\t", out);
    } else if format.JsonFormat? && current < ' ' {
      used' := AppendString(buffer, capacity, used, JsonEscape(current), out);
    } else if format.TextFormat? && IsControl(current) {
      used' := AppendChar(buffer, capacity, used, '?', out);
    } else {
      used' := AppendChar(buffer, capacity, used, current, out);
    }
  }

  lemma EscapedStep(format: Format, value: string, index: nat, out: string)
    requires index < |value|
    ensures out + Escaped(format, value[..index]) + Escape(format, value[index]) ==
            out + Escaped(format, value[..index + 1])
  {
    EscapedSnoc(format, value[..index], value[index]);
    assert value[..index + 1] == value[..index] + [value[index]];
  }

  /** mp_logger_append_json_escaped and mp_logger_append_text_escaped. */
  method AppendEscaped(format: Format, buffer: array<char>, capacity: nat, used: nat, value: string, ghost out: string)
    returns (used': nat)
    requires Shows(buffer[..], capacity, used, out)
    modifies buffer
    ensures Shows(buffer[..], capacity, used', out + Escaped(format, value))
    ensures Kept(old(buffer[..]), buffer[..], capacity)
  {
    var index := 0;
    used' := used;
    assert out + Escaped(format, value[..0]) == out;
    while index < |value|
      invariant index <= |value|
      invariant Shows(buffer[..], capacity, used', out + Escaped(format, value[..index]))
      invariant Kept(old(buffer[..]), buffer[..], capacity)
    {
      ghost var shown := out + Escaped(format, value[..index]);
      used' := AppendEscapedChar(format, buffer, capacity, used', value[index], shown);
      EscapedStep(format, value, index, out);
      index := index + 1;
    }
    assert value[..|value|] == value;
  }

  /** An escaped string between quotation marks. */
  method AppendQuoted(format: Format, buffer: array<char>, capacity: nat, used: nat, value: string, ghost out: string)
    returns (used': nat)
    requires Shows(buffer[..], capacity, used, out)
    modifies buffer
    ensures Shows(buffer[..], capacity, used', out + Quoted(format, value))
    ensures Kept(old(buffer[..]), buffer[..], capacity)
  {
    used' := AppendChar(buffer, capacity, used, '\"', out);
    used' := AppendEscaped(format, buffer, capacity, used', value, out + "\"");
    used' := AppendChar(buffer, capacity, used', '\"', out + "\"" + Escaped(format, value));
    assert out + "\"" + Escaped(format, value) + "\"" == out + Quoted(format, value);
  }

  /** mp_logger_append_json_field_value and mp_logger_append_text_field_value. */
  method AppendFieldValue(format: Format, buffer: array<char>, capacity: nat, used: nat, value: Value,
                          ghost out: string)
    returns (used': nat)
    requires Shows(buffer[..], capacity, used, out)
    modifies buffer
    ensures Shows(buffer[..], capacity, used', out + ValueText(format, value))
    ensures Kept(old(buffer[..]), buffer[..], capacity)
  {
    match value {
      case Text(text) => used' := AppendQuoted(format, buffer, capacity, used, text, out);
      case Flag(flag) =>
        used' := AppendString(buffer, capacity, used, if flag then "true" else "false", out);
      case Signed(n) => used' := AppendString(buffer, capacity, used, Decimal.PrintSigned(n), out);
      case Unsigned(n) => used' := AppendString(buffer, capacity, used, Decimal.Print(n), out);
      case Float(digits) => used' := AppendString(buffer, capacity, used, digits, out);
    }
  }

  /** A key and the punctuation around it. */
  method AppendKey(marks: Punctuation, buffer: array<char>, capacity: nat, used: nat, key: string, ghost out: string)
    returns (used': nat)
    requires Shows(buffer[..], capacity, used, out)
    modifies buffer
    ensures Shows(buffer[..], capacity, used', out + (marks.quote + key + marks.quote + marks.colon))
    ensures Kept(old(buffer[..]), buffer[..], capacity)
  {
    used' := AppendString(buffer, capacity, used, marks.quote, out);
    used' := AppendString(buffer, capacity, used', key, out + marks.quote);
    used' := AppendString(buffer, capacity, used', marks.quote, out + marks.quote + key);
    used' := AppendString(buffer, capacity, used', marks.colon, out + marks.quote + key + marks.quote);
    assert out + marks.quote + key + marks.quote + marks.colon
        == out + (marks.quote + key + marks.quote + marks.colon);
  }

  /** Separator, key, and a string value: the block the source repeats for each built-in member. */
  method AppendStringMember(marks: Punctuation, format: Format, buffer: array<char>, capacity: nat, used: nat,
                            key: string, value: string, ghost out: string, ghost members: seq<Member>)
    returns (used': nat)
    requires Shows(buffer[..], capacity, used, out + Trail(marks, members))
    modifies buffer
    ensures Shows(buffer[..], capacity, used', out + Trail(marks, members + [Member(key, Quoted(format, value))]))
    ensures Kept(old(buffer[..]), buffer[..], capacity)
  {
    ghost var before := out + Trail(marks, members);
    used' := AppendString(buffer, capacity, used, marks.separator, before);
    used' := AppendKey(marks, buffer, capacity, used', key, before + marks.separator);
    ghost var head := marks.quote + key + marks.quote + marks.colon;
    used' := AppendQuoted(format, buffer, capacity, used', value, before + marks.separator + head);
    MemberAppended(marks, out, members, key, Quoted(format, value));
  }

  lemma MemberAppended(marks: Punctuation, out: string, members: seq<Member>, key: string, value: string)
    ensures out + Trail(marks, members) + marks.separator + (marks.quote + key + marks.quote + marks.colon) + value
         == out + Trail(marks, members + [Member(key, value)])
  {
    TrailSnoc(marks, members, Member(key, value));
    assert MemberText(marks, Member(key, value)) == (marks.quote + key + marks.quote + marks.colon) + value;
  }

  /** Separator, key, and text that needs no escaping. */
  method AppendPlainMember(marks: Punctuation, buffer: array<char>, capacity: nat, used: nat,
                           key: string, value: string, ghost out: string, ghost members: seq<Member>)
    returns (used': nat)
    requires Shows(buffer[..], capacity, used, out + Trail(marks, members))
    modifies buffer
    ensures Shows(buffer[..], capacity, used', out + Trail(marks, members + [Member(key, value)]))
    ensures Kept(old(buffer[..]), buffer[..], capacity)
  {
    ghost var before := out + Trail(marks, members);
    used' := AppendString(buffer, capacity, used, marks.separator, before);
    used' := AppendKey(marks, buffer, capacity, used', key, before + marks.separator);
    ghost var head := marks.quote + key + marks.quote + marks.colon;
    used' := AppendString(buffer, capacity, used', value, before + marks.separator + head);
    MemberAppended(marks, out, members, key, value);
  }

  /** One structured field. */
  method AppendField(settings: Settings, buffer: array<char>, capacity: nat, used: nat, field: Field,
                     ghost out: string, ghost members: seq<Member>)
    returns (used': nat)
    requires Shows(buffer[..], capacity, used, out + Trail(Marks(settings), members))
    modifies buffer
    ensures Shows(buffer[..], capacity, used',
                  out + Trail(Marks(settings), members + [FieldMember(settings.format, field)]))
    ensures Kept(old(buffer[..]), buffer[..], capacity)
  {
    var marks := Marks(settings);
    ghost var before := out + Trail(marks, members);
    used' := AppendString(buffer, capacity, used, marks.separator, before);
    used' := AppendString(buffer, capacity, used', marks.quote, before + marks.separator);
    ghost var text := FieldKey(settings.format, field.key);
    if settings.format.JsonFormat? {
      used' := AppendEscaped(JsonFormat, buffer, capacity, used', field.key, before + marks.separator + marks.quote);
    } else {
      used' := AppendString(buffer, capacity, used', field.key, before + marks.separator + marks.quote);
    }
    used' := AppendString(buffer, capacity, used', marks.quote, before + marks.separator + marks.quote + text);
    used' := AppendString(buffer, capacity, used', marks.colon,
                          before + marks.separator + marks.quote + text + marks.quote);
    ghost var head := before + marks.separator + marks.quote + text + marks.quote + marks.colon;
    used' := AppendFieldValue(settings.format, buffer, capacity, used', field.value, head);
    assert head == before + marks.separator + (marks.quote + text + marks.quote + marks.colon);
    MemberAppended(marks, out, members, text, ValueText(settings.format, field.value));
  }

  lemma TakeOneMore<T>(head: seq<T>, all: seq<T>, index: nat)
    requires index < |all|
    ensures head + all[..index] + [all[index]] == head + all[..index + 1]
  {
  }

  /** The loop over the structured fields. */
  method AppendFields(settings: Settings, buffer: array<char>, capacity: nat, used: nat, fields: seq<Field>,
                      ghost out: string, ghost members: seq<Member>)
    returns (used': nat)
    requires Shows(buffer[..], capacity, used, out + Trail(Marks(settings), members))
    modifies buffer
    ensures Shows(buffer[..], capacity, used',
                  out + Trail(Marks(settings), members + FieldMembers(settings.format, fields)))
    ensures Kept(old(buffer[..]), buffer[..], capacity)
  {
    ghost var all := FieldMembers(settings.format, fields);
    used' := used;
    var index := 0;
    assert members + all[..0] == members;
    while index < |fields|
      invariant index <= |fields|
      invariant Shows(buffer[..], capacity, used', out + Trail(Marks(settings), members + all[..index]))
      invariant Kept(old(buffer[..]), buffer[..], capacity)
    {
      used' := AppendField(settings, buffer, capacity, used', fields[index], out, members + all[..index]);
      TakeOneMore(members, all, index);
      index := index + 1;
    }
    assert all[..|fields|] == all;
  }

  /** mp_logger_finalize_buffer. */
  method Finalize(buffer: array<char>, capacity: nat, used: nat, ghost out: string)
    requires Shows(buffer[..], capacity, used, out) && capacity > 0 && NulFree(out)
    modifies buffer
    ensures TextIn(buffer[..], 0, Cut(out, capacity))
    ensures Kept(old(buffer[..]), buffer[..], capacity)
  {
    var end := if used >= capacity then capacity - 1 else used;
    buffer[end] := '\0';
  }

  /** Service, environment, sequence id and message. */
  method AppendBuiltins(settings: Settings, record: Record, buffer: array<char>, capacity: nat, used: nat,
                        ghost out: string, ghost level: Member)
    returns (used': nat)
    requires Shows(buffer[..], capacity, used, out + Trail(Marks(settings), [level]))
    modifies buffer
    ensures Shows(buffer[..], capacity, used', out + Trail(Marks(settings), [level] + Builtins(settings, record)))
    ensures Kept(old(buffer[..]), buffer[..], capacity)
  {
    var marks := Marks(settings);
    var f := settings.format;
    ghost var m0 := [level];
    used' := AppendStringMember(marks, f, buffer, capacity, used, "service", settings.service, out, m0);
    ghost var m1 := m0 + [Member("service", Quoted(f, settings.service))];
    used' := AppendStringMember(marks, f, buffer, capacity, used', "environment", settings.environment, out, m1);
    ghost var m2 := m1 + [Member("environment", Quoted(f, settings.environment))];
    var sequenceText := "\"" + Decimal.Print(record.sequence) + "\"";
    used' := AppendPlainMember(marks, buffer, capacity, used', "sequence_id", sequenceText, out, m2);
    ghost var m3 := m2 + [Member("sequence_id", sequenceText)];
    used' := AppendStringMember(marks, f, buffer, capacity, used', "message", record.message, out, m3);
    ghost var m4 := m3 + [Member("message", Quoted(f, record.message))];
    assert m4 == [level] + Builtins(settings, record);
  }

  /** The context member, unless it is empty. */
  method AppendContext(settings: Settings, context: string, buffer: array<char>, capacity: nat, used: nat,
                       ghost out: string, ghost members: seq<Member>)
    returns (used': nat)
    requires Shows(buffer[..], capacity, used, out + Trail(Marks(settings), members))
    modifies buffer
    ensures Shows(buffer[..], capacity, used',
                  out + Trail(Marks(settings), members + ContextMembers(settings.format, context)))
    ensures Kept(old(buffer[..]), buffer[..], capacity)
  {
    if context != "" {
      used' := AppendStringMember(Marks(settings), settings.format, buffer, capacity, used, "context", context,
                                  out, members);
    } else {
      used' := used;
      assert members + ContextMembers(settings.format, context) == members;
    }
  }

  /** The members that follow the level, appended in the order of LaterMembers. */
  method AppendLater(settings: Settings, record: Record, buffer: array<char>, capacity: nat, used: nat,
                     ghost out: string, ghost level: Member)
    returns (used': nat)
    requires Shows(buffer[..], capacity, used, out + Trail(Marks(settings), [level]))
    modifies buffer
    ensures Shows(buffer[..], capacity, used', out + Trail(Marks(settings), [level] + LaterMembers(settings, record)))
    ensures Kept(old(buffer[..]), buffer[..], capacity)
  {
    used' := AppendBuiltins(settings, record, buffer, capacity, used, out, level);
    ghost var members := [level] + Builtins(settings, record);
    used' := AppendContext(settings, record.context, buffer, capacity, used', out, members);
    ghost var more := members + ContextMembers(settings.format, record.context);
    used' := AppendFields(settings, buffer, capacity, used', record.fields, out, more);
    LaterInOrder(settings, record, level);
  }

  /** mp_logger_render_record: for every capacity and whatever the buffer held, it leaves the
      longest prefix of the logical line that fits, terminated, and returns its length. Nothing
      beyond the capacity is touched. */
  method RenderRecord(settings: Settings, record: Record, stamp: string, buffer: array<char>, capacity: nat)
    returns (length: nat)
    requires capacity <= buffer.Length
    requires NulFree(Line(settings, record, stamp))
    modifies buffer
    ensures capacity == 0 ==> length == 0 && buffer[..] == old(buffer[..])
    ensures capacity > 0 ==>
              && TextIn(buffer[..], 0, Cut(Line(settings, record, stamp), capacity))
              && length == |Cut(Line(settings, record, stamp), capacity)|
    ensures Kept(old(buffer[..]), buffer[..], capacity)
  {
    if capacity == 0 {
      return 0;
    }
    var used: nat;
    if settings.format.JsonFormat? {
      used := RenderJson(settings, record, stamp, buffer, capacity);
    } else {
      used := RenderText(settings, record, stamp, buffer, capacity);
    }
    Finalize(buffer, capacity, used, Line(settings, record, stamp));
    length := StrLen(buffer, 0, Cut(Line(settings, record, stamp), capacity));
  }

  method RenderJson(settings: Settings, record: Record, stamp: string, buffer: array<char>, capacity: nat)
    returns (used: nat)
    requires capacity <= buffer.Length && settings.format.JsonFormat?
    modifies buffer
    ensures Shows(buffer[..], capacity, used, JsonLine(settings, record, stamp))
    ensures Kept(old(buffer[..]), buffer[..], capacity)
  {
    var marks := Marks(settings);
    used := AppendChar(buffer, capacity, 0, '{', "");
    used := AppendKey(marks, buffer, capacity, used, "ts", "{");
    ghost var head := "{" + (marks.quote + "ts" + marks.quote + marks.colon);
    used := AppendQuoted(JsonFormat, buffer, capacity, used, stamp, head);
    ghost var out := "{" + MemberText(marks, Member("ts", Quoted(JsonFormat, stamp)));
    assert head + Quoted(JsonFormat, stamp) == out + Trail(marks, []);
    used := AppendStringMember(marks, JsonFormat, buffer, capacity, used, "level", LevelName(record.level), out, []);
    ghost var level := Member("level", Quoted(JsonFormat, LevelName(record.level)));
    assert [] + [level] == [level];
    used := AppendLater(settings, record, buffer, capacity, used, out, level);
    ghost var body := out + Trail(marks, [level] + LaterMembers(settings, record));
    used := AppendChar(buffer, capacity, used, '}', body);
    assert body + "}" == JsonLine(settings, record, stamp);
  }

  method RenderText(settings: Settings, record: Record, stamp: string, buffer: array<char>, capacity: nat)
    returns (used: nat)
    requires capacity <= buffer.Length && settings.format.TextFormat?
    modifies buffer
    ensures Shows(buffer[..], capacity, used, TextLine(settings, record, stamp))
    ensures Kept(old(buffer[..]), buffer[..], capacity)
  {
    var marks := Marks(settings);
    used := AppendString(buffer, capacity, 0, stamp, "");
    assert "" + stamp == stamp + Trail(marks, []);
    used := AppendPlainMember(marks, buffer, capacity, used, "level", LevelName(record.level), stamp, []);
    ghost var level := Member("level", LevelName(record.level));
    assert [] + [level] == [level];
    used := AppendLater(settings, record, buffer, capacity, used, stamp, level);
  }
}
