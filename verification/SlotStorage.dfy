/** Queue storage: records kept in flat arrays, written by producers and read back by the worker. */
module SlotStorage {
  import opened Records
  import opened CStrings
  import opened Layout
  import opened Ring
  import opened Validation

  /** mp_log_field_t as stored: strings are pointers into the flat arrays. */
  datatype CellValue =
    | StringCell(offset: nat)
    | FlagCell(flag: bool)
    | SignedCell(signed: int64)
    | UnsignedCell(unsigned: uint64)
    | FloatCell(digits: string)

  datatype Cell = Cell(key: nat, value: CellValue)

  datatype Header = Header(
    sequence: nat, millis: int64, level: int, messageLength: nat, contextLength: nat, fieldCount: nat)

  // What it means that a slot holds a record.

  ghost predicate CellHolds(caps: Capacities, slot: nat, k: nat, cells: seq<Cell>, keys: seq<char>,
                            strings: seq<char>, field: Field)
  {
    && CellAt(caps, slot, k) < |cells|
    && var cell := cells[CellAt(caps, slot, k)];
    && cell.key == KeyAt(caps, slot, k)
    && |field.key| < caps.key && TextIn(keys, KeyAt(caps, slot, k), field.key)
    && match field.value
       case Text(text) =>
         && cell.value == StringCell(TextAt(caps, slot, k))
         && |text| < caps.value && TextIn(strings, TextAt(caps, slot, k), text)
       case Flag(flag) => cell.value == FlagCell(flag)
       case Signed(n) => cell.value == SignedCell(n)
       case Unsigned(n) => cell.value == UnsignedCell(n)
       case Float(digits) => cell.value == FloatCell(digits)
  }

  ghost predicate FieldsHold(caps: Capacities, slot: nat, cells: seq<Cell>, keys: seq<char>, strings: seq<char>,
                             fields: seq<Field>)
  {
    && |fields| <= caps.fields
    && forall k | 0 <= k < |fields| :: CellHolds(caps, slot, k, cells, keys, strings, fields[k])
  }

  ghost predicate HeaderHolds(header: Header, record: Record) {
    && header.sequence == record.sequence && header.millis == record.millis && header.level == record.level
    && header.messageLength == |record.message| && header.contextLength == |record.context|
    && header.fieldCount == |record.fields|
  }

  ghost predicate TextsHold(caps: Capacities, slot: nat, message: seq<char>, context: seq<char>, record: Record) {
    && |record.message| < caps.message && TextIn(message, MessageAt(caps, slot), record.message)
    && |record.context| < caps.context && TextIn(context, ContextAt(caps, slot), record.context)
  }

  // Frame lemmas: only a slot's own regions matter.

  ghost predicate AgreeOn<T>(a: seq<T>, b: seq<T>, from: nat, size: nat) {
    |a| == |b| && from + size <= |a| && forall x | from <= x < from + size :: a[x] == b[x]
  }

  lemma CellFrame(caps: Capacities, slot: nat, k: nat, cells: seq<Cell>, keys: seq<char>, strings: seq<char>,
                  cells': seq<Cell>, keys': seq<char>, strings': seq<char>, field: Field)
    requires CellHolds(caps, slot, k, cells, keys, strings, field)
    requires AgreeOn(cells, cells', CellAt(caps, slot, k), 1)
    requires AgreeOn(keys, keys', KeyAt(caps, slot, k), caps.key)
    requires AgreeOn(strings, strings', TextAt(caps, slot, k), caps.value)
    ensures CellHolds(caps, slot, k, cells', keys', strings', field)
  {
    assert cells[CellAt(caps, slot, k)] == cells'[CellAt(caps, slot, k)];
  }

  /** The two agree everywhere but in the region [from, from + size). */
  ghost predicate SameOutside<T>(a: seq<T>, b: seq<T>, from: nat, size: nat) {
    |a| == |b| && forall x | 0 <= x < |a| && !(from <= x < from + size) :: a[x] == b[x]
  }

  /** Nothing outside the regions of one field has changed. */
  ghost predicate OnlyCellChanged(caps: Capacities, slot: nat, k: nat, cells: seq<Cell>, keys: seq<char>,
                                  strings: seq<char>, cells': seq<Cell>, keys': seq<char>, strings': seq<char>)
  {
    && SameOutside(cells, cells', CellAt(caps, slot, k), 1)
    && SameOutside(keys, keys', KeyAt(caps, slot, k), caps.key)
    && SameOutside(strings, strings', TextAt(caps, slot, k), caps.value)
  }

  /** Nothing outside the field regions of one slot has changed. */
  ghost predicate OnlySlotFieldsChanged(caps: Capacities, slot: nat, cells: seq<Cell>, keys: seq<char>,
                                        strings: seq<char>, cells': seq<Cell>, keys': seq<char>, strings': seq<char>)
  {
    && SameOutside(cells, cells', SlotCellsAt(caps, slot), caps.fields)
    && SameOutside(keys, keys', SlotKeysAt(caps, slot), caps.fields * caps.key)
    && SameOutside(strings, strings', SlotTextsAt(caps, slot), caps.fields * caps.value)
  }

  lemma OtherCellsSurvive(caps: Capacities, n: nat, slot: nat, k: nat, slot': nat, k': nat,
                          cells: seq<Cell>, keys: seq<char>, strings: seq<char>,
                          cells': seq<Cell>, keys': seq<char>, strings': seq<char>, field: Field)
    requires slot < n && slot' < n && k < caps.fields && k' < caps.fields && (slot, k) != (slot', k')
    requires |cells| == n * caps.fields && |keys| == n * caps.fields * caps.key
    requires |strings| == n * caps.fields * caps.value
    requires OnlyCellChanged(caps, slot, k, cells, keys, strings, cells', keys', strings')
    requires CellHolds(caps, slot', k', cells, keys, strings, field)
    ensures CellHolds(caps, slot', k', cells', keys', strings', field)
  {
    CarvingIsPartition(caps, n, slot, k, slot', k');
    CarvingIsPartition(caps, n, slot', k', slot, k);
    CellFrame(caps, slot', k', cells, keys, strings, cells', keys', strings', field);
  }

  lemma OneMoreField(caps: Capacities, n: nat, slot: nat, fields: seq<Field>, index: nat,
                     cells: seq<Cell>, keys: seq<char>, strings: seq<char>,
                     cells': seq<Cell>, keys': seq<char>, strings': seq<char>)
    requires slot < n && index < |fields| <= caps.fields
    requires |cells| == n * caps.fields && |keys| == n * caps.fields * caps.key
    requires |strings| == n * caps.fields * caps.value
    requires OnlyCellChanged(caps, slot, index, cells, keys, strings, cells', keys', strings')
    requires FieldsHold(caps, slot, cells, keys, strings, fields[..index])
    requires CellHolds(caps, slot, index, cells', keys', strings', fields[index])
    ensures FieldsHold(caps, slot, cells', keys', strings', fields[..index + 1])
  {
    forall k | 0 <= k < index
      ensures CellHolds(caps, slot, k, cells', keys', strings', fields[k])
    {
      assert fields[..index][k] == fields[k];
      OtherCellsSurvive(caps, n, slot, index, slot, k, cells, keys, strings, cells', keys', strings', fields[k]);
    }
  }

  lemma FieldChangesSlot<T>(a: seq<T>, b: seq<T>, c: seq<T>, from: nat, size: nat, inner: nat, part: nat)
    requires SameOutside(a, b, from, size) && SameOutside(b, c, inner, part)
    requires from <= inner && inner + part <= from + size
    ensures SameOutside(a, c, from, size)
  {
  }

  lemma FieldStaysInSlot(caps: Capacities, slot: nat, k: nat,
                         cells0: seq<Cell>, keys0: seq<char>, strings0: seq<char>,
                         cells: seq<Cell>, keys: seq<char>, strings: seq<char>,
                         cells': seq<Cell>, keys': seq<char>, strings': seq<char>)
    requires k < caps.fields
    requires OnlySlotFieldsChanged(caps, slot, cells0, keys0, strings0, cells, keys, strings)
    requires OnlyCellChanged(caps, slot, k, cells, keys, strings, cells', keys', strings')
    ensures OnlySlotFieldsChanged(caps, slot, cells0, keys0, strings0, cells', keys', strings')
  {
    FieldLiesInSlot(caps, slot, k);
    FieldChangesSlot(cells0, cells, cells', SlotCellsAt(caps, slot), caps.fields, CellAt(caps, slot, k), 1);
    FieldChangesSlot(keys0, keys, keys', SlotKeysAt(caps, slot), caps.fields * caps.key,
                     KeyAt(caps, slot, k), caps.key);
    FieldChangesSlot(strings0, strings, strings', SlotTextsAt(caps, slot), caps.fields * caps.value,
                     TextAt(caps, slot, k), caps.value);
  }

  lemma RegionSurvives<T>(a: seq<T>, b: seq<T>, from: nat, from': nat, size: nat, inner: nat, part: nat)
    requires SameOutside(a, b, from, size) && Apart(from, from', size)
    requires from' <= inner && inner + part <= from' + size && inner + part <= |a|
    ensures AgreeOn(a, b, inner, part)
  {
  }

  lemma OtherSlotSurvives(caps: Capacities, n: nat, slot: nat, other: nat, k: nat,
                          cells: seq<Cell>, keys: seq<char>, strings: seq<char>,
                          cells': seq<Cell>, keys': seq<char>, strings': seq<char>, field: Field)
    requires slot < n && other < n && slot != other && k < caps.fields
    requires |cells| == n * caps.fields && |keys| == n * caps.fields * caps.key
    requires |strings| == n * caps.fields * caps.value
    requires OnlySlotFieldsChanged(caps, slot, cells, keys, strings, cells', keys', strings')
    requires CellHolds(caps, other, k, cells, keys, strings, field)
    ensures CellHolds(caps, other, k, cells', keys', strings', field)
  {
    CarvingIsPartition(caps, n, other, k, other, k);
    FieldLiesInSlot(caps, other, k);
    SlotsAreApart(caps, n, slot, other);
    RegionSurvives(cells, cells', SlotCellsAt(caps, slot), SlotCellsAt(caps, other), caps.fields,
                   CellAt(caps, other, k), 1);
    RegionSurvives(keys, keys', SlotKeysAt(caps, slot), SlotKeysAt(caps, other), caps.fields * caps.key,
                   KeyAt(caps, other, k), caps.key);
    RegionSurvives(strings, strings', SlotTextsAt(caps, slot), SlotTextsAt(caps, other), caps.fields * caps.value,
                   TextAt(caps, other, k), caps.value);
    CellFrame(caps, other, k, cells, keys, strings, cells', keys', strings', field);
  }

  /** Everything a bank stores, as one value. */
  datatype Image = Image(
    headers: seq<Header>, message: seq<char>, context: seq<char>,
    cells: seq<Cell>, keys: seq<char>, strings: seq<char>)

  ghost predicate SlotHolds(caps: Capacities, slot: nat, image: Image, record: Record) {
    && slot < |image.headers|
    && HeaderHolds(image.headers[slot], record)
    && TextsHold(caps, slot, image.message, image.context, record)
    && FieldsHold(caps, slot, image.cells, image.keys, image.strings, record.fields)
  }

  /** The arrays have the sizes for `n` slots. */
  predicate Sized(caps: Capacities, n: nat, image: Image) {
    && |image.headers| == n && |image.message| == n * caps.message && |image.context| == n * caps.context
    && |image.cells| == n * caps.fields && |image.keys| == n * caps.fields * caps.key
    && |image.strings| == n * caps.fields * caps.value
  }

  /** Nothing outside the regions of one slot has changed. */
  ghost predicate OnlySlotChanged(caps: Capacities, slot: nat, a: Image, b: Image) {
    && SameOutside(a.headers, b.headers, slot, 1)
    && SameOutside(a.message, b.message, MessageAt(caps, slot), caps.message)
    && SameOutside(a.context, b.context, ContextAt(caps, slot), caps.context)
    && OnlySlotFieldsChanged(caps, slot, a.cells, a.keys, a.strings, b.cells, b.keys, b.strings)
  }

  /** Writing one slot leaves the record of every other slot unchanged. */
  lemma OtherRecordsSurvive(caps: Capacities, n: nat, slot: nat, other: nat, a: Image, b: Image, record: Record)
    requires slot < n && other < n && other != slot && Sized(caps, n, a)
    requires OnlySlotChanged(caps, slot, a, b) && SlotHolds(caps, other, a, record)
    ensures SlotHolds(caps, other, b, record)
  {
    OtherTextsSurvive(caps, n, slot, other, a, b, record);
    forall k | 0 <= k < |record.fields|
      ensures CellHolds(caps, other, k, b.cells, b.keys, b.strings, record.fields[k])
    {
      assert CellHolds(caps, other, k, a.cells, a.keys, a.strings, record.fields[k]);
      OtherSlotSurvives(caps, n, slot, other, k, a.cells, a.keys, a.strings, b.cells, b.keys, b.strings,
                        record.fields[k]);
    }
  }

  lemma OtherTextsSurvive(caps: Capacities, n: nat, slot: nat, other: nat, a: Image, b: Image, record: Record)
    requires slot < n && other < n && other != slot && Sized(caps, n, a)
    requires OnlySlotChanged(caps, slot, a, b) && TextsHold(caps, other, a.message, a.context, record)
    ensures TextsHold(caps, other, b.message, b.context, record)
  {
    StridesAreApart(slot, other, caps.message, n);
    StridesAreApart(slot, other, caps.context, n);
    StridesAreApart(other, slot, caps.message, n);
    StridesAreApart(other, slot, caps.context, n);
    RegionSurvives(a.message, b.message, MessageAt(caps, slot), MessageAt(caps, other), caps.message,
                   MessageAt(caps, other), caps.message);
    RegionSurvives(a.context, b.context, ContextAt(caps, slot), ContextAt(caps, other), caps.context,
                   ContextAt(caps, other), caps.context);
  }

  /** A slot holds at most one record: reading the storage back is unambiguous. */
  lemma SlotHoldsOne(caps: Capacities, slot: nat, image: Image, r: Record, r': Record)
    requires SlotHolds(caps, slot, image, r) && SlotHolds(caps, slot, image, r')
    ensures r == r'
  {
    TextIsUnique(image.message, MessageAt(caps, slot), r.message, r'.message);
    TextIsUnique(image.context, ContextAt(caps, slot), r.context, r'.context);
    forall k | 0 <= k < |r.fields|
      ensures r.fields[k] == r'.fields[k]
    {
      var f, f' := r.fields[k], r'.fields[k];
      assert CellHolds(caps, slot, k, image.cells, image.keys, image.strings, f);
      assert CellHolds(caps, slot, k, image.cells, image.keys, image.strings, f');
      TextIsUnique(image.keys, KeyAt(caps, slot, k), f.key, f'.key);
      if f.value.Text? {
        TextIsUnique(image.strings, TextAt(caps, slot, k), f.value.text, f'.value.text);
      }
    }
  }

  /** What a record must satisfy for its field strings to be stored whole. */
  predicate FieldsFit(caps: Capacities, fields: seq<Field>) {
    && |fields| <= caps.fields
    && (forall k | 0 <= k < |fields| ::
          && |fields[k].key| < caps.key && NulFree(fields[k].key)
          && (fields[k].value.Text? ==> |fields[k].value.text| < caps.value && NulFree(fields[k].value.text)))
  }

  /** The flat arrays for `count` slots. The queue has one; the worker's scratch buffers have the
      same shape with a single slot. */
  class Bank {
    const caps: Capacities
    const count: nat
    const headers: array<Header>
    const message: array<char>
    const context: array<char>
    const cells: array<Cell>
    const keys: array<char>
    const strings: array<char>

    ghost predicate Valid() {
      && caps.Valid() && count > 0
      && headers.Length == count
      && message.Length == count * caps.message
      && context.Length == count * caps.context
      && cells.Length == count * caps.fields
      && keys.Length == count * caps.fields * caps.key
      && strings.Length == count * caps.fields * caps.value
      && message != context && message != keys && message != strings
      && context != keys && context != strings && keys != strings
    }

    ghost function Arrays(): set<object> {
      {headers as object, message as object, context as object, cells as object, keys as object, strings as object}
    }

    ghost function Stored(): Image
      reads headers, message, context, cells, keys, strings
    {
      Image(headers[..], message[..], context[..], cells[..], keys[..], strings[..])
    }

    /** The slot holds exactly this record. */
    ghost predicate Holds(slot: nat, record: Record)
      reads headers, message, context, cells, keys, strings
    {
      SlotHolds(caps, slot, Stored(), record)
    }

    constructor (caps: Capacities, count: nat)
      requires caps.Valid() && count > 0
      ensures Valid() && this.caps == caps && this.count == count && fresh(Arrays())
    {
      this.caps := caps;
      this.count := count;
      headers := new Header[count](_ => Header(0, 0, 0, 0, 0, 0));
      message := new char[count * caps.message](_ => '\0');
      context := new char[count * caps.context](_ => '\0');
      cells := new Cell[count * caps.fields](_ => Cell(0, FlagCell(false)));
      keys := new char[count * caps.fields * caps.key](_ => '\0');
      strings := new char[count * caps.fields * caps.value](_ => '\0');
    }

    /** One iteration of the field loop that mp_logger_copy_fields_to_slot and
        mp_logger_copy_record_from_slot share. */
    method StoreField(slot: nat, k: nat, field: Field)
      requires Valid() && slot < count && k < caps.fields
      requires |field.key| < caps.key && NulFree(field.key)
      requires field.value.Text? ==> |field.value.text| < caps.value && NulFree(field.value.text)
      modifies cells, keys, strings
      ensures CellHolds(caps, slot, k, cells[..], keys[..], strings[..], field)
      ensures OnlyCellChanged(caps, slot, k, old(cells[..]), old(keys[..]), old(strings[..]),
                              cells[..], keys[..], strings[..])
    {
      CarvingIsPartition(caps, count, slot, k, slot, k);
      var keyBuffer := KeyAt(caps, slot, k);
      var stringBuffer := TextAt(caps, slot, k);
      var _ := CopyTruncated(keys, keyBuffer, caps.key, field.key);
      var value := match field.value
        case Text(_) => StringCell(stringBuffer)
        case Flag(flag) => FlagCell(flag)
        case Signed(n) => SignedCell(n)
        case Unsigned(n) => UnsignedCell(n)
        case Float(digits) => FloatCell(digits);
      if field.value.Text? {
        var _ := CopyTruncated(strings, stringBuffer, caps.value, field.value.text);
      }
      cells[CellAt(caps, slot, k)] := Cell(keyBuffer, value);
    }

    /** The field loop over one slot. */
    method StoreFields(slot: nat, fields: seq<Field>)
      requires Valid() && slot < count && FieldsFit(caps, fields)
      modifies cells, keys, strings
      ensures FieldsHold(caps, slot, cells[..], keys[..], strings[..], fields)
      ensures OnlySlotFieldsChanged(caps, slot, old(cells[..]), old(keys[..]), old(strings[..]),
                                    cells[..], keys[..], strings[..])
    {
      var index := 0;
      while index < |fields|
        invariant index <= |fields|
        invariant FieldsHold(caps, slot, cells[..], keys[..], strings[..], fields[..index])
        invariant OnlySlotFieldsChanged(caps, slot, old(cells[..]), old(keys[..]), old(strings[..]),
                                        cells[..], keys[..], strings[..])
      {
        ghost var cells1, keys1, strings1 := cells[..], keys[..], strings[..];
        StoreField(slot, index, fields[index]);
        OneMoreField(caps, count, slot, fields, index, cells1, keys1, strings1, cells[..], keys[..], strings[..]);
        FieldStaysInSlot(caps, slot, index, old(cells[..]), old(keys[..]), old(strings[..]),
                         cells1, keys1, strings1, cells[..], keys[..], strings[..]);
        index := index + 1;
      }
      assert fields[..|fields|] == fields;
    }

    /** Message and context of one slot. */
    method StoreTexts(slot: nat, text: string, contextText: string) returns (m: nat, c: nat)
      requires Valid() && slot < count && NulFree(text) && NulFree(contextText)
      modifies message, context
      ensures m == |Cut(text, caps.message)| && TextIn(message[..], MessageAt(caps, slot), Cut(text, caps.message))
      ensures c == |Cut(contextText, caps.context)|
      ensures TextIn(context[..], ContextAt(caps, slot), Cut(contextText, caps.context))
      ensures forall x |
                0 <= x < message.Length && !(MessageAt(caps, slot) <= x < MessageAt(caps, slot) + caps.message) ::
                message[x] == old(message[x])
      ensures forall x |
                0 <= x < context.Length && !(ContextAt(caps, slot) <= x < ContextAt(caps, slot) + caps.context) ::
                context[x] == old(context[x])
    {
      StridesAreApart(slot, slot, caps.message, count);
      StridesAreApart(slot, slot, caps.context, count);
      m := CopyTruncated(message, MessageAt(caps, slot), caps.message, text);
      c := CopyTruncated(context, ContextAt(caps, slot), caps.context, contextText);
    }

    /** Fills one slot; message and context are cut to their buffers. Nothing outside the regions of
        that slot changes. */
    method Store(slot: nat, record: Record, text: string, contextText: string)
      requires Valid() && slot < count && NulFree(text) && NulFree(contextText)
      requires record.message == Cut(text, caps.message) && record.context == Cut(contextText, caps.context)
      requires FieldsFit(caps, record.fields)
      modifies headers, message, context, cells, keys, strings
      ensures Holds(slot, record)
      ensures OnlySlotChanged(caps, slot, old(Stored()), Stored())
    {
      var m, c := StoreTexts(slot, text, contextText);
      StoreFields(slot, record.fields);
      headers[slot] := Header(record.sequence, record.millis, record.level, m, c, |record.fields|);
    }

    /** mp_logger_copy_record_from_slot: rebuilds the record of one slot in the worker's buffers. */
    method CopyOut(slot: nat, scratch: Bank, ghost record: Record)
      requires Valid() && slot < count && Holds(slot, record)
      requires scratch.Valid() && scratch.count == 1 && scratch.caps == caps && Arrays() !! scratch.Arrays()
      modifies scratch.headers, scratch.message, scratch.context, scratch.cells, scratch.keys, scratch.strings
      ensures scratch.Holds(0, record)
    {
      var header := headers[slot];
      var text := message[MessageAt(caps, slot)..MessageAt(caps, slot) + header.messageLength];
      assert forall j | 0 <= j < |record.message| :: text[j] == message[..][MessageAt(caps, slot) + j];
      var contextText := context[ContextAt(caps, slot)..ContextAt(caps, slot) + header.contextLength];
      assert forall j | 0 <= j < |record.context| :: contextText[j] == context[..][ContextAt(caps, slot) + j];
      var fields := ReadFields(slot, header.fieldCount, record.fields);
      var copy := Record(header.sequence, header.millis, header.level, text, contextText, fields);
      assert copy == record;
      FieldsFitWhereHeld(slot, record);
      scratch.Store(0, copy, text, contextText);
    }

    lemma FieldsFitWhereHeld(slot: nat, record: Record)
      requires Holds(slot, record)
      ensures FieldsFit(caps, record.fields)
    {
      forall k | 0 <= k < |record.fields|
        ensures && |record.fields[k].key| < caps.key && NulFree(record.fields[k].key)
                && (record.fields[k].value.Text? ==>
                      |record.fields[k].value.text| < caps.value && NulFree(record.fields[k].value.text))
      {
        assert CellHolds(caps, slot, k, cells[..], keys[..], strings[..], record.fields[k]);
      }
    }

    /** Follows the pointers stored in one cell. */
    method ReadField(slot: nat, k: nat, ghost field: Field) returns (copy: Field)
      requires CellHolds(caps, slot, k, cells[..], keys[..], strings[..], field)
      ensures copy == field
    {
      var cell := cells[CellAt(caps, slot, k)];
      assert cell == cells[..][CellAt(caps, slot, k)];
      var key := ReadText(keys, cell.key, field.key);
      match cell.value {
        case StringCell(offset) =>
          var text := ReadText(strings, offset, if field.value.Text? then field.value.text else "");
          copy := Field(key, Text(text));
        case FlagCell(flag) => copy := Field(key, Flag(flag));
        case SignedCell(n) => copy := Field(key, Signed(n));
        case UnsignedCell(n) => copy := Field(key, Unsigned(n));
        case FloatCell(digits) => copy := Field(key, Float(digits));
      }
    }

    method ReadFields(slot: nat, fieldCount: nat, ghost fields: seq<Field>) returns (copy: seq<Field>)
      requires FieldsHold(caps, slot, cells[..], keys[..], strings[..], fields) && fieldCount == |fields|
      ensures copy == fields
    {
      copy := [];
      var index := 0;
      while index < fieldCount
        invariant index <= fieldCount && copy == fields[..index]
      {
        var field := ReadField(slot, index, fields[index]);
        copy := copy + [field];
        index := index + 1;
      }
    }
  }

  predicate NulFreeArgument(value: Argument) {
    value.StringArgument? && value.pointer.Some? ==> NulFree(value.pointer.value)
  }

  /** Callers pass C strings. */
  predicate PassesCStrings(call: Call) {
    && (call.message.Some? ==> NulFree(call.message.value))
    && (call.context.Some? ==> NulFree(call.context.value))
    && (forall i | 0 <= i < |ListOf(call.fields)| ::
          && (ListOf(call.fields)[i].key.Some? ==> NulFree(ListOf(call.fields)[i].key.value))
          && NulFreeArgument(ListOf(call.fields)[i].value))
  }

  lemma ValidCallsFit(caps: Capacities, call: Call, sequence: nat, millis: int64)
    requires caps.Valid() && CallStatus(caps, call) == Ok && PassesCStrings(call)
    ensures FieldsFit(caps, Admitted(caps, call, sequence, millis).fields)
  {
    AcceptedFieldsAreStorable(caps, call);
    AdmittedFieldsAreDistinct(caps, call, sequence, millis);
    var list := ListOf(call.fields);
    var fields := Admitted(caps, call, sequence, millis).fields;
    forall k | 0 <= k < |fields|
      ensures NulFree(fields[k].key) && (fields[k].value.Text? ==> NulFree(fields[k].value.text))
    {
      assert Storable(list[k]) && NulFreeArgument(list[k].value);
    }
  }

  /** The slots of the ring window hold the queue's records in order. */
  ghost predicate RingHolds(caps: Capacities, n: nat, head: nat, image: Image, contents: seq<Record>) {
    && head < n && |contents| <= n
    && forall j | 0 <= j < |contents| :: SlotHolds(caps, Wrap(head + j, n), image, contents[j])
  }

  lemma RingGrows(caps: Capacities, n: nat, head: nat, a: Image, b: Image, contents: seq<Record>, record: Record)
    requires RingHolds(caps, n, head, a, contents) && |contents| < n
    requires Sized(caps, n, a) && OnlySlotChanged(caps, Wrap(head + |contents|, n), a, b)
    requires SlotHolds(caps, Wrap(head + |contents|, n), b, record)
    ensures RingHolds(caps, n, head, b, contents + [record])
  {
    forall j | 0 <= j < |contents|
      ensures SlotHolds(caps, Wrap(head + j, n), b, contents[j])
    {
      OtherRecordsSurvive(caps, n, Wrap(head + |contents|, n), Wrap(head + j, n), a, b, contents[j]);
    }
  }

  lemma RingShrinks(caps: Capacities, n: nat, head: nat, image: Image, contents: seq<Record>)
    requires RingHolds(caps, n, head, image, contents) && contents != []
    ensures SlotHolds(caps, head, image, contents[0])
    ensures RingHolds(caps, n, Wrap(head + 1, n), image, contents[1..])
  {
    assert SlotHolds(caps, Wrap(head + 0, n), image, contents[0]);
    forall j | 0 <= j < |contents| - 1
      ensures SlotHolds(caps, Wrap(Wrap(head + 1, n) + j, n), image, contents[1..][j])
    {
      assert SlotHolds(caps, Wrap(head + (j + 1), n), image, contents[j + 1]);
    }
  }

  /** The bounded queue: a ring of slots in a bank. */
  class LogQueue {
    const bank: Bank
    var head: nat
    var tail: nat
    var count: nat
    var queued: nat
    var droppedBusy: nat
    var droppedFull: nat
    ghost var contents: seq<Record>

    ghost predicate Valid()
      reads this, bank.Arrays()
    {
      && bank.Valid() && bank.count == bank.caps.slots
      && head < bank.count && count <= bank.count && tail == Wrap(head + count, bank.count)
      && |contents| == count
      && RingHolds(bank.caps, bank.count, head, bank.Stored(), contents)
    }

    constructor (caps: Capacities)
      requires caps.Valid()
      ensures Valid() && bank.caps == caps && fresh(bank.Arrays())
      ensures contents == [] && queued == droppedBusy == droppedFull == 0
    {
      bank := new Bank(caps, caps.slots);
      head, tail, count, queued := 0, 0, 0, 0;
      droppedBusy, droppedFull := 0, 0;
      contents := [];
    }

    /** mp_logger_enqueue_record as one call that nobody interrupts: the shutdown flag as it reads it, and
        whether its attempt on the lock succeeds. The queue grows by exactly the record the call stands
        for, or does not change at all; each refusal for want of the lock or of room is counted. */
    method Enqueue(call: Call, millis: int64, shutdown: bool, lockIsFree: bool) returns (status: Status)
      requires Valid() && PassesCStrings(call)
      modifies this, bank.Arrays()
      ensures Valid()
      ensures status == (if CallStatus(bank.caps, call) != Ok then CallStatus(bank.caps, call)
                         else if shutdown then NotRunning
                         else if !lockIsFree then Busy
                         else if old(|contents|) == bank.caps.slots then QueueFull else Ok)
      ensures contents == (if status == Ok then old(contents) + [Admitted(bank.caps, call, old(queued) + 1, millis)]
                           else old(contents))
      ensures queued == old(queued) + (if status == Ok then 1 else 0)
      ensures droppedBusy == old(droppedBusy) + (if status == Busy then 1 else 0)
      ensures droppedFull == old(droppedFull) + (if status == QueueFull then 1 else 0)
    {
      status := Decide(call, shutdown, lockIsFree);
      if status == Busy {
        droppedBusy := droppedBusy + 1;
      } else if status == QueueFull {
        droppedFull := droppedFull + 1;
      } else if status == Ok {
        Admit(call, millis);
      }
    }

    /** The checks, in the order of the source. */
    method Decide(call: Call, shutdown: bool, lockIsFree: bool) returns (status: Status)
      requires Valid()
      ensures status == (if CallStatus(bank.caps, call) != Ok then CallStatus(bank.caps, call)
                         else if shutdown then NotRunning
                         else if !lockIsFree then Busy
                         else if |contents| == bank.caps.slots then QueueFull else Ok)
      ensures status in {Busy, QueueFull, Ok} ==> CallStatus(bank.caps, call) == Ok
    {
      CallStatusRange(bank.caps, call);
      if call.message.None? {
        return InvalidArgument;
      }
      status := ValidateFields(bank.caps, call.fields);
      if status != Ok {
        return;
      }
      if shutdown {
        return NotRunning;
      }
      if !lockIsFree {
        return Busy;
      }
      if count >= bank.caps.slots {
        return QueueFull;
      }
    }

    /** The part inside the lock, with room in the queue. */
    method Admit(call: Call, millis: int64)
      requires Valid() && PassesCStrings(call) && CallStatus(bank.caps, call) == Ok && |contents| < bank.count
      modifies this`tail, this`count, this`contents, this`queued, bank.Arrays()
      ensures Valid() && queued == old(queued) + 1
      ensures contents == old(contents) + [Admitted(bank.caps, call, old(queued) + 1, millis)]
    {
      queued := queued + 1;
      AcceptedFieldsAreStorable(bank.caps, call);
      ValidCallsFit(bank.caps, call, queued, millis);
      FillTail(Admitted(bank.caps, call, queued, millis), call.message.value, OrEmpty(call.context));
    }

    /** Fills the slot at the tail and counts it. */
    method FillTail(record: Record, text: string, contextText: string)
      requires Valid() && |contents| < bank.count
      requires NulFree(text) && NulFree(contextText) && FieldsFit(bank.caps, record.fields)
      requires record.message == Cut(text, bank.caps.message)
      requires record.context == Cut(contextText, bank.caps.context)
      modifies this`tail, this`count, this`contents, bank.Arrays()
      ensures Valid() && contents == old(contents) + [record]
    {
      ghost var before := bank.Stored();
      bank.Store(tail, record, text, contextText);
      RingGrows(bank.caps, bank.count, head, before, bank.Stored(), contents, record);
      WrapIsModulo(tail + 1, bank.count);
      tail := (tail + 1) % bank.caps.slots;
      count := count + 1;
      contents := contents + [record];
    }

    /** The dequeue of mp_logger_worker_main: the oldest record, rebuilt in the worker's buffers. */
    method Dequeue(scratch: Bank)
      requires Valid() && contents != []
      requires scratch.Valid() && scratch.count == 1 && scratch.caps == bank.caps
      requires bank.Arrays() !! scratch.Arrays()
      modifies this, scratch.Arrays()
      ensures Valid() && scratch.Holds(0, old(contents)[0])
      ensures contents == old(contents)[1..]
      ensures queued == old(queued) && droppedBusy == old(droppedBusy) && droppedFull == old(droppedFull)
    {
      RingShrinks(bank.caps, bank.count, head, bank.Stored(), contents);
      bank.CopyOut(head, scratch, contents[0]);
      WrapIsModulo(head + 1, bank.count);
      head := (head + 1) % bank.caps.slots;
      count := count - 1;
      contents := contents[1..];
    }
  }
}
