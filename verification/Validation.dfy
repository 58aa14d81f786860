/** Field validation before admission: mp_logger_is_valid_field_key and mp_logger_validate_fields. */
module Validation {
  import opened Records

  const RESERVED_KEYS: seq<string> :=
    ["ts", "level", "service", "environment", "sequence_id", "message", "context"]

  predicate IsKeyChar(c: char) {
    || 'a' <= c <= 'z' || 'A' <= c <= 'Z' || '0' <= c <= '9'
    || c == '_' || c == '-' || c == '.'
  }

  predicate IsValidKey(key: string) {
    key != "" && key !in RESERVED_KEYS && forall i | 0 <= i < |key| :: IsKeyChar(key[i])
  }

  predicate SameKey(a: FieldArgument, b: FieldArgument) {
    a.key.Some? && b.key.Some? && a.key.value == b.key.value
  }

  predicate RepeatedLater(fields: seq<FieldArgument>, i: nat)
    requires i < |fields|
  {
    exists j | i < j < |fields| :: SameKey(fields[i], fields[j])
  }

  /** The verdict on one field, in the order the source looks at it: key, later duplicates, value. */
  function FieldStatus(caps: Capacities, fields: seq<FieldArgument>, i: nat): Status
    requires i < |fields|
  {
    var field := fields[i];
    if field.key.None? || !IsValidKey(field.key.value) || |field.key.value| >= caps.key then InvalidArgument
    else if RepeatedLater(fields, i) then InvalidArgument
    else match field.value
      case StringArgument(Some(text)) => if |text| >= caps.value then LimitExceeded else Ok
      case DoubleArgument(NotFinite) => InvalidArgument
      case UnknownArgument => InvalidArgument
      case _ => Ok
  }

  /** The verdict of the first bad field at or after `from`. */
  function ScanStatus(caps: Capacities, fields: seq<FieldArgument>, from: nat): Status
    requires from <= |fields|
    decreases |fields| - from
  {
    if from == |fields| then Ok
    else if FieldStatus(caps, fields, from) != Ok then FieldStatus(caps, fields, from)
    else ScanStatus(caps, fields, from + 1)
  }

  /** What mp_logger_validate_fields answers. */
  function FieldsStatus(caps: Capacities, fields: FieldsArgument): Status {
    match fields
    case NullFields(count) => if count == 0 then Ok else InvalidArgument
    case Fields(list) =>
      if list == [] then Ok
      else if |list| > caps.fields then LimitExceeded
      else ScanStatus(caps, list, 0)
  }

  /** The whole admission test that precedes the shared state: message pointer, then fields. */
  function CallStatus(caps: Capacities, call: Call): Status {
    if call.message.None? then InvalidArgument else FieldsStatus(caps, call.fields)
  }

  function ListOf(fields: FieldsArgument): seq<FieldArgument> {
    match fields
    case NullFields(_) => []
    case Fields(list) => list
  }

  // What acceptance means, without reference to any scan.

  ghost predicate AcceptableValue(caps: Capacities, value: Argument) {
    && (value.StringArgument? && value.pointer.Some? ==> |value.pointer.value| < caps.value)
    && (value.DoubleArgument? ==> value.double.Finite?)
    && !value.UnknownArgument?
  }

  ghost predicate AcceptableField(caps: Capacities, field: FieldArgument) {
    && field.key.Some? && IsValidKey(field.key.value) && |field.key.value| < caps.key
    && AcceptableValue(caps, field.value)
  }

  ghost predicate Acceptable(caps: Capacities, list: seq<FieldArgument>) {
    && |list| <= caps.fields
    && (forall i | 0 <= i < |list| :: AcceptableField(caps, list[i]))
    && (forall i, j | 0 <= i < j < |list| :: list[i].key != list[j].key)
  }

  lemma {:induction false} ScanFindsFirst(caps: Capacities, fields: seq<FieldArgument>, from: nat)
    requires from <= |fields|
    ensures ScanStatus(caps, fields, from) == Ok <==>
            forall i | from <= i < |fields| :: FieldStatus(caps, fields, i) == Ok
    ensures ScanStatus(caps, fields, from) != Ok ==>
              exists i | from <= i < |fields| ::
                && FieldStatus(caps, fields, i) == ScanStatus(caps, fields, from)
                && forall j | from <= j < i :: FieldStatus(caps, fields, j) == Ok
    decreases |fields| - from
  {
    if from < |fields| && FieldStatus(caps, fields, from) == Ok {
      ScanFindsFirst(caps, fields, from + 1);
    }
  }

  lemma FieldStatusOk(caps: Capacities, fields: seq<FieldArgument>)
    ensures (forall i | 0 <= i < |fields| :: FieldStatus(caps, fields, i) == Ok) <==>
            && (forall i | 0 <= i < |fields| :: AcceptableField(caps, fields[i]))
            && (forall i, j | 0 <= i < j < |fields| :: fields[i].key != fields[j].key)
  {
    if forall i | 0 <= i < |fields| :: FieldStatus(caps, fields, i) == Ok {
      forall i | 0 <= i < |fields|
        ensures AcceptableField(caps, fields[i])
      {
        assert FieldStatus(caps, fields, i) == Ok;
      }
      forall i, j | 0 <= i < j < |fields|
        ensures fields[i].key != fields[j].key
      {
        assert FieldStatus(caps, fields, i) == Ok && FieldStatus(caps, fields, j) == Ok;
        assert !SameKey(fields[i], fields[j]);
      }
    } else if forall i, j | 0 <= i < j < |fields| :: fields[i].key != fields[j].key {
      var i :| 0 <= i < |fields| && FieldStatus(caps, fields, i) != Ok;
      assert !AcceptableField(caps, fields[i]);
    }
  }

  /** Validation is exact: the answer is OK precisely on acceptable field lists, and otherwise it
      is a limit on the count or the verdict on the first bad field. */
  lemma ValidationIsExact(caps: Capacities, list: seq<FieldArgument>)
    ensures FieldsStatus(caps, Fields(list)) == Ok <==> list == [] || Acceptable(caps, list)
    ensures FieldsStatus(caps, Fields(list)) in {Ok, InvalidArgument, LimitExceeded}
    ensures list != [] && |list| <= caps.fields && FieldsStatus(caps, Fields(list)) != Ok ==>
              exists i | 0 <= i < |list| ::
                && FieldStatus(caps, list, i) == FieldsStatus(caps, Fields(list))
                && forall j | 0 <= j < i :: FieldStatus(caps, list, j) == Ok
  {
    ScanFindsFirst(caps, list, 0);
    FieldStatusOk(caps, list);
  }

  // Which refusal a call gets, again without reference to any scan.

  ghost predicate KeyPasses(caps: Capacities, list: seq<FieldArgument>, i: nat)
    requires i < |list|
  {
    && list[i].key.Some? && IsValidKey(list[i].key.value) && |list[i].key.value| < caps.key
    && forall j | i < j < |list| :: list[j].key != list[i].key
  }

  ghost predicate IsTooLong(caps: Capacities, value: Argument) {
    value.StringArgument? && value.pointer.Some? && |value.pointer.value| >= caps.value
  }

  lemma FieldStatusKind(caps: Capacities, list: seq<FieldArgument>, i: nat)
    requires i < |list|
    ensures FieldStatus(caps, list, i) == LimitExceeded <==> KeyPasses(caps, list, i) && IsTooLong(caps, list[i].value)
    ensures FieldStatus(caps, list, i) == Ok <==> KeyPasses(caps, list, i) && AcceptableValue(caps, list[i].value)
    ensures FieldStatus(caps, list, i) in {Ok, InvalidArgument, LimitExceeded}
  {
    if list[i].key.Some? {
      assert forall j | i < j < |list| :: SameKey(list[i], list[j]) <==> list[j].key == list[i].key;
      assert RepeatedLater(list, i) <==> !forall j | i < j < |list| :: list[j].key != list[i].key;
    }
  }

  /** Which refusal: a list within the count exceeds a limit exactly if some string is too long under a
      key that passes, and all fields before it pass; any other refusal is an invalid argument. */
  lemma RefusalKind(caps: Capacities, list: seq<FieldArgument>)
    requires list != [] && |list| <= caps.fields
    ensures FieldsStatus(caps, Fields(list)) == LimitExceeded <==>
            exists i | 0 <= i < |list| ::
              && KeyPasses(caps, list, i) && IsTooLong(caps, list[i].value)
              && forall j | 0 <= j < i :: KeyPasses(caps, list, j) && AcceptableValue(caps, list[j].value)
    ensures FieldsStatus(caps, Fields(list)) == Ok <==>
            forall i | 0 <= i < |list| :: KeyPasses(caps, list, i) && AcceptableValue(caps, list[i].value)
    ensures FieldsStatus(caps, Fields(list)) in {Ok, InvalidArgument, LimitExceeded}
  {
    forall i | 0 <= i < |list|
      ensures FieldStatus(caps, list, i) == LimitExceeded <==>
              KeyPasses(caps, list, i) && IsTooLong(caps, list[i].value)
      ensures FieldStatus(caps, list, i) == Ok <==> KeyPasses(caps, list, i) && AcceptableValue(caps, list[i].value)
      ensures FieldStatus(caps, list, i) in {Ok, InvalidArgument, LimitExceeded}
    {
      FieldStatusKind(caps, list, i);
    }
    ScanFindsFirst(caps, list, 0);
  }

  /** The answers that do not depend on the fields themselves, in the order of the source. */
  lemma RefusedOutright(caps: Capacities, call: Call)
    ensures call.message.None? ==> CallStatus(caps, call) == InvalidArgument
    ensures call.message.Some? && call.fields.NullFields? ==>
              CallStatus(caps, call) == if call.fields.count == 0 then Ok else InvalidArgument
    ensures call.message.Some? && call.fields == Fields([]) ==> CallStatus(caps, call) == Ok
    ensures call.message.Some? && call.fields.Fields? && |call.fields.fields| > caps.fields ==>
              CallStatus(caps, call) == if call.fields.fields == [] then Ok else LimitExceeded
  {
  }

  const LOWER: string := "abcdefghijklmnopqrstuvwxyz"
  const UPPER: string := "ABCDEFGHIJKLMNOPQRSTUVWXYZ"
  const OTHERS: string := "0123456789_-."

  lemma LowerAre(c: char)
    ensures 'a' <= c <= 'z' <==> c in LOWER
  {
    if 'a' <= c <= 'z' {
      assert c == LOWER[c as int - 'a' as int];
    }
  }

  lemma UpperAre(c: char)
    ensures 'A' <= c <= 'Z' <==> c in UPPER
  {
    if 'A' <= c <= 'Z' {
      assert c == UPPER[c as int - 'A' as int];
    }
  }

  /** The characters of a key, one by one. */
  lemma KeyCharsAre(c: char)
    ensures IsKeyChar(c) <==> c in LOWER || c in UPPER || c in OTHERS
  {
    LowerAre(c);
    UpperAre(c);
    if '0' <= c <= '9' {
      assert c == OTHERS[c as int - '0' as int];
    } else if c in ['_', '-', '.'] {
      assert OTHERS[10] == '_' && OTHERS[11] == '-' && OTHERS[12] == '.';
    }
  }

  lemma CallStatusRange(caps: Capacities, call: Call)
    ensures CallStatus(caps, call) in {Ok, InvalidArgument, LimitExceeded}
  {
    ValidationIsExact(caps, ListOf(call.fields));
  }

  // The source's loops.

  method IsReserved(key: string) returns (reserved: bool)
    ensures reserved <==> key in RESERVED_KEYS
  {
    var index := 0;
    while index < |RESERVED_KEYS|
      invariant index <= |RESERVED_KEYS| && key !in RESERVED_KEYS[..index]
    {
      if key == RESERVED_KEYS[index] {
        return true;
      }
      index := index + 1;
    }
    return false;
  }

  method ValidateKey(key: Option<string>) returns (valid: bool)
    ensures valid <==> key.Some? && IsValidKey(key.value)
  {
    if key.None? || key.value == "" {
      return false;
    }
    var reserved := IsReserved(key.value);
    if reserved {
      return false;
    }
    var index := 0;
    while index < |key.value|
      invariant index <= |key.value| && forall i | 0 <= i < index :: IsKeyChar(key.value[i])
    {
      if !IsKeyChar(key.value[index]) {
        return false;
      }
      index := index + 1;
    }
    return true;
  }

  method ValidateFields(caps: Capacities, fields: FieldsArgument) returns (status: Status)
    ensures status == FieldsStatus(caps, fields)
  {
    if fields.NullFields? {
      return if fields.count == 0 then Ok else InvalidArgument;
    }
    var list := fields.fields;
    if |list| == 0 {
      return Ok;
    }
    if |list| > caps.fields {
      return LimitExceeded;
    }
    var index := 0;
    while index < |list|
      invariant index <= |list|
      invariant ScanStatus(caps, list, 0) == ScanStatus(caps, list, index)
    {
      var field := list[index];
      var valid := ValidateKey(field.key);
      if !valid || |field.key.value| >= caps.key {
        return InvalidArgument;
      }
      var other := index + 1;
      while other < |list|
        invariant index < other <= |list|
        invariant forall j | index < j < other :: !SameKey(field, list[j])
      {
        if list[other].key.Some? && field.key.value == list[other].key.value {
          assert SameKey(list[index], list[other]);
          return InvalidArgument;
        }
        other := other + 1;
      }
      match field.value {
        case StringArgument(text) =>
          if text.Some? && |text.value| >= caps.value {
            return LimitExceeded;
          }
        case BoolArgument(_) =>
        case SignedArgument(_) =>
        case UnsignedArgument(_) =>
        case DoubleArgument(double) =>
          if double.NotFinite? {
            return InvalidArgument;
          }
        case UnknownArgument =>
          return InvalidArgument;
      }
      index := index + 1;
    }
    return Ok;
  }

  // Admission: what a validated call becomes.

  function StoredValue(value: Argument): Value
    requires !value.UnknownArgument? && (value.DoubleArgument? ==> value.double.Finite?)
  {
    match value
    case StringArgument(pointer) => Text(OrEmpty(pointer))
    case BoolArgument(flag) => Flag(flag)
    case SignedArgument(n) => Signed(n)
    case UnsignedArgument(n) => Unsigned(n)
    case DoubleArgument(double) => Float(double.digits)
  }

  predicate Storable(field: FieldArgument) {
    field.key.Some? && !field.value.UnknownArgument? && (field.value.DoubleArgument? ==> field.value.double.Finite?)
  }

  function StoredFields(list: seq<FieldArgument>): (fields: seq<Field>)
    requires forall i | 0 <= i < |list| :: Storable(list[i])
    ensures |fields| == |list|
    ensures forall i | 0 <= i < |list| ::
              && Storable(list[i])
              && fields[i].key == list[i].key.value && fields[i].value == StoredValue(list[i].value)
  {
    seq(|list|, i requires 0 <= i < |list| && Storable(list[i]) => Field(list[i].key.value, StoredValue(list[i].value)))
  }

  lemma AcceptedFieldsAreStorable(caps: Capacities, call: Call)
    requires CallStatus(caps, call) == Ok
    ensures forall i | 0 <= i < |ListOf(call.fields)| :: Storable(ListOf(call.fields)[i])
  {
    ValidationIsExact(caps, ListOf(call.fields));
  }

  /** The record that a validated call is admitted as. */
  function Admitted(caps: Capacities, call: Call, sequence: nat, millis: int64): Record
    requires caps.Valid() && CallStatus(caps, call) == Ok
  {
    AcceptedFieldsAreStorable(caps, call);
    Record(
      sequence, millis, call.level,
      Cut(call.message.value, caps.message),
      Cut(OrEmpty(call.context), caps.context),
      StoredFields(ListOf(call.fields)))
  }

  /** Every admitted record carries pairwise distinct, valid, unreserved keys within the sizes. */
  lemma AdmittedFieldsAreDistinct(caps: Capacities, call: Call, sequence: nat, millis: int64)
    requires caps.Valid() && CallStatus(caps, call) == Ok
    ensures var fields := Admitted(caps, call, sequence, millis).fields;
            && |fields| <= caps.fields
            && (forall i | 0 <= i < |fields| :: IsValidKey(fields[i].key) && |fields[i].key| < caps.key)
            && (forall i | 0 <= i < |fields| && fields[i].value.Text? :: |fields[i].value.text| < caps.value)
            && (forall i, j | 0 <= i < j < |fields| :: fields[i].key != fields[j].key)
  {
    AcceptedFieldsAreStorable(caps, call);
    ValidationIsExact(caps, ListOf(call.fields));
    var list := ListOf(call.fields);
    var fields := Admitted(caps, call, sequence, millis).fields;
    forall i | 0 <= i < |fields| && fields[i].value.Text?
      ensures |fields[i].value.text| < caps.value
    {
      assert AcceptableValue(caps, list[i].value);
    }
  }
}
