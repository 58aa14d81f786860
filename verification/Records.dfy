/** The values that flow through the logger: statuses, log calls as the caller writes them,
    and records as the worker sees them. */
module Records {

  datatype Option<+T> = None | Some(value: T)

  datatype Status =
    | Ok | QueueFull | Busy | InvalidArgument | IoError
    | ConfigError | NotRunning | InternalError | LimitExceeded

  const TWO_63: int := 0x8000_0000_0000_0000
  const TWO_64: int := 0x1_0000_0000_0000_0000

  type int64 = x: int | -TWO_63 <= x < TWO_63
  type uint64 = x: int | 0 <= x < TWO_64

  /** The six sizes that are fixed when a logger is created. */
  datatype Capacities = Capacities(slots: nat, message: nat, context: nat, fields: nat, key: nat, value: nat)
  {
    /** The bounds that mp_logger_validate_config demands. */
    predicate Valid() {
      slots > 0 && message > 1 && context > 1 && fields > 0 && key > 1 && value > 1
    }
  }

  /** A double is represented by the text "%.17g" prints for it. */
  datatype Double = Finite(digits: string) | NotFinite

  /** A field value as the caller passes it: the string pointer may be NULL, the tag may be unknown. */
  datatype Argument =
    | StringArgument(pointer: Option<string>)
    | BoolArgument(flag: bool)
    | SignedArgument(signed: int64)
    | UnsignedArgument(unsigned: uint64)
    | DoubleArgument(double: Double)
    | UnknownArgument

  datatype FieldArgument = FieldArgument(key: Option<string>, value: Argument)

  /** The `fields` pointer together with `field_count`. */
  datatype FieldsArgument = NullFields(count: nat) | Fields(fields: seq<FieldArgument>)

  datatype Call = Call(level: int, message: Option<string>, context: Option<string>, fields: FieldsArgument)

  datatype Value =
    | Text(text: string)
    | Flag(flag: bool)
    | Signed(signed: int64)
    | Unsigned(unsigned: uint64)
    | Float(digits: string)

  datatype Field = Field(key: string, value: Value)

  datatype Record = Record(
    sequence: nat, millis: int64, level: int, message: string, context: string, fields: seq<Field>)

  const LEVEL_TRACE := 0
  const LEVEL_FATAL := 5

  predicate InEnum(level: int) {
    LEVEL_TRACE <= level <= LEVEL_FATAL
  }

  /** A C string holds no NUL byte. */
  predicate NulFree(s: string) {
    forall i | 0 <= i < |s| :: s[i] != '\0'
  }

  function Min(a: int, b: int): int {
    if a <= b then a else b
  }

  /** What mp_logger_copy_truncated leaves in a buffer of `capacity` bytes. */
  function Cut(s: string, capacity: nat): (r: string)
    requires capacity > 0
    ensures r <= s && |r| == Min(|s|, capacity - 1)
  {
    s[..Min(|s|, capacity - 1)]
  }

  /** A NULL string reads as the empty string. */
  function OrEmpty(pointer: Option<string>): string {
    if pointer.Some? then pointer.value else ""
  }
}
