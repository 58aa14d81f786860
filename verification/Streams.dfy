/** The stream table and its cached level mask. */
module Streams {
  import opened Records
  import opened Config

  datatype Stream = Stream(name: string, minimum: int, maximum: int)

  const MAX_STREAMS: nat := 8

  /** mp_logger_level_in_range: the test the worker applies at fan-out. */
  predicate Accepts(stream: Stream, level: int) {
    stream.minimum <= level <= stream.maximum
  }

  /** mp_logger_apply_config_to_streams for one entry: built-in names take the configured bounds. */
  function Tuned(levels: Levels, stream: Stream): (tuned: Stream)
    ensures tuned.name == stream.name
  {
    if stream.name == "stdout" then stream.(minimum := levels.stdoutMinimum, maximum := levels.stdoutMaximum)
    else if stream.name == "stderr" then stream.(minimum := levels.stderrMinimum, maximum := levels.stderrMaximum)
    else if stream.name == "file" then stream.(minimum := levels.fileMinimum, maximum := levels.fileMaximum)
    else if stream.name == "udp" then stream.(minimum := levels.udpMinimum, maximum := levels.udpMaximum)
    else stream
  }

  function TunedTable(levels: Levels, table: seq<Stream>): (tuned: seq<Stream>)
    ensures |tuned| == |table|
    ensures forall i | 0 <= i < |table| :: tuned[i] == Tuned(levels, table[i])
  {
    seq(|table|, i requires 0 <= i < |table| => Tuned(levels, table[i]))
  }

  predicate HasName(table: seq<Stream>, name: string) {
    exists i | 0 <= i < |table| :: table[i].name == name
  }

  function AddStatus(table: seq<Stream>, stream: Stream, hasWrite: bool): Status {
    if !hasWrite || stream.name == "" then InvalidArgument
    else if |table| >= MAX_STREAMS then LimitExceeded
    else if HasName(table, stream.name) then ConfigError
    else Ok
  }

  /** Which answer a registration gets. */
  lemma AddAnswers(table: seq<Stream>, stream: Stream, hasWrite: bool)
    ensures var status := AddStatus(table, stream, hasWrite);
            var named := hasWrite && stream.name != "";
            && (status == InvalidArgument <==> !named)
            && (status == LimitExceeded <==> named && |table| >= 8)
            && (status == ConfigError <==>
                named && |table| < 8 && exists i | 0 <= i < |table| :: table[i].name == stream.name)
            && status in {InvalidArgument, LimitExceeded, ConfigError, Ok}
  {
  }

  function Added(table: seq<Stream>, stream: Stream, hasWrite: bool): (next: seq<Stream>)
    ensures table <= next
  {
    if AddStatus(table, stream, hasWrite) == Ok then table + [stream] else table
  }

  /** At most eight streams, with pairwise distinct non-empty names. */
  ghost predicate WellFormed(table: seq<Stream>) {
    && |table| <= MAX_STREAMS
    && (forall i | 0 <= i < |table| :: table[i].name != "")
    && (forall i, j | 0 <= i < j < |table| :: table[i].name != table[j].name)
  }

  lemma TableStaysWellFormed(table: seq<Stream>, stream: Stream, hasWrite: bool, levels: Levels)
    requires WellFormed(table)
    ensures WellFormed(Added(table, stream, hasWrite)) && WellFormed(TunedTable(levels, table))
  {
    var tuned := TunedTable(levels, table);
    assert forall i | 0 <= i < |table| :: tuned[i].name == table[i].name;
  }

  // The mask has one bit for each level of the enum.

  type Mask = bv32

  predicate Bit(mask: Mask, level: int)
    requires InEnum(level)
  {
    mask & (1 << level) != 0
  }

  lemma UnionBit(a: Mask, b: Mask, level: int)
    requires InEnum(level)
    ensures Bit(a | b, level) <==> Bit(a, level) || Bit(b, level)
  {
    assert level == 0 || level == 1 || level == 2 || level == 3 || level == 4 || level == 5;
  }

  lemma OneBit(level: int, other: int)
    requires InEnum(level) && InEnum(other)
    ensures Bit(1 << level, other) <==> other == level
  {
    var one: Mask := 1;
    if level == 0 { assert one << level == 1; }
    else if level == 1 { assert one << level == 2; }
    else if level == 2 { assert one << level == 4; }
    else if level == 3 { assert one << level == 8; }
    else if level == 4 { assert one << level == 16; }
    else { assert one << level == 32; }
    if other == 0 { assert one << other == 1; }
    else if other == 1 { assert one << other == 2; }
    else if other == 2 { assert one << other == 4; }
    else if other == 3 { assert one << other == 8; }
    else if other == 4 { assert one << other == 16; }
    else { assert one << other == 32; }
  }

  lemma ZeroBit(level: int)
    requires InEnum(level)
    ensures !Bit(0, level)
  {
    assert level == 0 || level == 1 || level == 2 || level == 3 || level == 4 || level == 5;
  }
}
