/** The registered streams as the logger object keeps them, with the cached mask of enabled levels. */
module StreamTable {
  import opened Records
  import opened Config
  import opened Streams

  /** A range that lies within the enum; any other range contributes nothing to the mask. */
  predicate RangeInEnum(minimum: int, maximum: int) {
    LEVEL_TRACE <= minimum <= maximum <= LEVEL_FATAL
  }

  predicate Covers(stream: Stream, level: int) {
    RangeInEnum(stream.minimum, stream.maximum) && Accepts(stream, level)
  }

  ghost predicate MaskAgrees(mask: Mask, table: seq<Stream>) {
    forall level | InEnum(level) :: Bit(mask, level) <==> exists i | 0 <= i < |table| :: Covers(table[i], level)
  }

  /** mp_logger_level_range_mask. */
  method RangeMask(minimum: int, maximum: int) returns (mask: Mask)
    ensures forall level | InEnum(level) ::
              Bit(mask, level) <==> RangeInEnum(minimum, maximum) && minimum <= level <= maximum
  {
    mask := 0;
    forall l | InEnum(l) ensures !Bit(0, l) { ZeroBit(l); }
    if minimum < LEVEL_TRACE || maximum > LEVEL_FATAL || minimum > maximum {
      return;
    }
    var level := minimum;
    while level <= maximum
      invariant minimum <= level <= maximum + 1
      invariant forall l | InEnum(l) :: Bit(mask, l) <==> minimum <= l < level
    {
      var next := mask | (1 << level);
      forall l | InEnum(l)
        ensures Bit(next, l) <==> minimum <= l < level + 1
      {
        OneBit(level, l);
        UnionBit(mask, 1 << level, l);
      }
      mask := next;
      level := level + 1;
    }
  }

  /** The mask and the worker's range test agree on every level of the enum. */
  ghost predicate RangeAgrees(stream: Stream) {
    forall level | InEnum(level) :: Covers(stream, level) <==> Accepts(stream, level)
  }

  /** For which bounds they agree: those within the enum, and those that contain no level of the enum.
      The bounds are the numbers that the compiled code compares. */
  lemma RangeAgreesIff(stream: Stream)
    ensures RangeAgrees(stream) <==>
            || RangeInEnum(stream.minimum, stream.maximum)
            || stream.minimum > stream.maximum || stream.maximum < LEVEL_TRACE || stream.minimum > LEVEL_FATAL
  {
    if !(RangeInEnum(stream.minimum, stream.maximum)
         || stream.minimum > stream.maximum || stream.maximum < LEVEL_TRACE || stream.minimum > LEVEL_FATAL) {
      var level := if stream.minimum < LEVEL_TRACE then LEVEL_TRACE else stream.minimum;
      assert InEnum(level) && Accepts(stream, level) && !Covers(stream, level);
    }
  }

  type int32 = x: int | -0x8000_0000 <= x < 0x8000_0000

  /** The enum has no negative constant, so a compiler may hold it in an unsigned integer, where a
      negative bound becomes a large one, or in a signed integer. */
  function Held(isUnsigned: bool, bound: int32): int {
    if isUnsigned && bound < 0 then bound + 0x1_0000_0000 else bound
  }

  function Registered(isUnsigned: bool, name: string, minimum: int32, maximum: int32): Stream {
    Stream(name, Held(isUnsigned, minimum), Held(isUnsigned, maximum))
  }

  /** For which bounds, as the caller writes them, the two tests disagree under either choice. */
  lemma CallerRangeDisagreesIff(isUnsigned: bool, name: string, minimum: int32, maximum: int32)
    ensures !RangeAgrees(Registered(isUnsigned, name, minimum, maximum)) <==>
            if isUnsigned then InEnum(minimum) && !(0 <= maximum <= LEVEL_FATAL)
            else minimum <= maximum && 0 <= maximum && minimum <= LEVEL_FATAL && (minimum < 0 || maximum > LEVEL_FATAL)
  {
    RangeAgreesIff(Registered(isUnsigned, name, minimum, maximum));
  }

  ghost predicate SomeCovers(table: seq<Stream>, level: int) {
    exists i | 0 <= i < |table| :: Covers(table[i], level)
  }

  ghost predicate SomeAccepts(table: seq<Stream>, level: int) {
    exists i | 0 <= i < |table| :: Accepts(table[i], level)
  }

  /** For which tables mp_logger_is_level_enabled tells what the worker will do: those in which every
      level that a stream with bounds outside the enum accepts is covered by a stream with bounds inside. */
  lemma TableAgreesIff(table: seq<Stream>)
    ensures (forall level | InEnum(level) :: SomeCovers(table, level) <==> SomeAccepts(table, level)) <==>
            forall i, level | 0 <= i < |table| && InEnum(level) && Accepts(table[i], level) ::
              RangeInEnum(table[i].minimum, table[i].maximum) || SomeCovers(table, level)
  {
    forall i, level | 0 <= i < |table| && InEnum(level) && Accepts(table[i], level)
      ensures SomeAccepts(table, level)
      ensures RangeInEnum(table[i].minimum, table[i].maximum) ==> SomeCovers(table, level)
    {
      assert RangeInEnum(table[i].minimum, table[i].maximum) ==> Covers(table[i], level);
    }
    forall level | InEnum(level) && SomeCovers(table, level)
      ensures SomeAccepts(table, level)
    {
      var i :| 0 <= i < |table| && Covers(table[i], level);
      assert Accepts(table[i], level);
    }
  }

  /** Under either choice a stream from 3 to 7 receives the records of levels 3 to 5, and these levels
      are reported as disabled; beside a stream for all levels it does no harm. */
  lemma BoundsOutsideEnum(isUnsigned: bool)
    ensures var table := [Registered(isUnsigned, "a", 3, 7)];
            forall level | 3 <= level <= LEVEL_FATAL :: SomeAccepts(table, level) && !SomeCovers(table, level)
    ensures var table := [Registered(isUnsigned, "a", 3, 7), Registered(isUnsigned, "b", 0, 5)];
            forall level | InEnum(level) :: SomeCovers(table, level) <==> SomeAccepts(table, level)
  {
    forall level | 3 <= level <= LEVEL_FATAL
      ensures SomeAccepts([Registered(isUnsigned, "a", 3, 7)], level)
    {
      assert Accepts([Registered(isUnsigned, "a", 3, 7)][0], level);
    }
    var table := [Registered(isUnsigned, "a", 3, 7), Registered(isUnsigned, "b", 0, 5)];
    forall level | InEnum(level)
      ensures SomeCovers(table, level)
    {
      assert Covers(table[1], level);
    }
    TableAgreesIff(table);
  }

  /** A negative minimum makes them disagree only where the enum is signed. */
  lemma NegativeMinimum(isUnsigned: bool)
    ensures RangeAgrees(Registered(isUnsigned, "a", -1, 2)) <==> isUnsigned
  {
    CallerRangeDisagreesIff(isUnsigned, "a", -1, 2);
  }

  lemma TableGrows(mask: Mask, range: Mask, table: seq<Stream>, stream: Stream)
    requires MaskAgrees(mask, table)
    requires forall level | InEnum(level) ::
               Bit(range, level) <==> RangeInEnum(stream.minimum, stream.maximum) && Accepts(stream, level)
    ensures MaskAgrees(mask | range, table + [stream])
  {
    var grown := table + [stream];
    forall level | InEnum(level)
      ensures Bit(mask | range, level) <==> exists i | 0 <= i < |grown| :: Covers(grown[i], level)
    {
      UnionBit(mask, range, level);
      if exists i | 0 <= i < |table| :: Covers(table[i], level) {
        var i :| 0 <= i < |table| && Covers(table[i], level);
        assert Covers(grown[i], level);
      }
      if Covers(stream, level) {
        assert Covers(grown[|table|], level);
      }
      if exists i | 0 <= i < |grown| :: Covers(grown[i], level) {
        var i :| 0 <= i < |grown| && Covers(grown[i], level);
        assert i < |table| ==> Covers(table[i], level);
      }
    }
  }

  class StreamTable {
    const streams: array<Stream>
    var count: nat
    var mask: Mask
    var config: Config
    var shutdown: bool

    function Table(): seq<Stream>
      requires count <= streams.Length
      reads this, streams
    {
      streams[..count]
    }

    /** The table is well formed and the mask agrees with it. */
    ghost predicate Valid()
      reads this, streams
    {
      && streams.Length == MAX_STREAMS && count <= MAX_STREAMS
      && WellFormed(Table()) && MaskAgrees(mask, Table())
    }

    constructor (config: Config)
      ensures Valid() && Table() == [] && this.config == config && !shutdown && fresh(streams)
    {
      streams := new Stream[MAX_STREAMS](_ => Stream("", 0, 0));
      count, mask, shutdown := 0, 0, false;
      this.config := config;
      new;
      forall l | InEnum(l) ensures !Bit(0, l) { ZeroBit(l); }
    }

    /** mp_logger_add_owned_stream. */
    method AddStream(stream: Stream, hasWrite: bool) returns (status: Status)
      requires Valid()
      modifies this`count, this`mask, streams
      ensures Valid()
      ensures status == AddStatus(old(Table()), stream, hasWrite)
      ensures Table() == Added(old(Table()), stream, hasWrite)
    {
      if !hasWrite || stream.name == "" {
        return InvalidArgument;
      }
      if count >= MAX_STREAMS {
        return LimitExceeded;
      }
      var index := 0;
      while index < count
        invariant index <= count
        invariant forall i | 0 <= i < index :: streams[i].name != stream.name
      {
        if streams[index].name == stream.name {
          assert Table()[index].name == stream.name;
          return ConfigError;
        }
        index := index + 1;
      }
      TableStaysWellFormed(Table(), stream, hasWrite, config.levels);
      var range := RangeMask(stream.minimum, stream.maximum);
      TableGrows(mask, range, Table(), stream);
      streams[count] := stream;
      count := count + 1;
      assert Table() == old(Table()) + [stream];
      mask := mask | range;
      status := Ok;
    }

    /** mp_logger_refresh_enabled_level_mask: recompute the mask from the table alone. */
    method RefreshMask()
      requires streams.Length == MAX_STREAMS && count <= MAX_STREAMS
      modifies this`mask
      ensures MaskAgrees(mask, Table())
    {
      var index := 0;
      var union: Mask := 0;
      forall l | InEnum(l) ensures !Bit(0, l) { ZeroBit(l); }
      while index < count
        invariant index <= count
        invariant MaskAgrees(union, streams[..index])
      {
        var range := RangeMask(streams[index].minimum, streams[index].maximum);
        TableGrows(union, range, streams[..index], streams[index]);
        assert streams[..index + 1] == streams[..index] + [streams[index]];
        union := union | range;
        index := index + 1;
      }
      mask := union;
    }

    /** mp_logger_configure: the compatible settings and the bounds of the built-in streams change
        together; a rejected request changes nothing. */
    method Configure(request: Config) returns (status: Status)
      requires Valid()
      modifies this`config, this`mask, streams
      ensures Valid()
      ensures status == ConfigureStatus(old(config), request)
      ensures config == Configured(old(config), request)
      ensures Table() == if status == Ok then TunedTable(request.levels, old(Table())) else old(Table())
    {
      status := ConfigureStatus(config, request);
      if status != Ok {
        return;
      }
      config := Configured(config, request);
      var index := 0;
      while index < count
        invariant index <= count == old(count) && config == Configured(old(config), request)
        invariant forall i | 0 <= i < index :: streams[i] == Tuned(request.levels, old(streams[i]))
        invariant forall i | index <= i < count :: streams[i] == old(streams[i])
      {
        streams[index] := Tuned(config.levels, streams[index]);
        index := index + 1;
      }
      assert Table() == TunedTable(request.levels, old(Table()));
      TableStaysWellFormed(old(Table()), Stream("", 0, 0), false, request.levels);
      RefreshMask();
    }

    /** mp_logger_destroy_streams. */
    method Destroy()
      requires Valid()
      modifies this`count, this`mask, streams
      ensures Valid() && Table() == []
    {
      var index := 0;
      while index < count
        invariant index <= count == old(count)
      {
        streams[index] := Stream("", 0, 0);
        index := index + 1;
      }
      count := 0;
      mask := 0;
      forall l | InEnum(l) ensures !Bit(0, l) { ZeroBit(l); }
    }

    /** mp_logger_is_level_enabled: true exactly when the logger is not shut down and some stream,
        with bounds within the enum, would accept the level. */
    method IsLevelEnabled(level: int) returns (enabled: bool)
      requires Valid()
      ensures enabled <==> !shutdown && InEnum(level) && exists i | 0 <= i < |Table()| :: Covers(Table()[i], level)
    {
      if shutdown || level < LEVEL_TRACE || level > LEVEL_FATAL {
        return false;
      }
      return Bit(mask, level);
    }
  }
}
