/** Splitting the comma-separated list of built-in streams. */
module StreamList {
  import opened Sequences
  import opened Records
  import opened CStrings
  import opened Scanning
  import opened Trimming
  import opened ConfigText
  import opened Config

  const STREAM_NAME_CAPACITY: nat := 32

  // The reference: split at commas, trim, drop what is empty.

  function NameOf(piece: string): seq<string> {
    if TrimTo(piece, STREAM_NAME_CAPACITY) == "" then [] else [TrimTo(piece, STREAM_NAME_CAPACITY)]
  }

  function NamesOf(pieces: seq<string>): seq<string> {
    if pieces == [] then [] else NameOf(pieces[0]) + NamesOf(pieces[1..])
  }

  function Pieces(list: string): seq<string> {
    SplitOn(TrimTo(list, ACTIVE_STREAMS_CAPACITY), ',')
  }

  /** The pieces that are looked at: an empty last piece is not. */
  function Visited(pieces: seq<string>): seq<string>
    requires |pieces| >= 1
  {
    if pieces[|pieces| - 1] == "" then pieces[..|pieces| - 1] else pieces
  }

  /** The split fails when the table is full before the last visited piece, even if the pieces that
      remain are blank. */
  predicate Succeeds(pieces: seq<string>, maxNames: nat)
    requires |pieces| >= 1
  {
    var visited := Visited(pieces);
    visited == [] || |NamesOf(visited[..|visited| - 1])| < maxNames
  }

  // The loop, on values.

  function Walk(rest: string, found: seq<string>, maxNames: nat): Option<seq<string>>
    decreases |rest|
  {
    if rest == "" then Some(found)
    else if |found| >= maxNames then None
    else
      var n := Find(rest, ',');
      var next := found + NameOf(rest[..n]);
      if n == |rest| then Some(next) else Walk(rest[n + 1..], next, maxNames)
  }

  lemma {:induction false} NamesAppend(a: seq<string>, b: seq<string>)
    ensures NamesOf(a + b) == NamesOf(a) + NamesOf(b)
  {
    if a == [] {
      assert a + b == b;
    } else {
      assert (a + b)[1..] == a[1..] + b;
      NamesAppend(a[1..], b);
    }
  }

  lemma {:induction false} SomeVisited(pieces: seq<string>)
    requires |pieces| >= 1
    ensures Visited(pieces) == [] <==> pieces == [""]
  {
    if |pieces| == 1 {
      assert pieces == [pieces[0]];
    }
  }

  /** How many names stand before the last visited piece. */
  function Needed(pieces: seq<string>): nat
    requires |pieces| >= 1 && pieces != [""]
  {
    SomeVisited(pieces);
    |NamesOf(Visited(pieces)[..|Visited(pieces)| - 1])|
  }

  /** The pieces of a list that goes on after its first comma. */
  lemma {:induction false} VisitedCons(piece: string, pieces: seq<string>, maxNames: nat)
    requires |pieces| >= 1
    ensures Succeeds([piece] + pieces, maxNames) <==>
            if pieces == [""] then maxNames > 0 else |NameOf(piece)| + Needed(pieces) < maxNames
  {
    var v := Visited(pieces);
    SomeVisited(pieces);
    VisitedOfCons(piece, pieces);
    if v != [] {
      var init := v[..|v| - 1];
      assert ([piece] + v)[..|v|] == [piece] + init;
      NamesOfCons(piece, init);
    } else {
      assert ([piece] + v)[..|v|] == [];
    }
  }

  lemma {:induction false} VisitedOfCons(piece: string, pieces: seq<string>)
    requires |pieces| >= 1
    ensures Visited([piece] + pieces) == [piece] + Visited(pieces)
  {
  }

  lemma {:induction false} BlankSplit(s: string)
    ensures SplitOn(s, ',') == [""] <==> s == ""
  {
    JoinOfSplit(s, ',');
  }

  lemma {:induction false} NamesOfCons(piece: string, pieces: seq<string>)
    ensures NamesOf([piece] + pieces) == NameOf(piece) + NamesOf(pieces)
  {
    assert ([piece] + pieces)[1..] == pieces;
  }

  lemma {:induction false} WalkPastComma(rest: string, room: nat)
    requires Find(rest, ',') < |rest|
    ensures var piece, more := rest[..Find(rest, ',')], rest[Find(rest, ',') + 1..];
            var later := SplitOn(more, ',');
            && (more != "" <==> later != [""])
            && NamesOf(SplitOn(rest, ',')) == NameOf(piece) + NamesOf(later)
            && (Succeeds(SplitOn(rest, ','), room) <==>
                  if later == [""] then room > 0 else |NameOf(piece)| + Needed(later) < room)
  {
    var piece, more := rest[..Find(rest, ',')], rest[Find(rest, ',') + 1..];
    SplitUnfolds(rest, ',');
    BlankSplit(more);
    VisitedCons(piece, SplitOn(more, ','), room);
    NamesOfCons(piece, SplitOn(more, ','));
  }

  /** Room for the names still to come. */
  function Room(found: seq<string>, maxNames: nat): nat {
    maxNames - Min(|found|, maxNames)
  }

  /** One turn of the walk, at a comma. */
  lemma {:induction false} WalkTurns(rest: string, found: seq<string>, maxNames: nat)
    requires Find(rest, ',') < |rest| && |found| < maxNames
    ensures Walk(rest, found, maxNames) ==
            Walk(rest[Find(rest, ',') + 1..], found + NameOf(rest[..Find(rest, ',')]), maxNames)
  {
  }

  /** Its last turn. */
  lemma {:induction false} WalkEnds(rest: string, found: seq<string>, maxNames: nat)
    requires Find(rest, ',') == |rest|
    ensures Walk(rest, found, maxNames) ==
            if rest == "" then Some(found) else if |found| >= maxNames then None else Some(found + NameOf(rest))
  {
    assert rest[..|rest|] == rest;
  }

  /** What the split of the rest should add to the names found. */
  function Reference(rest: string, found: seq<string>, maxNames: nat): Option<seq<string>> {
    if Succeeds(SplitOn(rest, ','), Room(found, maxNames)) then Some(found + NamesOf(SplitOn(rest, ','))) else None
  }

  lemma {:induction false} ReferenceTurns(rest: string, found: seq<string>, maxNames: nat)
    requires Find(rest, ',') < |rest| && |found| < maxNames
    ensures Reference(rest, found, maxNames) ==
            Reference(rest[Find(rest, ',') + 1..], found + NameOf(rest[..Find(rest, ',')]), maxNames)
  {
    var piece, more := rest[..Find(rest, ',')], rest[Find(rest, ',') + 1..];
    WalkPastComma(rest, Room(found, maxNames));
    SucceedsLater(more, found, NameOf(piece), maxNames);
    Associate(found, NameOf(piece), NamesOf(SplitOn(more, ',')));
  }

  lemma {:induction false} ReferenceEnds(rest: string, found: seq<string>, maxNames: nat)
    requires Find(rest, ',') == |rest|
    ensures Reference(rest, found, maxNames) ==
            if rest == "" then Some(found) else if |found| >= maxNames then None else Some(found + NameOf(rest))
  {
    OnePiece(rest);
    assert found + [] == found;
  }

  lemma {:induction false} NoRoomLeft(rest: string, found: seq<string>, maxNames: nat)
    requires Find(rest, ',') < |rest| && |found| >= maxNames
    ensures Walk(rest, found, maxNames) == None == Reference(rest, found, maxNames)
  {
    WalkPastComma(rest, 0);
  }

  lemma {:induction false} EndAgrees(rest: string, found: seq<string>, maxNames: nat)
    requires Find(rest, ',') == |rest|
    ensures Walk(rest, found, maxNames) == Reference(rest, found, maxNames)
  {
    WalkEnds(rest, found, maxNames);
    ReferenceEnds(rest, found, maxNames);
  }

  lemma {:induction false} TurnAgrees(rest: string, found: seq<string>, maxNames: nat, more: string, next: seq<string>)
    requires Find(rest, ',') < |rest| && |found| < maxNames
    requires more == rest[Find(rest, ',') + 1..] && next == found + NameOf(rest[..Find(rest, ',')])
    requires Walk(more, next, maxNames) == Reference(more, next, maxNames)
    ensures Walk(rest, found, maxNames) == Reference(rest, found, maxNames)
  {
    WalkTurns(rest, found, maxNames);
    ReferenceTurns(rest, found, maxNames);
  }

  /** The walk gives all the names, or fails exactly when the reference says so. */
  lemma {:induction false} WalkIsReference(rest: string, found: seq<string>, maxNames: nat)
    ensures Walk(rest, found, maxNames) == Reference(rest, found, maxNames)
    decreases |rest|
  {
    if Find(rest, ',') == |rest| {
      EndAgrees(rest, found, maxNames);
    } else if |found| >= maxNames {
      NoRoomLeft(rest, found, maxNames);
    } else {
      var more, next := rest[Find(rest, ',') + 1..], found + NameOf(rest[..Find(rest, ',')]);
      WalkIsReference(more, next, maxNames);
      TurnAgrees(rest, found, maxNames, more, next);
    }
  }

  lemma {:induction false} SucceedsLater(later: string, found: seq<string>, name: seq<string>, maxNames: nat)
    requires |found| < maxNames && |name| <= 1
    ensures var pieces := SplitOn(later, ',');
            Succeeds(pieces, Room(found + name, maxNames)) <==>
            (pieces == [""] || |name| + Needed(pieces) < Room(found, maxNames))
  {
    SomeVisited(SplitOn(later, ','));
  }

  lemma {:induction false} OnePiece(rest: string)
    requires Find(rest, ',') == |rest|
    ensures SplitOn(rest, ',') == [rest] && NamesOf([rest]) == NameOf(rest)
    ensures forall room: nat :: Succeeds([rest], room) <==> rest == "" || room > 0
    ensures NameOf("") == []
  {
    assert [rest][1..] == [] && [rest][..0] == [];
  }

  // The source's loop, on buffers.

  ghost predicate NamesHeld(names: seq<char>, found: seq<string>) {
    forall i | 0 <= i < |found| ::
      |found[i]| < STREAM_NAME_CAPACITY && TextIn(names, i * STREAM_NAME_CAPACITY, found[i])
  }

  lemma NamesSurvive(before: seq<char>, after: seq<char>, found: seq<string>)
    requires NamesHeld(before, found) && |before| == |after|
    requires forall x | 0 <= x < |found| * STREAM_NAME_CAPACITY && x < |before| :: after[x] == before[x]
    ensures NamesHeld(after, found)
  {
    forall i | 0 <= i < |found|
      ensures |found[i]| < STREAM_NAME_CAPACITY && TextIn(after, i * STREAM_NAME_CAPACITY, found[i])
    {
      assert TextIn(before, i * STREAM_NAME_CAPACITY, found[i]);
    }
  }

  /** mp_logger_split_stream_list: the names in order, never written past the table; or failure
      exactly when the reference fails. */
  method SplitStreamList(active: array<char>, ghost list: string, names: array<char>, maxNames: nat)
    returns (ok: bool, count: nat)
    requires TextIn(active[..], 0, list) && active != names
    requires names.Length == maxNames * STREAM_NAME_CAPACITY
    modifies names
    ensures ok <==> Succeeds(Pieces(list), maxNames)
    ensures ok ==> count == |NamesOf(Pieces(list))| <= maxNames && NamesHeld(names[..], NamesOf(Pieces(list)))
    ensures !ok ==> count == 0
  {
    count := 0;
    ghost var text := TrimTo(list, ACTIVE_STREAMS_CAPACITY);
    WalkIsReference(text, [], maxNames);
    assert [] + NamesOf(Pieces(list)) == NamesOf(Pieces(list));
    TextAsArray(active, 0, list);
    if active[0] == '\0' {
      assert list == "" && text == "";
      return true, 0;
    }
    var buffer := new char[ACTIVE_STREAMS_CAPACITY];
    CopyTrimmed(buffer, 0, ACTIVE_STREAMS_CAPACITY, active, 0, list);
    var found: nat;
    ok, found := WalkBuffer(buffer, text, names, maxNames);
    count := if ok then found else 0;
  }

  /** The loop has succeeded with these names in the table, or failed. */
  ghost predicate Holds(goal: Option<seq<string>>, ok: bool, count: nat, maxNames: nat, names: seq<char>) {
    && (ok <==> goal.Some?)
    && (ok ==> count == |goal.value| <= maxNames && NamesHeld(names, goal.value))
  }

  method WalkBuffer(buffer: array<char>, ghost text: string, names: array<char>, maxNames: nat)
    returns (ok: bool, count: nat)
    requires TextIn(buffer[..], 0, text) && buffer != names
    requires names.Length == maxNames * STREAM_NAME_CAPACITY
    modifies buffer, names
    ensures Holds(Walk(text, [], maxNames), ok, count, maxNames, names[..])
  {
    count := 0;
    var cursor: nat := 0;
    ghost var rest := text;
    ghost var found: seq<string> := [];
    ghost var goal := Walk(text, [], maxNames);
    ok := true;
    StartsText(buffer, cursor, rest);
    while buffer[cursor] != '\0'
      invariant TextIn(buffer[..], cursor, rest) && cursor < buffer.Length && (rest == "" <==> buffer[cursor] == '\0')
      invariant goal == Walk(rest, found, maxNames)
      invariant count == |found| <= maxNames && NamesHeld(names[..], found) && ok
      decreases |rest|
    {
      if count >= maxNames {
        return false, 0;
      }
      var n: nat, comma: bool;
      n, comma, count, found, rest := TakePiece(buffer, cursor, rest, names, maxNames, count, found);
      if !comma {
        return true, count;
      }
      cursor := cursor + n + 1;
      StartsText(buffer, cursor, rest);
    }
  }

  lemma StartsText(buffer: array<char>, cursor: nat, rest: string)
    requires TextIn(buffer[..], cursor, rest)
    ensures cursor < buffer.Length && (rest == "" <==> buffer[cursor] == '\0')
  {
    TextAsArray(buffer, cursor, rest);
    assert rest != "" ==> buffer[cursor + 0] == rest[0];
  }

  /** One turn of the loop: cuts off the next piece and stores its name. */
  method TakePiece(buffer: array<char>, cursor: nat, ghost rest: string, names: array<char>, maxNames: nat,
                   count: nat, ghost found: seq<string>)
    returns (n: nat, comma: bool, count': nat, ghost found': seq<string>, ghost rest': string)
    requires TextIn(buffer[..], cursor, rest) && buffer != names
    requires names.Length == maxNames * STREAM_NAME_CAPACITY
    requires count == |found| < maxNames && NamesHeld(names[..], found) && rest != ""
    modifies buffer, names
    ensures count' == |found'| <= maxNames && NamesHeld(names[..], found')
    ensures if comma then
              && TextIn(buffer[..], cursor + n + 1, rest') && |rest'| < |rest|
              && Walk(rest', found', maxNames) == Walk(rest, found, maxNames)
            else
              Walk(rest, found, maxNames) == Some(found')
  {
    n, comma := CutPiece(buffer, cursor, ',', rest);
    count', found' := StoreName(buffer, cursor, rest[..n], names, maxNames, count, found);
    if comma {
      WalkTurns(rest, found, maxNames);
      rest' := rest[n + 1..];
    } else {
      WalkEnds(rest, found, maxNames);
      assert rest[..n] == rest;
      rest' := "";
    }
  }

  /** Trims one piece into the next table entry and counts it unless it is empty. */
  method StoreName(buffer: array<char>, cursor: nat, ghost piece: string, names: array<char>, maxNames: nat,
                   count: nat, ghost found: seq<string>)
    returns (count': nat, ghost found': seq<string>)
    requires TextIn(buffer[..], cursor, piece) && buffer != names
    requires names.Length == maxNames * STREAM_NAME_CAPACITY
    requires count == |found| < maxNames && NamesHeld(names[..], found)
    modifies names
    ensures found' == found + NameOf(piece) && count' == |found'| <= maxNames && NamesHeld(names[..], found')
  {
    ghost var before := names[..];
    CopyTrimmed(names, count * STREAM_NAME_CAPACITY, STREAM_NAME_CAPACITY, buffer, cursor, piece);
    NamesSurvive(before, names[..], found);
    ghost var name := TrimTo(piece, STREAM_NAME_CAPACITY);
    TextAsArray(names, count * STREAM_NAME_CAPACITY, name);
    assert name != "" ==> names[count * STREAM_NAME_CAPACITY + 0] == name[0];
    found' := found + NameOf(piece);
    if names[count * STREAM_NAME_CAPACITY] != '\0' {
      assert name != "";
      count' := count + 1;
    } else {
      assert name == "";
      count' := count;
    }
  }

  // Joining and splitting.

  predicate IsName(name: string) {
    name != "" && Trimmed(name) && |name| < STREAM_NAME_CAPACITY && !Occurs(name, ',')
  }

  /** Which pieces a name of the table holds whole. */
  lemma NameIsWholeIff(piece: string)
    requires Trimmed(piece)
    ensures NameOf(piece) == [piece] <==> piece != "" && |piece| < 32
  {
    TrimmedIsFixed(piece);
    assert |piece| < 32 ==> Cut(piece, STREAM_NAME_CAPACITY) == piece;
    assert NameOf(piece) == [piece] ==> NameOf(piece)[0] == piece;
  }

  lemma {:induction false} GoodNamesAreKept(names: seq<string>)
    requires forall i | 0 <= i < |names| :: IsName(names[i])
    ensures NamesOf(names) == names
  {
    if names != [] {
      TrimmedIsFixed(names[0]);
      assert Cut(names[0], STREAM_NAME_CAPACITY) == names[0];
      GoodNamesAreKept(names[1..]);
      assert [names[0]] + names[1..] == names;
    }
  }

  lemma {:induction false} JoinedIsTrimmed(names: seq<string>)
    requires |names| >= 1 && forall i | 0 <= i < |names| :: IsName(names[i])
    ensures Join(names, ',') != "" && Trimmed(Join(names, ','))
  {
    if |names| > 1 {
      JoinedIsTrimmed(names[1..]);
    }
  }

  lemma {:induction false} PiecesOfJoined(names: seq<string>)
    requires 1 <= |names| && forall i | 0 <= i < |names| :: IsName(names[i])
    requires |Join(names, ',')| < ACTIVE_STREAMS_CAPACITY
    ensures Pieces(Join(names, ',')) == names
  {
    var list := Join(names, ',');
    JoinedIsTrimmed(names);
    TrimmedIsFixed(list);
    assert TrimTo(list, ACTIVE_STREAMS_CAPACITY) == list;
    SplitOfJoin(names, ',');
  }

  /** Up to eight proper names, joined with commas, split into the same names. */
  lemma {:induction false} SplitOfJoinedNames(names: seq<string>)
    requires 1 <= |names| <= 8 && forall i | 0 <= i < |names| :: IsName(names[i])
    requires |Join(names, ',')| < ACTIVE_STREAMS_CAPACITY
    ensures Succeeds(Pieces(Join(names, ',')), 8) && NamesOf(Pieces(Join(names, ','))) == names
  {
    assert Pieces(Join(names, ',')) == names by {
      PiecesOfJoined(names);
    }
    GoodNamesAreKept(names);
    LastIsNeeded(names);
  }

  lemma {:induction false} LastIsNeeded(names: seq<string>)
    requires 1 <= |names| <= 8 && forall i | 0 <= i < |names| :: IsName(names[i])
    ensures Succeeds(names, 8)
  {
    assert names[|names| - 1] != "";
    assert Visited(names) == names;
    var init := names[..|names| - 1];
    assert forall i | 0 <= i < |init| :: init[i] == names[i];
    GoodNamesAreKept(init);
  }
}
