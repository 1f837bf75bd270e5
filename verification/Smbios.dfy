/** Parsing the system and chassis structures of an SMBIOS table (spotter-core/src/smbios.rs);
    structures and string sets as in sections 6.1.2 and 6.1.3 of DMTF DSP0134. */
module Smbios {
  import opened Wrappers
  import opened Bytes

  datatype SystemInfo = SystemInfo(manufacturer: string, model: string, serial: string, assetTag: string, chassis: byte)

  datatype ParseError =
    | Empty
    | Truncated(offset: nat)
    | InvalidLength(offset: nat)
    | UnterminatedStrings(offset: nat)
    | MissingSystem
    | MissingChassis

  /** What has been collected so far. */
  datatype Partial = Partial(
    manufacturer: string,
    model: string,
    serial: string,
    assetTag: string,
    chassis: Option<byte>)

  const NOTHING := Partial("", "", "", "", None)

  /** Lossy decoding and trimming of one string; only the empty string matters here. */
  type Text = seq<byte> -> string

  const WRAPPER: nat := 8
  const END_OF_TABLE: byte := 127

  predicate IsPortable(chassis: byte) {
    chassis in {8, 9, 10, 11, 12, 14, 30, 31, 32}
  }

  // ----- One structure

  predicate DoubleZero(bytes: seq<byte>, i: nat) {
    i + 1 < |bytes| && bytes[i] == 0 && bytes[i + 1] == 0
  }

  /** Behind the first two zero bytes at or after `start`. */
  function StringsEnd(bytes: seq<byte>, start: nat): (end: Option<nat>)
    ensures end.Some? ==>
              && start + 2 <= end.value <= |bytes| && DoubleZero(bytes, end.value - 2)
              && forall i :: start <= i < end.value - 2 ==> !DoubleZero(bytes, i)
    ensures end.None? ==> forall i :: start <= i ==> !DoubleZero(bytes, i)
    decreases |bytes| - start
  {
    if start + 1 >= |bytes| then None
    else if DoubleZero(bytes, start) then Some(start + 2)
    else StringsEnd(bytes, start + 1)
  }

  method FindStringsEnd(bytes: seq<byte>, start: nat) returns (end: Option<nat>)
    ensures end == StringsEnd(bytes, start)
  {
    if start >= |bytes| {
      return None;
    }
    var cursor := start;
    while cursor + 1 < |bytes|
      invariant start <= cursor < |bytes|
      invariant StringsEnd(bytes, start) == StringsEnd(bytes, cursor)
    {
      if bytes[cursor] == 0 && bytes[cursor + 1] == 0 {
        return Some(cursor + 2);
      }
      cursor := cursor + 1;
    }
    end := None;
  }

  function IndexedString(text: Text, strings: seq<byte>, index: byte): string {
    if index == 0 then ""
    else
      var pieces := Split(strings, 0);
      if index as nat - 1 < |pieces| then text(pieces[index - 1]) else ""
  }

  function FillIfEmpty(present: string, fallback: string): string {
    if present == "" then fallback else present
  }

  datatype Structure = Structure(formatted: seq<byte>, strings: seq<byte>)

  /** The structure at `offset` and the offset behind its strings. */
  function StructureAt(tables: seq<byte>, offset: nat): (r: Result<(Structure, nat), ParseError>)
    requires offset < |tables|
    ensures r.Success? ==> offset < r.value.1 <= |tables| && 4 <= |r.value.0.formatted|
    ensures r.Success? ==> r.value.0.formatted[1] as nat == |r.value.0.formatted|
  {
    if |tables| - offset < 4 then Failure(Truncated(offset))
    else
      var length := tables[offset + 1];
      if length < 4 then Failure(InvalidLength(offset))
      else if offset + length > |tables| then Failure(Truncated(offset))
      else
        match StringsEnd(tables, offset + length)
        case None => Failure(UnterminatedStrings(offset))
        case Some(end) =>
          Success((Structure(tables[offset..offset + length], tables[offset + length..end - 2]), end))
  }

  /** Type 1 overwrites, Type 2 fills blanks, Type 3 sets the chassis. */
  function Absorb(text: Text, system: Partial, s: Structure): Partial
    requires 4 <= |s.formatted|
  {
    var f := s.formatted;
    if f[0] == 1 && |f| >= 8 then
      system.(manufacturer := IndexedString(text, s.strings, f[4]),
              model := IndexedString(text, s.strings, f[5]),
              serial := IndexedString(text, s.strings, f[7]))
    else if f[0] == 2 && |f| >= 8 then
      system.(manufacturer := FillIfEmpty(system.manufacturer, IndexedString(text, s.strings, f[4])),
              model := FillIfEmpty(system.model, IndexedString(text, s.strings, f[5])),
              serial := FillIfEmpty(system.serial, IndexedString(text, s.strings, f[7])))
    else if f[0] == 3 && |f| >= 9 then
      system.(chassis := Some(f[5] % 0x80), assetTag := IndexedString(text, s.strings, f[8]))
    else system
  }

  // ----- The walk

  function ParseFrom(text: Text, tables: seq<byte>, offset: nat, system: Partial): Result<Partial, ParseError>
    decreases |tables| - offset
  {
    if offset >= |tables| then Success(system)
    else
      var (s, end) :- StructureAt(tables, offset);
      var absorbed := Absorb(text, system, s);
      if s.formatted[0] == END_OF_TABLE then Success(absorbed) else ParseFrom(text, tables, end, absorbed)
  }

  function Finish(system: Partial): Result<SystemInfo, ParseError> {
    if system.manufacturer == "" || system.model == "" || system.serial == "" then Failure(MissingSystem)
    else if system.chassis.None? then Failure(MissingChassis)
    else Success(SystemInfo(system.manufacturer, system.model, system.serial, system.assetTag, system.chassis.value))
  }

  function LittleEndian(b: seq<byte>): nat
    requires |b| == 4
  {
    b[0] as nat + 0x100 * b[1] as nat + 0x1_0000 * b[2] as nat + 0x100_0000 * b[3] as nat
  }

  /** The buffer carries a header whose declared length fits. */
  predicate LooksWrapped(raw: seq<byte>) {
    |raw| >= WRAPPER && raw[1] >= 2 && 0 < LittleEndian(raw[4..8]) <= |raw| - WRAPPER
  }

  function TablePayload(raw: seq<byte>): seq<byte> {
    if LooksWrapped(raw) then raw[WRAPPER..WRAPPER + LittleEndian(raw[4..8])] else raw
  }

  function Parse(text: Text, raw: seq<byte>): Result<SystemInfo, ParseError> {
    if raw == [] then Failure(Empty)
    else
      var system :- ParseFrom(text, TablePayload(raw), 0, NOTHING);
      Finish(system)
  }

  method ReadStructure(tables: seq<byte>, offset: nat) returns (r: Result<(Structure, nat), ParseError>)
    requires offset < |tables|
    ensures r == StructureAt(tables, offset)
  {
    if |tables| - offset < 4 {
      return Failure(Truncated(offset));
    }
    var length := tables[offset + 1];
    if length < 4 {
      return Failure(InvalidLength(offset));
    }
    var formattedEnd := offset + length;
    if formattedEnd > |tables| {
      return Failure(Truncated(offset));
    }
    var stringsEnd := FindStringsEnd(tables, formattedEnd);
    if stringsEnd.None? {
      return Failure(UnterminatedStrings(offset));
    }
    var s := Structure(tables[offset..formattedEnd], tables[formattedEnd..stringsEnd.value - 2]);
    r := Success((s, stringsEnd.value));
  }

  /** The parser: every access is in bounds and every round moves the offset forward. */
  method ParseSmbiosTables(text: Text, raw: seq<byte>) returns (result: Result<SystemInfo, ParseError>)
    ensures result == Parse(text, raw)
  {
    if raw == [] {
      return Failure(Empty);
    }
    var tables := TablePayload(raw);
    var system := NOTHING;
    var offset := 0;
    while offset < |tables|
      invariant ParseFrom(text, tables, 0, NOTHING) == ParseFrom(text, tables, offset, system)
      decreases |tables| - offset
    {
      var read := ReadStructure(tables, offset);
      if read.Failure? {
        return Failure(read.error);
      }
      var (s, stringsEnd) := read.value;
      system := AbsorbStructure(text, system, s);
      if s.formatted[0] == END_OF_TABLE {
        return Finish(system);
      }
      offset := stringsEnd;
    }
    result := Finish(system);
  }

  method AbsorbStructure(text: Text, system: Partial, s: Structure) returns (after: Partial)
    requires 4 <= |s.formatted|
    ensures after == Absorb(text, system, s)
  {
    after := system;
    match s.formatted[0] {
      case 1 =>
        if |s.formatted| >= 8 {
          after := after.(manufacturer := IndexedString(text, s.strings, s.formatted[4]));
          after := after.(model := IndexedString(text, s.strings, s.formatted[5]));
          after := after.(serial := IndexedString(text, s.strings, s.formatted[7]));
        }
      case 2 =>
        if |s.formatted| >= 8 {
          var manufacturer := IndexedString(text, s.strings, s.formatted[4]);
          after := after.(manufacturer := FillIfEmpty(after.manufacturer, manufacturer));
          after := after.(model := FillIfEmpty(after.model, IndexedString(text, s.strings, s.formatted[5])));
          after := after.(serial := FillIfEmpty(after.serial, IndexedString(text, s.strings, s.formatted[7])));
        }
      case 3 =>
        if |s.formatted| >= 9 {
          after := after.(chassis := Some(s.formatted[5] % 0x80));
          after := after.(assetTag := IndexedString(text, s.strings, s.formatted[8]));
        }
      case _ =>
    }
  }
}
