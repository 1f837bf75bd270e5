/** Writing a table in the format of DMTF DSP0134 and parsing it again. */
module SmbiosRoundTrip {
  import opened Wrappers
  import opened Bytes
  import opened Smbios

  /** A structure as the standard describes it: the formatted area behind type and length, and its strings. */
  datatype Table = Table(kind: byte, body: seq<byte>, strings: seq<seq<byte>>)

  predicate WellFormed(t: Table) {
    && 2 <= |t.body| <= 253
    && forall i :: 0 <= i < |t.strings| ==> t.strings[i] != [] && 0 !in t.strings[i]
  }

  predicate AllWellFormed(tables: seq<Table>) {
    forall i :: 0 <= i < |tables| ==> WellFormed(tables[i])
  }

  function Terminated(strings: seq<seq<byte>>): seq<byte> {
    if strings == [] then [] else Terminated(strings[..|strings| - 1]) + strings[|strings| - 1] + [0]
  }

  /** Section 6.1.3: every string ends in a zero byte, and one more ends the set. */
  function StringSet(strings: seq<seq<byte>>): seq<byte> {
    if strings == [] then [0, 0] else Terminated(strings) + [0]
  }

  function Formatted(t: Table): seq<byte>
    requires WellFormed(t)
  {
    [t.kind, (|t.body| + 2) as byte] + t.body
  }

  function Encode(t: Table): seq<byte>
    requires WellFormed(t)
  {
    Formatted(t) + StringSet(t.strings)
  }

  function EncodeAll(tables: seq<Table>): seq<byte>
    requires AllWellFormed(tables)
  {
    if tables == [] then [] else Encode(tables[0]) + EncodeAll(tables[1..])
  }

  // ----- What a list of structures says

  function StringOf(text: Text, t: Table, index: byte): string {
    if 0 < index as nat <= |t.strings| then text(t.strings[index - 1]) else ""
  }

  /** Field `i` of the formatted area holds a string number. */
  function Named(text: Text, t: Table, i: nat): string
    requires 2 <= i < |t.body| + 2
  {
    StringOf(text, t, t.body[i - 2])
  }

  function Describe(text: Text, system: Partial, t: Table): Partial {
    match t.kind
    case 1 =>
      if |t.body| < 6 then system
      else system.(manufacturer := Named(text, t, 4), model := Named(text, t, 5), serial := Named(text, t, 7))
    case 2 =>
      if |t.body| < 6 then system
      else system.(manufacturer := if system.manufacturer == "" then Named(text, t, 4) else system.manufacturer,
                   model := if system.model == "" then Named(text, t, 5) else system.model,
                   serial := if system.serial == "" then Named(text, t, 7) else system.serial)
    case 3 =>
      if |t.body| < 7 then system
      else system.(chassis := Some(t.body[3] % 0x80), assetTag := Named(text, t, 8))
    case _ => system
  }

  /** The structures taken in order, up to the first end-of-table structure. */
  function DescribeAll(text: Text, system: Partial, tables: seq<Table>): Partial
    decreases |tables|
  {
    if tables == [] || tables[0].kind == END_OF_TABLE then system
    else DescribeAll(text, Describe(text, system, tables[0]), tables[1..])
  }

  // ----- String sets

  lemma {:induction false} TerminatedShape(strings: seq<seq<byte>>)
    requires forall i :: 0 <= i < |strings| ==> strings[i] != [] && 0 !in strings[i]
    ensures strings != [] ==> |Terminated(strings)| >= 2 && Terminated(strings)[|Terminated(strings)| - 1] == 0
    ensures strings != [] ==> Terminated(strings)[0] != 0
    ensures forall i :: 0 <= i ==> !DoubleZero(Terminated(strings), i)
  {
    if strings != [] {
      var init, last := strings[..|strings| - 1], strings[|strings| - 1];
      TerminatedShape(init);
      var before, whole := Terminated(init), Terminated(strings);
      assert whole == before + last + [0] && last[0] != 0;
      forall i | 0 <= i
        ensures !DoubleZero(whole, i)
      {
        if i < |before| {
          assert !DoubleZero(before, i);
        } else if i < |before| + |last| {
          assert whole[i] == last[i - |before|];
        }
      }
    }
  }

  /** Without its last zero byte the set splits back into the strings. */
  lemma {:induction false} TerminatedSplits(strings: seq<seq<byte>>)
    requires strings != [] && forall i :: 0 <= i < |strings| ==> 0 !in strings[i]
    ensures var all := Terminated(strings);
            all != [] && Split(all[..|all| - 1], 0) == strings
  {
    var init, last := strings[..|strings| - 1], strings[|strings| - 1];
    var all := Terminated(strings);
    assert all[..|all| - 1] == Terminated(init) + last;
    SplitUnseparated(last, 0);
    assert strings == init + [last];
    if init == [] {
      assert Terminated(init) + last == last;
    } else {
      TerminatedSplits(init);
      var before := Terminated(init);
      TerminatedEnds(init);
      assert before == before[..|before| - 1] + [0];
      SplitAround(before[..|before| - 1], 0, last);
    }
  }

  lemma TerminatedEnds(strings: seq<seq<byte>>)
    requires strings != []
    ensures Terminated(strings) != [] && Terminated(strings)[|Terminated(strings)| - 1] == 0
  {
  }

  /** The part of the set that the parser slices out. */
  function StringBytes(strings: seq<seq<byte>>): (bytes: seq<byte>)
    ensures StringSet(strings) == bytes + [0, 0]
  {
    if strings == [] then []
    else
      TerminatedEnds(strings);
      var all := Terminated(strings);
      assert all == all[..|all| - 1] + [0];
      all[..|all| - 1]
  }

  lemma IndexedStringOfSet(text: Text, t: Table, index: byte)
    requires WellFormed(t) && text([]) == ""
    ensures IndexedString(text, StringBytes(t.strings), index) == StringOf(text, t, index)
  {
    if t.strings == [] {
      SplitUnseparated([], 0);
    } else {
      TerminatedSplits(t.strings);
    }
  }

  // ----- Pieces of a buffer

  /** `piece` stands at `offset` of the buffer. */
  predicate Holds(whole: seq<byte>, offset: nat, piece: seq<byte>) {
    offset + |piece| <= |whole| && forall i :: 0 <= i < |piece| ==> whole[offset + i] == piece[i]
  }

  lemma HoldsSlice(whole: seq<byte>, offset: nat, piece: seq<byte>)
    requires Holds(whole, offset, piece)
    ensures whole[offset..offset + |piece|] == piece
  {
  }

  lemma HoldsBoth(whole: seq<byte>, offset: nat, first: seq<byte>, second: seq<byte>)
    requires Holds(whole, offset, first + second)
    ensures Holds(whole, offset, first) && Holds(whole, offset + |first|, second)
  {
    var both := first + second;
    assert forall i :: 0 <= i < |first| ==> first[i] == both[i];
    assert forall i :: 0 <= i < |second| ==> second[i] == both[|first| + i];
  }

  /** Wherever a string set stands, its end is found. */
  lemma StringSetEnds(whole: seq<byte>, start: nat, strings: seq<seq<byte>>)
    requires forall i :: 0 <= i < |strings| ==> strings[i] != [] && 0 !in strings[i]
    requires Holds(whole, start, StringSet(strings))
    ensures StringsEnd(whole, start) == Some(start + |StringSet(strings)|)
  {
    var zeros := StringSet(strings);
    TerminatedShape(strings);
    assert zeros[|zeros| - 2] == 0 && zeros[|zeros| - 1] == 0;
    forall i: nat | start <= i < start + |zeros| - 2
      ensures !DoubleZero(whole, i)
    {
      assert !DoubleZero(Terminated(strings), i - start);
      assert zeros[i - start] == whole[i] && zeros[i + 1 - start] == whole[i + 1];
    }
    FirstDoubleZero(whole, start, start + |zeros|);
  }

  lemma FirstDoubleZero(bytes: seq<byte>, start: nat, end: nat)
    requires start + 2 <= end <= |bytes| && DoubleZero(bytes, end - 2)
    requires forall i: nat :: start <= i < end - 2 ==> !DoubleZero(bytes, i)
    ensures StringsEnd(bytes, start) == Some(end)
  {
    var found := StringsEnd(bytes, start);
    assert found.Some?;
    assert !(found.value - 2 < end - 2) && !(end - 2 < found.value - 2);
  }

  // ----- Structures

  lemma StructureInPlace(whole: seq<byte>, offset: nat, formatted: seq<byte>, strings: seq<byte>, end: nat)
    requires Holds(whole, offset, formatted) && 4 <= |formatted| && formatted[1] as nat == |formatted|
    requires Holds(whole, offset + |formatted|, strings) && end == offset + |formatted| + |strings| + 2
    requires StringsEnd(whole, offset + |formatted|) == Some(end)
    ensures offset < |whole| && StructureAt(whole, offset) == Success((Structure(formatted, strings), end))
  {
    assert formatted[1] == whole[offset + 1];
    HoldsSlice(whole, offset, formatted);
    HoldsSlice(whole, offset + |formatted|, strings);
  }

  lemma HeldPieces(whole: seq<byte>, offset: nat, formatted: seq<byte>, strings: seq<byte>)
    requires Holds(whole, offset, formatted + (strings + [0, 0]))
    ensures Holds(whole, offset, formatted)
    ensures Holds(whole, offset + |formatted|, strings + [0, 0])
    ensures Holds(whole, offset + |formatted|, strings)
  {
    HoldsBoth(whole, offset, formatted, strings + [0, 0]);
    HoldsBoth(whole, offset + |formatted|, strings, [0, 0]);
  }

  lemma Pieces(t: Table)
    requires WellFormed(t)
    ensures 4 <= |Formatted(t)| && Formatted(t)[1] as nat == |Formatted(t)| && Formatted(t)[0] == t.kind
    ensures StringSet(t.strings) == StringBytes(t.strings) + [0, 0]
    ensures Encode(t) == Formatted(t) + (StringBytes(t.strings) + [0, 0])
  {
  }

  lemma StructureReadBack(whole: seq<byte>, offset: nat, t: Table)
    requires WellFormed(t) && Holds(whole, offset, Encode(t))
    ensures offset < |whole|
    ensures StructureAt(whole, offset) ==
            Success((Structure(Formatted(t), StringBytes(t.strings)), offset + |Encode(t)|))
  {
    Pieces(t);
    HeldPieces(whole, offset, Formatted(t), StringBytes(t.strings));
    StringSetEnds(whole, offset + |Formatted(t)|, t.strings);
    StructureInPlace(whole, offset, Formatted(t), StringBytes(t.strings), offset + |Encode(t)|);
  }

  lemma AbsorbDescribes(text: Text, system: Partial, t: Table)
    requires WellFormed(t) && text([]) == ""
    ensures Absorb(text, system, Structure(Formatted(t), StringBytes(t.strings))) == Describe(text, system, t)
  {
    forall index: byte
      ensures IndexedString(text, StringBytes(t.strings), index) == StringOf(text, t, index)
    {
      IndexedStringOfSet(text, t, index);
    }
    AbsorbSays(text, system, t, Formatted(t), StringBytes(t.strings));
  }

  /** The fields of the formatted area lie two bytes behind those of the body. */
  lemma AbsorbSays(text: Text, system: Partial, t: Table, f: seq<byte>, strings: seq<byte>)
    requires |f| == |t.body| + 2 >= 4 && f[0] == t.kind && f[2..] == t.body
    requires forall index: byte :: IndexedString(text, strings, index) == StringOf(text, t, index)
    ensures Absorb(text, system, Structure(f, strings)) == Describe(text, system, t)
  {
    assert forall i :: 2 <= i < |f| ==> f[i] == f[2..][i - 2];
  }

  lemma WalkStep(text: Text, whole: seq<byte>, offset: nat, system: Partial, s: Structure, end: nat, absorbed: Partial)
    requires offset < |whole| && StructureAt(whole, offset) == Success((s, end))
    requires absorbed == Absorb(text, system, s)
    ensures ParseFrom(text, whole, offset, system) ==
            if s.formatted[0] == END_OF_TABLE then Success(absorbed) else ParseFrom(text, whole, end, absorbed)
  {
  }

  function Written(t: Table): Structure
    requires WellFormed(t)
  {
    Structure(Formatted(t), StringBytes(t.strings))
  }

  lemma TableRead(whole: seq<byte>, offset: nat, t: Table) returns (s: Structure, end: nat)
    requires WellFormed(t) && Holds(whole, offset, Encode(t))
    ensures s == Written(t) && end == offset + |Encode(t)|
    ensures offset < |whole| && StructureAt(whole, offset) == Success((s, end))
  {
    StructureReadBack(whole, offset, t);
    s, end := Written(t), offset + |Encode(t)|;
  }

  lemma TableDescribed(text: Text, t: Table, system: Partial, s: Structure) returns (described: Partial)
    requires WellFormed(t) && text([]) == "" && s == Written(t)
    ensures described == Describe(text, system, t) && described == Absorb(text, system, s)
    ensures s.formatted[0] == t.kind
  {
    AbsorbDescribes(text, system, t);
    described := Describe(text, system, t);
  }

  lemma TableStep(text: Text, whole: seq<byte>, offset: nat, t: Table, system: Partial)
    returns (s: Structure, end: nat, described: Partial)
    requires WellFormed(t) && text([]) == "" && Holds(whole, offset, Encode(t))
    ensures described == Describe(text, system, t) && end == offset + |Encode(t)|
    ensures offset < |whole| && StructureAt(whole, offset) == Success((s, end))
    ensures s.formatted[0] == t.kind && Absorb(text, system, s) == described
  {
    s, end := TableRead(whole, offset, t);
    described := TableDescribed(text, t, system, s);
  }

  lemma DescribeAllStep(text: Text, tables: seq<Table>, system: Partial)
    requires tables != []
    ensures DescribeAll(text, system, tables) ==
            if tables[0].kind == END_OF_TABLE then Describe(text, system, tables[0])
            else DescribeAll(text, Describe(text, system, tables[0]), tables[1..])
  {
  }

  /** From `offset` to its end the buffer holds these structures. */
  predicate EndsWith(whole: seq<byte>, offset: nat, tables: seq<Table>) {
    && AllWellFormed(tables)
    && Holds(whole, offset, EncodeAll(tables)) && offset + |EncodeAll(tables)| == |whole|
  }

  lemma FirstOf(text: Text, whole: seq<byte>, offset: nat, tables: seq<Table>, system: Partial)
    returns (s: Structure, end: nat, described: Partial)
    requires EndsWith(whole, offset, tables) && tables != [] && text([]) == ""
    ensures described == Describe(text, system, tables[0]) && EndsWith(whole, end, tables[1..])
    ensures offset < |whole| && StructureAt(whole, offset) == Success((s, end))
    ensures s.formatted[0] == tables[0].kind && Absorb(text, system, s) == described
  {
    HoldsBoth(whole, offset, Encode(tables[0]), EncodeAll(tables[1..]));
    s, end, described := TableStep(text, whole, offset, tables[0], system);
  }

  lemma NothingLeft(text: Text, whole: seq<byte>, offset: nat, system: Partial)
    requires EndsWith(whole, offset, [])
    ensures ParseFrom(text, whole, offset, system) == Success(system)
  {
  }

  lemma {:induction false} WalkReadsBack(text: Text, whole: seq<byte>, offset: nat, tables: seq<Table>, system: Partial)
    returns (final: Partial)
    requires text([]) == "" && EndsWith(whole, offset, tables)
    ensures final == DescribeAll(text, system, tables)
    ensures ParseFrom(text, whole, offset, system) == Success(final)
    decreases |tables|
  {
    if tables == [] {
      NothingLeft(text, whole, offset, system);
      final := system;
    } else {
      var s, end, described := FirstOf(text, whole, offset, tables, system);
      WalkStep(text, whole, offset, system, s, end, described);
      DescribeAllStep(text, tables, system);
      if tables[0].kind == END_OF_TABLE {
        final := described;
      } else {
        final := WalkReadsBack(text, whole, end, tables[1..], described);
      }
    }
  }

  /** Parsing a written table gives what its structures say, in order up to the end-of-table
      structure, unless its first bytes happen to look like a wrapper. */
  lemma RoundTrip(text: Text, tables: seq<Table>)
    requires AllWellFormed(tables) && tables != [] && text([]) == ""
    requires !LooksWrapped(EncodeAll(tables))
    ensures Parse(text, EncodeAll(tables)) == Finish(DescribeAll(text, NOTHING, tables))
  {
    var final := WalkReadsBack(text, EncodeAll(tables), 0, tables, NOTHING);
  }

  /** The 8-byte header that Windows puts before a table. */
  function Wrap(method20: byte, version: seq<byte>, table: seq<byte>): seq<byte>
    requires |version| == 3 && |table| < 0x1_0000_0000
  {
    var n := |table|;
    [method20] + version
    + [(n % 0x100) as byte, (n / 0x100 % 0x100) as byte, (n / 0x1_0000 % 0x100) as byte, (n / 0x100_0000) as byte]
    + table
  }

  lemma LittleEndianReadsBack(n: nat)
    requires n < 0x1_0000_0000
    ensures LittleEndian([(n % 0x100) as byte, (n / 0x100 % 0x100) as byte,
                          (n / 0x1_0000 % 0x100) as byte, (n / 0x100_0000) as byte]) == n
  {
    var low, middle, high := n / 0x100, n / 0x1_0000, n / 0x100_0000;
    assert n == 0x100 * low + n % 0x100;
    assert middle == low / 0x100 && low == 0x100 * middle + low % 0x100;
    assert high == middle / 0x100 && middle == 0x100 * high + middle % 0x100;
  }

  lemma WrappedPayload(method20: byte, version: seq<byte>, table: seq<byte>, trailing: seq<byte>)
    requires |version| == 3 && version[0] >= 2 && 0 < |table| < 0x1_0000_0000
    ensures TablePayload(Wrap(method20, version, table) + trailing) == table
  {
    var raw, n := Wrap(method20, version, table) + trailing, |table|;
    LittleEndianReadsBack(n);
    assert raw[4..8] == [(n % 0x100) as byte, (n / 0x100 % 0x100) as byte,
                         (n / 0x1_0000 % 0x100) as byte, (n / 0x100_0000) as byte];
    assert raw[1] == version[0];
    assert raw[WRAPPER..WRAPPER + n] == table;
  }

  /** A wrapped table of major version two or later is always read through its wrapper, and bytes
      behind its declared end are not looked at. */
  lemma WrappedRoundTrip(text: Text, method20: byte, version: seq<byte>, tables: seq<Table>, trailing: seq<byte>)
    requires AllWellFormed(tables) && tables != [] && text([]) == ""
    requires |version| == 3 && version[0] >= 2 && |EncodeAll(tables)| < 0x1_0000_0000
    ensures Parse(text, Wrap(method20, version, EncodeAll(tables)) + trailing) ==
            Finish(DescribeAll(text, NOTHING, tables))
  {
    var table := EncodeAll(tables);
    assert |Encode(tables[0])| > 0;
    WrappedPayload(method20, version, table, trailing);
    var final := WalkReadsBack(text, table, 0, tables, NOTHING);
  }

  /** `raw` is a header of major version two or later that declares exactly `table`, and more bytes. */
  predicate Wraps(raw: seq<byte>, header: seq<byte>, table: seq<byte>, trailing: seq<byte>) {
    && raw == header + table + trailing
    && |header| == WRAPPER && header[1] >= 2 && table != []
    && LittleEndian(header[4..8]) == |table|
  }

  /** Something else than the whole buffer is taken for the table exactly when the buffer is a header
      followed by that table, of the declared length, and any bytes. */
  lemma PayloadIffWraps(raw: seq<byte>, table: seq<byte>)
    ensures TablePayload(raw) == table && table != raw <==>
            exists header: seq<byte>, trailing: seq<byte> :: Wraps(raw, header, table, trailing)
  {
    if LooksWrapped(raw) {
      var n := LittleEndian(raw[4..8]);
      var header, trailing := raw[..WRAPPER], raw[WRAPPER + n..];
      assert header[4..8] == raw[4..8];
      assert Wraps(raw, header, raw[WRAPPER..WRAPPER + n], trailing);
    }
    if header: seq<byte>, trailing: seq<byte> :| Wraps(raw, header, table, trailing) {
      assert raw[4..8] == header[4..8] && raw[1] == header[1];
      assert raw[WRAPPER..WRAPPER + |table|] == table;
    }
  }

  /** The condition on unwrapped tables is needed: whatever well-formed structures follow, a
      first structure with a small number in its bytes 4 to 7 hides all of them. */
  lemma TableMistakenForWrapper(text: Text, rest: seq<Table>)
    requires AllWellFormed(rest)
    ensures var tables := [Table(0, [0, 0, 1, 0, 0, 0], [])] + rest;
            && AllWellFormed(tables)
            && LooksWrapped(EncodeAll(tables))
            && Parse(text, EncodeAll(tables)) == Failure(Truncated(0))
            && DescribeAll(text, NOTHING, tables) == DescribeAll(text, NOTHING, rest)
  {
    var first := Table(0, [0, 0, 1, 0, 0, 0], []);
    var tables := [first] + rest;
    assert tables[1..] == rest;
    var raw := EncodeAll(tables);
    assert Encode(first) == [0, 8, 0, 0, 1, 0, 0, 0, 0, 0];
    assert raw == [0, 8, 0, 0, 1, 0, 0, 0, 0, 0] + EncodeAll(rest);
    assert raw[4..8] == [1, 0, 0, 0];
    assert LittleEndian(raw[4..8]) == 1;
  }
}
