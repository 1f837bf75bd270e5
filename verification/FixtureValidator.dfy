/** The second, independent SMBIOS walker: the fixture validator of
    scripts/hardware/validate_physical_fixture.py, and its agreement with the parser. */
module FixtureValidator {
  import opened Wrappers
  import opened Bytes
  import opened Smbios

  /** One of the sixteen fixed categories, by its place in alphabetical order, or any other name. */
  datatype Category = Listed(place: nat) | Unlisted(name: string)

  const LISTED: nat := 16

  const FIXTURE_TOO_LARGE := Listed(2)
  const SMBIOS_INVALID_STRUCTURE_LENGTH := Listed(5)
  const SMBIOS_INVALID_WRAPPER := Listed(6)
  const SMBIOS_TRUNCATED_STRUCTURE := Listed(8)
  const SMBIOS_TYPE1_UUID_UNAVAILABLE := Listed(9)
  const SMBIOS_UNTERMINATED_STRINGS := Listed(10)
  const SMBIOS_UUID_NOT_REDACTED := Listed(11)

  const MAX_DIAGNOSTICS: nat := 16
  const MAX_FIXTURE_BYTES: nat := 0x10_0000

  // ----- Bounded diagnostics

  function AtMostTwo(category: Category, count: nat): seq<Category> {
    if count == 0 then [] else if count == 1 then [category] else [category, category]
  }

  /** At most two of each of the first `n` categories. */
  function Expanded(counts: multiset<Category>, n: nat): seq<Category> {
    if n == 0 then [] else Expanded(counts, n - 1) + AtMostTwo(Listed(n - 1), counts[Listed(n - 1)])
  }

  /** What a list of diagnostics is reduced to. */
  function Kept(categories: seq<Category>): seq<Category> {
    var all := Expanded(multiset(categories), LISTED);
    if |all| <= MAX_DIAGNOSTICS then all else all[..MAX_DIAGNOSTICS]
  }

  lemma ExpandedStep(counts: multiset<Category>, n: nat)
    ensures Expanded(counts, n + 1) == Expanded(counts, n) + AtMostTwo(Listed(n), counts[Listed(n)])
  {
  }

  lemma {:induction false} ExpandedExtends(counts: multiset<Category>, n: nat, m: nat)
    requires n <= m
    ensures Expanded(counts, n) <= Expanded(counts, m)
    decreases m
  {
    if n < m {
      ExpandedExtends(counts, n, m - 1);
    }
  }

  /** The loop over the sorted names; a name outside the fixed set adds nothing to the result, and
      neither does a fixed one that does not occur. Stopping early never changes what is returned. */
  method Bounded(categories: seq<Category>) returns (result: seq<Category>)
    ensures result == Kept(categories)
  {
    var counts := multiset(categories);
    result := [];
    var n := 0;
    while n < LISTED
      invariant n <= LISTED
      invariant result == Expanded(counts, n)
    {
      var category := Listed(n);
      var copies := if counts[category] < 2 then counts[category] else 2;
      ghost var before := result;
      if copies >= 1 {
        result := result + [category];
      }
      if copies >= 2 {
        result := result + [category];
      }
      assert result == before + AtMostTwo(category, counts[category]);
      ExpandedStep(counts, n);
      n := n + 1;
      if |result| >= MAX_DIAGNOSTICS {
        break;
      }
    }
    ExpandedExtends(counts, n, LISTED);
    if |result| > MAX_DIAGNOSTICS {
      result := result[..MAX_DIAGNOSTICS];
    }
  }

  predicate IsListed(category: Category) {
    category.Listed? && category.place < LISTED
  }

  lemma {:induction false} ExpandedIsEmpty(counts: multiset<Category>, n: nat)
    ensures Expanded(counts, n) == [] <==> forall i :: 0 <= i < n ==> counts[Listed(i)] == 0
  {
    if n > 0 {
      ExpandedIsEmpty(counts, n - 1);
    }
  }

  /** Bounding never turns a failing report into a clean one. */
  lemma NothingKeptIffNothingListed(categories: seq<Category>)
    ensures Kept(categories) == [] <==> forall i :: 0 <= i < |categories| ==> !IsListed(categories[i])
  {
    var counts := multiset(categories);
    ExpandedIsEmpty(counts, LISTED);
    if i: nat :| i < |categories| && IsListed(categories[i]) {
      assert counts[Listed(categories[i].place)] > 0;
    } else {
      assert forall i :: 0 <= i < LISTED ==> Listed(i) !in categories;
    }
  }

  /** Two neighbours may be equal, three in a row not. */
  predicate Ordered(report: seq<Category>, bound: nat) {
    && (forall i :: 0 <= i < |report| ==> report[i].Listed? && report[i].place < bound)
    && (forall i, j :: 0 <= i < j < |report| ==> report[i].place <= report[j].place)
    && (forall i, j :: 0 <= i && i + 2 <= j < |report| ==> report[i].place < report[j].place)
  }

  lemma AppendedAt(report: seq<Category>, bound: nat, count: nat, i: nat)
    requires i < |report + AtMostTwo(Listed(bound), count)|
    ensures (report + AtMostTwo(Listed(bound), count))[i] == if i < |report| then report[i] else Listed(bound)
  {
  }

  lemma AppendedIsOrdered(report: seq<Category>, bound: nat, count: nat) returns (longer: seq<Category>)
    requires Ordered(report, bound)
    ensures longer == report + AtMostTwo(Listed(bound), count) && Ordered(longer, bound + 1)
  {
    longer := report + AtMostTwo(Listed(bound), count);
    assert |longer| <= |report| + 2;
    forall i: nat | i < |longer|
      ensures longer[i] == if i < |report| then report[i] else Listed(bound)
    {
      AppendedAt(report, bound, count, i);
    }
  }

  lemma {:induction false} ExpandedIsOrdered(counts: multiset<Category>, n: nat) returns (all: seq<Category>)
    ensures all == Expanded(counts, n) && Ordered(all, n)
  {
    if n == 0 {
      all := [];
    } else {
      var shorter := ExpandedIsOrdered(counts, n - 1);
      all := AppendedIsOrdered(shorter, n - 1, counts[Listed(n - 1)]);
    }
  }

  /** A report has at most sixteen entries, in alphabetical order, none more than twice. */
  lemma KeptIsBounded(categories: seq<Category>)
    ensures |Kept(categories)| <= MAX_DIAGNOSTICS && Ordered(Kept(categories), LISTED)
  {
    var all := ExpandedIsOrdered(multiset(categories), LISTED);
  }

  // ----- The walk

  function UuidFindings(raw: seq<byte>, offset: nat): seq<Category>
    requires offset + 4 <= |raw| && offset + raw[offset + 1] as nat <= |raw|
  {
    if raw[offset] != 1 then []
    else if raw[offset + 1] < 24 then [SMBIOS_TYPE1_UUID_UNAVAILABLE]
    else if raw[offset + 8..offset + 24] != seq(16, _ => 0) then [SMBIOS_UUID_NOT_REDACTED]
    else []
  }

  /** One round: the walk cannot go on, or it goes on behind the structure's strings. */
  datatype Look = Broken(found: seq<Category>) | Whole(found: seq<Category>, next: nat)

  function LookAt(raw: seq<byte>, offset: nat): (look: Look)
    requires offset < |raw|
    ensures look.Whole? ==> offset < look.next <= |raw|
  {
    if |raw| - offset < 4 then Broken([SMBIOS_TRUNCATED_STRUCTURE])
    else
      var length := raw[offset + 1];
      if length < 4 then Broken([SMBIOS_INVALID_STRUCTURE_LENGTH])
      else if offset + length > |raw| then Broken([SMBIOS_TRUNCATED_STRUCTURE])
      else
        match StringsEnd(raw, offset + length)
        case None => Broken(UuidFindings(raw, offset) + [SMBIOS_UNTERMINATED_STRINGS])
        case Some(next) => Whole(UuidFindings(raw, offset), next)
  }

  /** Where a walk stops, what it found and which structures it looked at. */
  datatype Walk = Walk(errors: seq<Category>, offset: nat, visited: seq<nat>)

  function WalkFrom(raw: seq<byte>, offset: nat, errors: seq<Category>): Walk
    decreases |raw| - offset
  {
    if offset >= |raw| || |errors| >= MAX_DIAGNOSTICS then Walk(errors, offset, [])
    else
      match LookAt(raw, offset)
      case Broken(found) => Walk(errors + found, offset, [offset])
      case Whole(found, next) =>
        if raw[offset] == END_OF_TABLE then
          Walk(errors + found + (if next == |raw| then [] else [SMBIOS_INVALID_WRAPPER]), next, [offset])
        else
          var rest := WalkFrom(raw, next, errors + found);
          Walk(rest.errors, rest.offset, [offset] + rest.visited)
  }

  predicate ProperWrapper(raw: seq<byte>) {
    |raw| > WRAPPER && LittleEndian(raw[4..8]) == |raw| - WRAPPER
  }

  /** Everything found before bounding. */
  function Findings(raw: seq<byte>): seq<Category>
    requires ProperWrapper(raw)
  {
    var walk := WalkFrom(raw, WRAPPER, []);
    if walk.offset != |raw| && walk.errors == [] then [SMBIOS_INVALID_WRAPPER] else walk.errors
  }

  function Report(raw: seq<byte>): seq<Category> {
    if |raw| > MAX_FIXTURE_BYTES then [FIXTURE_TOO_LARGE]
    else if !ProperWrapper(raw) then [SMBIOS_INVALID_WRAPPER]
    else Kept(Findings(raw))
  }

  /** The body of the loop up to the end of the string set. */
  method LookAtStructure(raw: seq<byte>, offset: nat) returns (look: Look)
    requires offset < |raw|
    ensures look == LookAt(raw, offset)
  {
    var errors: seq<Category> := [];
    var end := |raw|;
    if end - offset < 4 {
      return Broken(errors + [SMBIOS_TRUNCATED_STRUCTURE]);
    }
    var kind, length := raw[offset], raw[offset + 1];
    if length < 4 {
      return Broken(errors + [SMBIOS_INVALID_STRUCTURE_LENGTH]);
    }
    var formattedEnd := offset + length;
    if formattedEnd > end {
      return Broken(errors + [SMBIOS_TRUNCATED_STRUCTURE]);
    }
    if kind == 1 {
      if length < 24 {
        errors := errors + [SMBIOS_TYPE1_UUID_UNAVAILABLE];
      } else if raw[offset + 8..offset + 24] != seq(16, _ => 0) {
        errors := errors + [SMBIOS_UUID_NOT_REDACTED];
      }
    }
    assert errors == UuidFindings(raw, offset);
    var terminator := StringsEnd(raw, formattedEnd);
    if terminator.None? {
      return Broken(errors + [SMBIOS_UNTERMINATED_STRINGS]);
    }
    look := Whole(errors, terminator.value);
  }

  predicate SameOutcome(raw: seq<byte>, offset: nat, errors: seq<Category>, whole: Walk) {
    var rest := WalkFrom(raw, offset, errors);
    rest.errors == whole.errors && rest.offset == whole.offset
  }

  method WalkStructures(raw: seq<byte>, start: nat) returns (errors: seq<Category>, offset: nat)
    ensures errors == WalkFrom(raw, start, []).errors && offset == WalkFrom(raw, start, []).offset
  {
    errors, offset := [], start;
    ghost var whole := WalkFrom(raw, start, []);
    while offset < |raw| && |errors| < MAX_DIAGNOSTICS
      invariant SameOutcome(raw, offset, errors, whole)
      decreases |raw| - offset
    {
      var kind := raw[offset];
      var look := LookAtStructure(raw, offset);
      errors := errors + look.found;
      if look.Broken? {
        return;
      }
      offset := look.next;
      if kind == END_OF_TABLE {
        if offset != |raw| {
          errors := errors + [SMBIOS_INVALID_WRAPPER];
        }
        return;
      }
    }
  }

  method ValidateSmbios(raw: seq<byte>) returns (report: seq<Category>)
    ensures report == Report(raw)
  {
    if |raw| > MAX_FIXTURE_BYTES {
      return [FIXTURE_TOO_LARGE];
    }
    if |raw| < 8 {
      return [SMBIOS_INVALID_WRAPPER];
    }
    var declared := LittleEndian(raw[4..8]);
    if declared == 0 || declared != |raw| - 8 {
      return [SMBIOS_INVALID_WRAPPER];
    }
    var errors, offset := WalkStructures(raw, 8);
    if offset != |raw| && errors == [] {
      errors := [SMBIOS_INVALID_WRAPPER];
    }
    report := Bounded(errors);
  }

  // ----- What a clean report means

  /** From `offset` on the buffer is a chain of complete structures with blank Type 1 UUIDs
      that ends exactly at its end or at an end-of-table structure there. */
  predicate Clean(raw: seq<byte>, offset: nat)
    decreases |raw| - offset
  {
    offset == |raw|
    || (offset < |raw| && StructureAt(raw, offset).Success? && UuidFindings(raw, offset) == []
        && var next := StructureAt(raw, offset).value.1;
           if raw[offset] == END_OF_TABLE then next == |raw| else Clean(raw, next))
  }

  /** Both walkers accept the same structures. */
  lemma SameStructures(raw: seq<byte>, offset: nat)
    requires offset < |raw|
    ensures LookAt(raw, offset).Whole? <==> StructureAt(raw, offset).Success?
    ensures LookAt(raw, offset).Whole? ==>
              LookAt(raw, offset) == Whole(UuidFindings(raw, offset), StructureAt(raw, offset).value.1)
    ensures LookAt(raw, offset).Broken? ==> LookAt(raw, offset).found != []
    ensures AllListed(LookAt(raw, offset).found)
  {
  }

  predicate AllListed(errors: seq<Category>) {
    forall i :: 0 <= i < |errors| ==> IsListed(errors[i])
  }

  lemma {:induction false} ErrorsStay(raw: seq<byte>, offset: nat, errors: seq<Category>)
    requires AllListed(errors)
    ensures errors <= WalkFrom(raw, offset, errors).errors && AllListed(WalkFrom(raw, offset, errors).errors)
    decreases |raw| - offset
  {
    if offset < |raw| && |errors| < MAX_DIAGNOSTICS {
      SameStructures(raw, offset);
      var look := LookAt(raw, offset);
      if look.Whole? && raw[offset] != END_OF_TABLE {
        ErrorsStay(raw, look.next, errors + look.found);
      }
    }
  }

  lemma {:induction false} NoErrorsIffClean(raw: seq<byte>, offset: nat)
    requires offset <= |raw|
    ensures WalkFrom(raw, offset, []).errors == [] <==> Clean(raw, offset)
    ensures Clean(raw, offset) ==> WalkFrom(raw, offset, []).offset == |raw|
    decreases |raw| - offset
  {
    if offset < |raw| {
      SameStructures(raw, offset);
      var look := LookAt(raw, offset);
      assert [] + look.found == look.found;
      if look.Whole? && raw[offset] != END_OF_TABLE {
        ErrorsStay(raw, look.next, look.found);
        NoErrorsIffClean(raw, look.next);
      }
    }
  }

  /** The report is empty for exactly the redacted fixtures whose wrapper and structures are whole. */
  lemma CleanReportIff(raw: seq<byte>)
    ensures Report(raw) == [] <==>
              |raw| <= MAX_FIXTURE_BYTES && ProperWrapper(raw) && Clean(raw, WRAPPER)
  {
    if |raw| <= MAX_FIXTURE_BYTES && ProperWrapper(raw) {
      NoErrorsIffClean(raw, WRAPPER);
      ErrorsStay(raw, WRAPPER, []);
      NothingKeptIffNothingListed(Findings(raw));
      if Findings(raw) != [] {
        assert IsListed(Findings(raw)[0]);
      }
    }
  }

  // ----- Agreement with the parser

  /** The offsets at which the parser starts a structure. */
  function ParserVisits(tables: seq<byte>, offset: nat): seq<nat>
    decreases |tables| - offset
  {
    if offset >= |tables| then []
    else
      match StructureAt(tables, offset)
      case Failure(_) => [offset]
      case Success(read) =>
        if tables[offset] == END_OF_TABLE then [offset] else [offset] + ParserVisits(tables, read.1)
  }

  /** The system after absorbing the structures read at some offsets, in order. */
  function AbsorbedAt(text: Text, tables: seq<byte>, offsets: seq<nat>, system: Partial): Option<Partial> {
    if offsets == [] then Some(system)
    else if offsets[0] >= |tables| || StructureAt(tables, offsets[0]).Failure? then None
    else
      AbsorbedAt(text, tables, offsets[1..], Absorb(text, system, StructureAt(tables, offsets[0]).value.0))
  }

  /** These are the offsets: the parser succeeds exactly if a structure can be read at each of them,
      and then its result is what those structures say, taken in order. */
  lemma {:induction false} ParserAbsorbsItsVisits(text: Text, tables: seq<byte>, offset: nat, system: Partial)
    ensures var parsed := ParseFrom(text, tables, offset, system);
            AbsorbedAt(text, tables, ParserVisits(tables, offset), system) ==
            if parsed.Success? then Some(parsed.value) else None
    decreases |tables| - offset
  {
    if offset < |tables| && StructureAt(tables, offset).Success? {
      var (s, end) := StructureAt(tables, offset).value;
      var absorbed := Absorb(text, system, s);
      if tables[offset] == END_OF_TABLE {
        assert [offset][1..] == [];
      } else {
        var rest := ParserVisits(tables, end);
        ParserAbsorbsItsVisits(text, tables, end, absorbed);
        assert ([offset] + rest)[1..] == rest;
      }
    }
  }

  function Shifted(offsets: seq<nat>, distance: nat): seq<nat> {
    seq(|offsets|, i requires 0 <= i < |offsets| => offsets[i] + distance)
  }

  /** `tables` is `raw` without its wrapper. */
  predicate Behind(raw: seq<byte>, tables: seq<byte>) {
    |raw| == |tables| + WRAPPER && forall i :: 0 <= i < |tables| ==> tables[i] == raw[i + WRAPPER]
  }

  lemma StringsEndShifts(raw: seq<byte>, tables: seq<byte>, start: nat)
    requires Behind(raw, tables)
    ensures var inner, outer := StringsEnd(tables, start), StringsEnd(raw, start + WRAPPER);
            inner == if outer.None? then None else Some(outer.value - WRAPPER)
    decreases |raw| - start
  {
    if start + 1 < |tables| && !DoubleZero(tables, start) {
      StringsEndShifts(raw, tables, start + 1);
    }
  }

  lemma SliceShifts(raw: seq<byte>, tables: seq<byte>, from: nat, to: nat)
    requires Behind(raw, tables) && from <= to <= |tables|
    ensures tables[from..to] == raw[from + WRAPPER..to + WRAPPER]
  {
  }

  /** What a structure at `offset` looks like whose formatted area has `length` bytes and whose strings end at `end`. */
  predicate ReadAs(tables: seq<byte>, offset: nat, length: nat, s: Structure, end: nat) {
    && offset + 4 <= |tables| && 4 <= length == tables[offset + 1] as nat
    && offset + length + 2 <= end <= |tables|
    && StringsEnd(tables, offset + length) == Some(end)
    && s == Structure(tables[offset..offset + length], tables[offset + length..end - 2])
  }

  lemma StructureReads(tables: seq<byte>, offset: nat) returns (length: nat, s: Structure, end: nat)
    requires offset < |tables| && StructureAt(tables, offset).Success?
    ensures StructureAt(tables, offset) == Success((s, end)) && ReadAs(tables, offset, length, s, end)
  {
    var read := StructureAt(tables, offset).value;
    length, s, end := tables[offset + 1] as nat, read.0, read.1;
  }

  lemma ReadsStructure(tables: seq<byte>, offset: nat, length: nat, s: Structure, end: nat)
    requires ReadAs(tables, offset, length, s, end)
    ensures StructureAt(tables, offset) == Success((s, end))
  {
  }

  lemma SlicesShift(raw: seq<byte>, tables: seq<byte>, offset: nat, length: nat, end: nat)
    requires Behind(raw, tables) && offset + length + 2 <= end <= |tables|
    ensures var outer := offset + WRAPPER;
            Structure(tables[offset..offset + length], tables[offset + length..end - 2]) ==
            Structure(raw[outer..outer + length], raw[outer + length..end + WRAPPER - 2])
  {
    SliceShifts(raw, tables, offset, offset + length);
    SliceShifts(raw, tables, offset + length, end - 2);
  }

  lemma ReadAsShifts(raw: seq<byte>, tables: seq<byte>, offset: nat, length: nat, s: Structure, end: nat)
    requires Behind(raw, tables) && ReadAs(raw, offset + WRAPPER, length, s, end + WRAPPER)
    ensures ReadAs(tables, offset, length, s, end)
  {
    assert tables[offset + 1] == raw[offset + 1 + WRAPPER];
    assert offset + WRAPPER + length == offset + length + WRAPPER;
    StringsEndShifts(raw, tables, offset + length);
    SlicesShift(raw, tables, offset, length, end);
  }

  /** The parser reads the same structure one wrapper earlier. */
  lemma StructureShifts(raw: seq<byte>, tables: seq<byte>, offset: nat) returns (s: Structure, end: nat)
    requires Behind(raw, tables) && offset < |tables| && StructureAt(raw, offset + WRAPPER).Success?
    ensures StructureAt(raw, offset + WRAPPER) == Success((s, end + WRAPPER))
    ensures offset < end <= |tables| && StructureAt(tables, offset) == Success((s, end))
  {
    var length, next;
    length, s, next := StructureReads(raw, offset + WRAPPER);
    end := next - WRAPPER;
    ReadAsShifts(raw, tables, offset, length, s, end);
    ReadsStructure(tables, offset, length, s, end);
  }

  lemma CleanReads(raw: seq<byte>, offset: nat)
    requires offset < |raw| && Clean(raw, offset)
    ensures StructureAt(raw, offset).Success?
    ensures raw[offset] == END_OF_TABLE || Clean(raw, StructureAt(raw, offset).value.1)
  {
  }

  /** On both sides of a clean fixture the same structure comes next. */
  lemma NextStructure(raw: seq<byte>, tables: seq<byte>, offset: nat) returns (s: Structure, end: nat)
    requires Behind(raw, tables) && offset < |tables| && Clean(raw, offset + WRAPPER)
    ensures StructureAt(raw, offset + WRAPPER) == Success((s, end + WRAPPER))
    ensures tables[offset] == raw[offset + WRAPPER] && offset < end <= |tables|
    ensures StructureAt(tables, offset) == Success((s, end))
    ensures tables[offset] == END_OF_TABLE || Clean(raw, end + WRAPPER)
  {
    CleanReads(raw, offset + WRAPPER);
    s, end := StructureShifts(raw, tables, offset);
  }

  lemma ShiftedJoins(offset: nat, rest: seq<nat>, distance: nat)
    ensures Shifted([offset] + rest, distance) == [offset + distance] + Shifted(rest, distance)
  {
  }

  lemma ParserStep(tables: seq<byte>, offset: nat, s: Structure, end: nat)
    requires offset < |tables| && StructureAt(tables, offset) == Success((s, end))
    ensures ParserVisits(tables, offset) ==
            [offset] + if tables[offset] == END_OF_TABLE then [] else ParserVisits(tables, end)
  {
  }

  lemma WalkerStep(raw: seq<byte>, offset: nat, s: Structure, next: nat)
    requires offset < |raw| && Clean(raw, offset) && StructureAt(raw, offset) == Success((s, next))
    ensures WalkFrom(raw, offset, []).visited ==
            [offset] + if raw[offset] == END_OF_TABLE then [] else WalkFrom(raw, next, []).visited
  {
    SameStructures(raw, offset);
    assert [] + UuidFindings(raw, offset) == [];
  }

  /** One structure on both sides, in front of what both visit behind it. */
  lemma VisitsStep(raw: seq<byte>, tables: seq<byte>, offset: nat, s: Structure, end: nat, rest: seq<nat>)
    returns (parser: seq<nat>)
    requires Behind(raw, tables) && offset < |tables| && Clean(raw, offset + WRAPPER)
    requires StructureAt(raw, offset + WRAPPER) == Success((s, end + WRAPPER))
    requires StructureAt(tables, offset) == Success((s, end))
    requires if tables[offset] == END_OF_TABLE then rest == []
             else && rest == ParserVisits(tables, end)
                  && WalkFrom(raw, end + WRAPPER, []).visited == Shifted(rest, WRAPPER)
    ensures parser == ParserVisits(tables, offset)
    ensures WalkFrom(raw, offset + WRAPPER, []).visited == Shifted(parser, WRAPPER)
  {
    ParserStep(tables, offset, s, end);
    WalkerStep(raw, offset + WRAPPER, s, end + WRAPPER);
    ShiftedJoins(offset, rest, WRAPPER);
    parser := [offset] + rest;
  }

  lemma {:induction false} SameVisits(raw: seq<byte>, tables: seq<byte>, offset: nat) returns (parser: seq<nat>)
    requires Behind(raw, tables) && Clean(raw, offset + WRAPPER)
    ensures parser == ParserVisits(tables, offset)
    ensures WalkFrom(raw, offset + WRAPPER, []).visited == Shifted(parser, WRAPPER)
    decreases |raw| - offset
  {
    parser := [];
    if offset < |tables| {
      var s, end := NextStructure(raw, tables, offset);
      if tables[offset] != END_OF_TABLE {
        parser := SameVisits(raw, tables, end);
      }
      parser := VisitsStep(raw, tables, offset, s, end, parser);
    }
  }

  lemma ParserGoesOn(text: Text, tables: seq<byte>, offset: nat, system: Partial, s: Structure, end: nat,
                     final: Partial)
    requires offset < |tables| && StructureAt(tables, offset) == Success((s, end))
    requires if tables[offset] == END_OF_TABLE then final == Absorb(text, system, s)
             else ParseFrom(text, tables, end, Absorb(text, system, s)) == Success(final)
    ensures ParseFrom(text, tables, offset, system) == Success(final)
  {
    assert s.formatted[0] == tables[offset];
  }

  lemma {:induction false} ParserWalksThrough(text: Text, raw: seq<byte>, tables: seq<byte>, offset: nat,
                                              system: Partial)
    returns (final: Partial)
    requires Behind(raw, tables) && Clean(raw, offset + WRAPPER)
    ensures ParseFrom(text, tables, offset, system) == Success(final)
    decreases |raw| - offset
  {
    if offset == |tables| {
      final := system;
    } else {
      var s, end := NextStructure(raw, tables, offset);
      final := Absorb(text, system, s);
      if tables[offset] != END_OF_TABLE {
        final := ParserWalksThrough(text, raw, tables, end, final);
      }
      ParserGoesOn(text, tables, offset, system, s, end, final);
    }
  }

  /** Byte 1 decides: on a passing fixture the parser takes the table out of the wrapper exactly
      when that byte is at least two, and otherwise reads the wrapper itself as structures. */
  lemma ParserUnwrapsIff(raw: seq<byte>)
    requires Report(raw) == []
    ensures |raw| > WRAPPER
    ensures TablePayload(raw) == raw[WRAPPER..] <==> raw[1] >= 2
  {
    CleanReportIff(raw);
    assert |raw[WRAPPER..]| < |raw|;
  }

  lemma ParseOutcome(text: Text, raw: seq<byte>)
    requires raw != [] && ParseFrom(text, TablePayload(raw), 0, NOTHING).Success?
    ensures var parsed := Parse(text, raw);
            parsed.Success? || parsed.error.MissingSystem? || parsed.error.MissingChassis?
  {
  }

  lemma PassingTables(raw: seq<byte>)
    requires Report(raw) == [] && |raw| > 1 && raw[1] >= 2
    ensures |raw| > WRAPPER && Clean(raw, 0 + WRAPPER) && Behind(raw, TablePayload(raw))
  {
    CleanReportIff(raw);
    ParserUnwrapsIff(raw);
  }

  /** A fixture that the validator passes and whose byte 1 is at least two is walked by the parser
      at the same structures, and the parser can only miss the system or the chassis. */
  lemma WalkersAgree(text: Text, raw: seq<byte>)
    requires Report(raw) == [] && |raw| > 1 && raw[1] >= 2
    ensures WalkFrom(raw, WRAPPER, []).visited == Shifted(ParserVisits(TablePayload(raw), 0), WRAPPER)
    ensures var parsed := Parse(text, raw);
            parsed.Success? || parsed.error.MissingSystem? || parsed.error.MissingChassis?
  {
    PassingTables(raw);
    var parser := SameVisits(raw, TablePayload(raw), 0);
    var final := ParserWalksThrough(text, raw, TablePayload(raw), 0, NOTHING);
    ParseOutcome(text, raw);
  }
}
