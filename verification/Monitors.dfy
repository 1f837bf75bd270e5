/** Monitor inventory state transitions (spotter-core/src/monitors.rs). */
module Monitors {
  import opened Wrappers
  import opened SerialOrder
  import opened OrderedMap

  datatype Monitor = Monitor(manufacturer: string, product: string, serial: string, week: nat, year: nat)

  /** An instant, in nanoseconds. */
  type Instant = int

  datatype Entry = Entry(serial: string, assetId: Option<nat>, lastSeen: Instant,
                         absentSince: Option<Instant>, checkedOut: bool)

  datatype Diff = Diff(added: seq<Monitor>, removed: seq<Entry>, retained: seq<Monitor>, next: seq<Entry>)

  function MonitorSerial(m: Monitor): string { m.serial }

  function EntrySerial(e: Entry): string { e.serial }

  function EntryBefore(a: Entry, b: Entry): bool { Less(a.serial, b.serial) }

  /** The order of complete records: serial, manufacturer, product, year, week. */
  function RecordBefore(a: Monitor, b: Monitor): bool {
    if a.serial != b.serial then Less(a.serial, b.serial)
    else if a.manufacturer != b.manufacturer then Less(a.manufacturer, b.manufacturer)
    else if a.product != b.product then Less(a.product, b.product)
    else if a.year != b.year then a.year < b.year
    else a.week < b.week
  }

  lemma RecordOrder(a: Monitor, b: Monitor, c: Monitor)
    ensures !RecordBefore(a, a)
    ensures a == b || RecordBefore(a, b) || RecordBefore(b, a)
    ensures RecordBefore(a, b) && RecordBefore(b, c) ==> RecordBefore(a, c)
  {
    FieldOrder(a.serial, b.serial, c.serial);
    FieldOrder(a.manufacturer, b.manufacturer, c.manufacturer);
    FieldOrder(a.product, b.product, c.product);
  }

  lemma FieldOrder(a: string, b: string, c: string)
    ensures a == b || Less(a, b) || Less(b, a)
    ensures Less(a, b) && Less(b, c) ==> Less(a, c)
    ensures Less(a, b) && Less(b, a) ==> false
    ensures !Less(a, a)
  {
    LessIsTotal(a, b);
    LessIsStrict(a);
    if Less(a, b) && Less(b, c) {
      LessIsTransitive(a, b, c);
    }
    if Less(a, b) && Less(b, a) {
      LessIsTransitive(a, b, a);
    }
  }

  // ----- Forced check-in

  datatype Ineligibility = Present | AlreadyCheckedIn | Unmapped

  function ForcedCheckinIneligibility(e: Entry): Option<Ineligibility> {
    if e.absentSince.None? then Some(Present)
    else if !e.checkedOut then Some(AlreadyCheckedIn)
    else if e.assetId.None? || e.assetId.value == 0 then Some(Unmapped)
    else None
  }

  function CheckedIn(e: Entry, serials: seq<string>): Entry {
    if e.serial in serials then e.(checkedOut := false) else e
  }

  function Forced(entries: seq<Entry>, serials: seq<string>): seq<Entry> {
    seq(|entries|, i requires 0 <= i < |entries| => CheckedIn(entries[i], serials))
  }

  method ApplyForcedCheckinSerials(entries: seq<Entry>, serials: seq<string>) returns (candidate: seq<Entry>)
    ensures candidate == Forced(entries, serials)
  {
    candidate := entries;
    for n := 0 to |entries|
      invariant |candidate| == |entries|
      invariant forall i :: 0 <= i < n ==> candidate[i] == CheckedIn(entries[i], serials)
      invariant forall i :: n <= i < |entries| ==> candidate[i] == entries[i]
    {
      if candidate[n].serial in serials {
        candidate := candidate[n := candidate[n].(checkedOut := false)];
      }
    }
  }

  /** Forcing the eligible serials checks every one of them in, changes nothing else about any
      monitor, and leaves none of them eligible. */
  lemma ForcedChecksIn(entries: seq<Entry>, serials: seq<string>, i: nat)
    requires i < |entries|
    ensures var after := Forced(entries, serials)[i];
            && after.(checkedOut := entries[i].checkedOut) == entries[i]
            && (after.checkedOut <==> entries[i].checkedOut && entries[i].serial !in serials)
            && (entries[i].serial in serials ==> ForcedCheckinIneligibility(after).Some?)
            && (entries[i].serial !in serials ==>
                  ForcedCheckinIneligibility(after) == ForcedCheckinIneligibility(entries[i]))
  {
  }

  // ----- The difference between discovery and persisted state

  /** The current discovery by serial: sorted, then collected from the back. */
  function CurrentTable(current: seq<Monitor>): seq<Monitor> {
    KeepFirst(MonitorSerial, Sorted(RecordBefore, current))
  }

  /** The persisted state by serial. */
  function PreviousTable(previous: seq<Entry>): seq<Entry> {
    KeepLast(EntrySerial, previous)
  }

  predicate Has<V>(key: V -> string, table: seq<V>, serial: string) {
    Find(key, table, serial).Some?
  }

  /** The monitors that were, or were not, known before. */
  function Chosen(table: seq<Monitor>, known: seq<Entry>, wanted: bool): seq<Monitor> {
    if table == [] then []
    else
      var last := table[|table| - 1];
      Chosen(table[..|table| - 1], known, wanted)
      + if Has(EntrySerial, known, last.serial) == wanted then [last] else []
  }

  function PresentEntry(serial: string, known: Option<Entry>, now: Instant): Entry {
    match known
    case Some(e) => Entry(serial, e.assetId, now, None, e.checkedOut)
    case None => Entry(serial, None, now, None, false)
  }

  function PresentEntries(table: seq<Monitor>, known: seq<Entry>, now: Instant): seq<Entry> {
    if table == [] then []
    else
      var last := table[|table| - 1];
      PresentEntries(table[..|table| - 1], known, now)
      + [PresentEntry(last.serial, Find(EntrySerial, known, last.serial), now)]
  }

  function AbsentEntry(e: Entry, now: Instant): Entry {
    e.(absentSince := Some(if e.absentSince.Some? then e.absentSince.value else now))
  }

  function AbsentEntries(known: seq<Entry>, table: seq<Monitor>, now: Instant): seq<Entry> {
    if known == [] then []
    else
      var last := known[|known| - 1];
      AbsentEntries(known[..|known| - 1], table, now)
      + if Has(MonitorSerial, table, last.serial) then [] else [AbsentEntry(last, now)]
  }

  function DiffOf(current: seq<Monitor>, previous: seq<Entry>, now: Instant): Diff {
    var table, known := CurrentTable(current), PreviousTable(previous);
    var present, absent := PresentEntries(table, known, now), AbsentEntries(known, table, now);
    Diff(Chosen(table, known, false), absent, Chosen(table, known, true), Sorted(EntryBefore, present + absent))
  }

  method CollectCurrent(ordered: seq<Monitor>) returns (table: seq<Monitor>)
    ensures table == KeepFirst(MonitorSerial, ordered)
  {
    table := [];
    var i := |ordered|;
    while i > 0
      invariant 0 <= i <= |ordered|
      invariant table == KeepFirst(MonitorSerial, ordered[i..])
    {
      i := i - 1;
      assert ordered[i..][1..] == ordered[i + 1..];
      table := Put(MonitorSerial, table, ordered[i]);
    }
  }

  method CollectPrevious(entries: seq<Entry>) returns (table: seq<Entry>)
    ensures table == KeepLast(EntrySerial, entries)
  {
    table := [];
    for i := 0 to |entries|
      invariant table == KeepLast(EntrySerial, entries[..i])
    {
      assert entries[..i + 1][..i] == entries[..i];
      table := Put(EntrySerial, table, entries[i]);
    }
    assert entries[..|entries|] == entries;
  }

  method DiffMonitors(current: seq<Monitor>, previous: seq<Entry>, now: Instant) returns (diff: Diff)
    ensures diff == DiffOf(current, previous, now)
  {
    var ordered := SortBy(RecordBefore, current);
    var currentBySerial := CollectCurrent(ordered);
    var previousBySerial := CollectPrevious(previous);
    var added, retained, nextEntries := [], [], [];
    for i := 0 to |currentBySerial|
      invariant added == Chosen(currentBySerial[..i], previousBySerial, false)
      invariant retained == Chosen(currentBySerial[..i], previousBySerial, true)
      invariant nextEntries == PresentEntries(currentBySerial[..i], previousBySerial, now)
    {
      assert currentBySerial[..i + 1][..i] == currentBySerial[..i];
      var monitor := currentBySerial[i];
      var known := Find(EntrySerial, previousBySerial, monitor.serial);
      if known.Some? {
        retained := retained + [monitor];
        nextEntries := nextEntries + [Entry(monitor.serial, known.value.assetId, now, None, known.value.checkedOut)];
      } else {
        added := added + [monitor];
        nextEntries := nextEntries + [Entry(monitor.serial, None, now, None, false)];
      }
    }
    assert currentBySerial[..|currentBySerial|] == currentBySerial;
    var removed: seq<Entry> := [];
    ghost var present := nextEntries;
    for i := 0 to |previousBySerial|
      invariant removed == AbsentEntries(previousBySerial[..i], currentBySerial, now)
      invariant nextEntries == present + removed
    {
      assert previousBySerial[..i + 1][..i] == previousBySerial[..i];
      var absent := previousBySerial[i];
      if !Has(MonitorSerial, currentBySerial, absent.serial) {
        if absent.absentSince.None? {
          absent := absent.(absentSince := Some(now));
        }
        removed := removed + [absent];
        nextEntries := nextEntries + [absent];
      }
    }
    assert previousBySerial[..|previousBySerial|] == previousBySerial;
    nextEntries := SortBy(EntryBefore, nextEntries);
    diff := Diff(added, removed, retained, nextEntries);
  }
}
