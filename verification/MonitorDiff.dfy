/** What the difference between a discovery and the persisted state means, serial by serial. */
module MonitorDiff {
  import opened Wrappers
  import opened SerialOrder
  import opened OrderedMap
  import opened Monitors

  // ----- The record that stands for a serial

  /** The smallest complete record with this serial. */
  function Smallest(current: seq<Monitor>, serial: string): Option<Monitor> {
    if current == [] then None
    else
      var rest, last := Smallest(current[..|current| - 1], serial), current[|current| - 1];
      if last.serial == serial && (rest.None? || RecordBefore(last, rest.value)) then Some(last) else rest
  }

  ghost predicate IsSmallest(current: seq<Monitor>, serial: string, found: Option<Monitor>) {
    match found
    case None => forall i :: 0 <= i < |current| ==> current[i].serial != serial
    case Some(m) =>
      && m in current && m.serial == serial
      && forall i :: 0 <= i < |current| && current[i].serial == serial ==> !RecordBefore(current[i], m)
  }

  lemma {:induction false} SmallestIsSmallest(current: seq<Monitor>, serial: string)
    ensures IsSmallest(current, serial, Smallest(current, serial))
  {
    if current != [] {
      var init, last := current[..|current| - 1], current[|current| - 1];
      SmallestIsSmallest(init, serial);
      var rest := Smallest(init, serial);
      RecordOrder(last, last, last);
      if last.serial == serial && rest.Some? {
        forall i | 0 <= i < |init| && current[i].serial == serial
          ensures RecordBefore(last, rest.value) ==> !RecordBefore(current[i], last)
        {
          assert init[i] == current[i];
          RecordOrder(current[i], last, rest.value);
        }
      }
      if rest.Some? {
        assert rest.value in init;
        assert rest.value in current;
      }
      forall i | 0 <= i < |current| && i < |init|
        ensures current[i] == init[i]
      {
      }
    }
  }

  /** Only the set of records matters. */
  lemma SmallestOfSet(a: seq<Monitor>, b: seq<Monitor>, serial: string)
    requires forall m :: m in a <==> m in b
    ensures Smallest(a, serial) == Smallest(b, serial)
  {
    SmallestIsSmallest(a, serial);
    SmallestIsSmallest(b, serial);
    var x, y := Smallest(a, serial), Smallest(b, serial);
    if x.Some? {
      SmallestBounds(a, b, serial, x.value, y);
    }
    if y.Some? {
      SmallestBounds(b, a, serial, y.value, x);
    }
    if x.Some? && y.Some? {
      RecordOrder(x.value, y.value, x.value);
    }
  }

  lemma SmallestBounds(a: seq<Monitor>, b: seq<Monitor>, serial: string, m: Monitor, found: Option<Monitor>)
    requires m in a && m in b && m.serial == serial
    requires IsSmallest(b, serial, found)
    ensures found.Some? && !RecordBefore(m, found.value)
  {
    var i :| 0 <= i < |b| && b[i] == m;
  }

  // ----- Sorting and collecting

  ghost predicate NonDecreasing(s: seq<Monitor>) {
    forall i, j :: 0 <= i < j < |s| ==> !RecordBefore(s[j], s[i])
  }

  lemma NotBefore(a: Monitor, b: Monitor, c: Monitor)
    requires !RecordBefore(b, a) && !RecordBefore(c, b)
    ensures !RecordBefore(c, a)
  {
    RecordOrder(a, b, c);
    RecordOrder(b, c, a);
    RecordOrder(c, a, b);
  }

  lemma {:induction false} InsertSorts(s: seq<Monitor>, v: Monitor)
    requires NonDecreasing(s)
    ensures NonDecreasing(Insert(RecordBefore, s, v))
    ensures Insert(RecordBefore, s, v) != []
    ensures Insert(RecordBefore, s, v)[0] == v || (s != [] && Insert(RecordBefore, s, v)[0] == s[0])
  {
    if s != [] {
      RecordOrder(v, s[0], v);
      if RecordBefore(v, s[0]) {
        PrependSorted(v, s);
      } else {
        InsertSorts(s[1..], v);
        PrependSorted(s[0], Insert(RecordBefore, s[1..], v));
      }
    }
  }

  lemma PrependSorted(v: Monitor, s: seq<Monitor>)
    requires NonDecreasing(s) && s != [] && !RecordBefore(s[0], v)
    ensures NonDecreasing([v] + s)
  {
    var whole := [v] + s;
    forall i, j | 0 <= i < j < |whole|
      ensures !RecordBefore(whole[j], whole[i])
    {
      if i == 0 && j > 1 {
        NotBefore(v, s[0], s[j - 1]);
      }
    }
  }

  /** Inserting into sorted records changes the first one of a serial as the smallest one changes. */
  lemma {:induction false} InsertedFirst(s: seq<Monitor>, v: Monitor, serial: string)
    requires NonDecreasing(s)
    ensures var first := Find(MonitorSerial, s, serial);
            Find(MonitorSerial, Insert(RecordBefore, s, v), serial) ==
            if v.serial == serial && (first.None? || RecordBefore(v, first.value)) then Some(v) else first
  {
    if s == [] {
      assert Insert(RecordBefore, s, v)[1..] == [];
    } else if RecordBefore(v, s[0]) {
      FindInPrepended(MonitorSerial, v, s, serial);
      var first := Find(MonitorSerial, s, serial);
      if first.Some? {
        var i :| 0 <= i < |s| && s[i] == first.value;
        RecordOrder(v, s[0], s[i]);
        RecordOrder(s[0], s[i], s[0]);
      }
    } else {
      InsertedFirst(s[1..], v, serial);
      FindInPrepended(MonitorSerial, s[0], Insert(RecordBefore, s[1..], v), serial);
    }
  }

  lemma {:induction false} SortedFirst(current: seq<Monitor>, serial: string)
    ensures NonDecreasing(Sorted(RecordBefore, current))
    ensures Find(MonitorSerial, Sorted(RecordBefore, current), serial) == Smallest(current, serial)
  {
    if current != [] {
      var init, last := current[..|current| - 1], current[|current| - 1];
      SortedFirst(init, serial);
      InsertSorts(Sorted(RecordBefore, init), last);
      InsertedFirst(Sorted(RecordBefore, init), last, serial);
    }
  }

  lemma CurrentTableIsMap(current: seq<Monitor>)
    ensures Ascending(MonitorSerial, CurrentTable(current))
    ensures forall k :: Find(MonitorSerial, CurrentTable(current), k) == Smallest(current, k)
  {
    KeepFirstIsMap(MonitorSerial, Sorted(RecordBefore, current));
    forall k
      ensures Find(MonitorSerial, CurrentTable(current), k) == Smallest(current, k)
    {
      SortedFirst(current, k);
    }
  }

  // ----- The four lists

  lemma FindSnoc<V>(key: V -> string, s: seq<V>, k: string)
    requires s != []
    ensures Find(key, s, k) ==
            if Find(key, s[..|s| - 1], k).Some? then Find(key, s[..|s| - 1], k)
            else if key(s[|s| - 1]) == k then Some(s[|s| - 1]) else None
  {
    assert s == s[..|s| - 1] + [s[|s| - 1]];
    FindInConcat(key, s[..|s| - 1], [s[|s| - 1]], k);
  }

  /** The last key of an ordered map does not occur before. */
  lemma LastIsNew<V(!new)>(key: V -> string, s: seq<V>)
    requires Ascending(key, s) && s != []
    ensures Find(key, s[..|s| - 1], key(s[|s| - 1])) == None
  {
    AscendingIsDistinct(key, s);
    AbsentKey(key, s[..|s| - 1], key(s[|s| - 1]));
  }

  lemma {:induction false} ChosenFrom(table: seq<Monitor>, known: seq<Entry>, wanted: bool)
    requires Ascending(MonitorSerial, table)
    ensures Ascending(MonitorSerial, Chosen(table, known, wanted))
    ensures forall i :: 0 <= i < |Chosen(table, known, wanted)| ==> Chosen(table, known, wanted)[i] in table
  {
    if table != [] {
      var init, last := table[..|table| - 1], table[|table| - 1];
      ChosenFrom(init, known, wanted);
      var chosen := Chosen(init, known, wanted);
      forall i | 0 <= i < |chosen|
        ensures Less(chosen[i].serial, last.serial) && chosen[i] in table
      {
        var j :| 0 <= j < |init| && init[j] == chosen[i];
        assert Less(MonitorSerial(table[j]), MonitorSerial(table[|table| - 1]));
      }
      AppendAscends(MonitorSerial, chosen, last);
    }
  }

  lemma {:induction false} ChosenLookup(table: seq<Monitor>, known: seq<Entry>, wanted: bool, k: string)
    requires Ascending(MonitorSerial, table)
    ensures Find(MonitorSerial, Chosen(table, known, wanted), k) ==
            if Has(EntrySerial, known, k) == wanted then Find(MonitorSerial, table, k) else None
  {
    if table != [] {
      var init, last := table[..|table| - 1], table[|table| - 1];
      ChosenLookup(init, known, wanted, k);
      FindSnoc(MonitorSerial, table, k);
      FindInConcat(MonitorSerial, Chosen(init, known, wanted), [last], k);
      assert Chosen(init, known, wanted) + [] == Chosen(init, known, wanted);
    }
  }

  lemma {:induction false} PresentSerials(table: seq<Monitor>, known: seq<Entry>, now: Instant)
    ensures |PresentEntries(table, known, now)| == |table|
    ensures forall i :: 0 <= i < |table| ==> PresentEntries(table, known, now)[i].serial == table[i].serial
  {
    if table != [] {
      PresentSerials(table[..|table| - 1], known, now);
    }
  }

  lemma {:induction false} PresentLookup(table: seq<Monitor>, known: seq<Entry>, now: Instant, k: string)
    ensures Find(EntrySerial, PresentEntries(table, known, now), k) ==
            if Find(MonitorSerial, table, k).None? then None
            else Some(PresentEntry(k, Find(EntrySerial, known, k), now))
  {
    if table != [] {
      var init, last := table[..|table| - 1], table[|table| - 1];
      PresentLookup(init, known, now, k);
      var present := PresentEntries(init, known, now);
      var entry := PresentEntry(last.serial, Find(EntrySerial, known, last.serial), now);
      FindInConcat(MonitorSerial, init, [last], k);
      FindInConcat(EntrySerial, present, [entry], k);
      assert table == init + [last] && PresentEntries(table, known, now) == present + [entry];
    }
  }

  lemma {:induction false} AbsentFrom(known: seq<Entry>, table: seq<Monitor>, now: Instant)
    requires Ascending(EntrySerial, known)
    ensures var absent := AbsentEntries(known, table, now);
            && Ascending(EntrySerial, absent)
            && forall i :: 0 <= i < |absent| ==>
                 !Has(MonitorSerial, table, absent[i].serial)
                 && exists j :: 0 <= j < |known| && known[j].serial == absent[i].serial
  {
    if known != [] {
      var init, last := known[..|known| - 1], known[|known| - 1];
      AbsentFrom(init, table, now);
      var absent := AbsentEntries(init, table, now);
      forall i | 0 <= i < |absent|
        ensures Less(absent[i].serial, last.serial)
        ensures exists j :: 0 <= j < |known| && known[j].serial == absent[i].serial
      {
        var j :| 0 <= j < |init| && init[j].serial == absent[i].serial;
        assert known[j].serial == absent[i].serial;
        assert Less(EntrySerial(known[j]), EntrySerial(known[|known| - 1]));
      }
      if !Has(MonitorSerial, table, last.serial) {
        AppendAscends(EntrySerial, absent, AbsentEntry(last, now));
        assert known[|known| - 1].serial == AbsentEntry(last, now).serial;
      } else {
        assert absent + [] == absent;
      }
    }
  }

  lemma {:induction false} AbsentLookup(known: seq<Entry>, table: seq<Monitor>, now: Instant, k: string)
    requires Ascending(EntrySerial, known)
    ensures Find(EntrySerial, AbsentEntries(known, table, now), k) ==
            if Has(EntrySerial, known, k) && !Has(MonitorSerial, table, k)
            then Some(AbsentEntry(Find(EntrySerial, known, k).value, now)) else None
  {
    if known != [] {
      var init, last := known[..|known| - 1], known[|known| - 1];
      AbsentLookup(init, table, now, k);
      FindSnoc(EntrySerial, known, k);
      var absent := AbsentEntries(init, table, now);
      FindInConcat(EntrySerial, absent, [AbsentEntry(last, now)], k);
      assert absent + [] == absent;
    }
  }

  // ----- The whole difference

  /** The merged entry of one serial: seen now, still absent, or never heard of. */
  function Merged(current: seq<Monitor>, previous: seq<Entry>, now: Instant, serial: string): Option<Entry> {
    var known := FindLast(EntrySerial, previous, serial);
    if Smallest(current, serial).Some? then Some(PresentEntry(serial, known, now))
    else if known.Some? then Some(AbsentEntry(known.value, now))
    else None
  }

  /** The four ordered lists, given by their lookups. */
  ghost predicate IsDiff(current: seq<Monitor>, previous: seq<Entry>, now: Instant, diff: Diff) {
    && Ascending(MonitorSerial, diff.added) && Ascending(MonitorSerial, diff.retained)
    && Ascending(EntrySerial, diff.removed) && Ascending(EntrySerial, diff.next)
    && forall k :: IsDiffAt(current, previous, now, diff, k)
  }

  ghost predicate IsDiffAt(current: seq<Monitor>, previous: seq<Entry>, now: Instant, diff: Diff, k: string) {
    var seen, known := Smallest(current, k), FindLast(EntrySerial, previous, k);
    && Find(MonitorSerial, diff.added, k) == (if known.None? then seen else None)
    && Find(MonitorSerial, diff.retained, k) == (if known.Some? then seen else None)
    && Find(EntrySerial, diff.removed, k) ==
       (if known.Some? && seen.None? then Some(AbsentEntry(known.value, now)) else None)
    && Find(EntrySerial, diff.next, k) == Merged(current, previous, now, k)
  }

  lemma NextKeysDistinct(table: seq<Monitor>, known: seq<Entry>, now: Instant)
    requires Ascending(MonitorSerial, table) && Ascending(EntrySerial, known)
    ensures DistinctKeys(EntrySerial, PresentEntries(table, known, now) + AbsentEntries(known, table, now))
  {
    var present, absent := PresentEntries(table, known, now), AbsentEntries(known, table, now);
    PresentSerials(table, known, now);
    AbsentFrom(known, table, now);
    AscendingIsDistinct(MonitorSerial, table);
    AscendingIsDistinct(EntrySerial, absent);
    var both := present + absent;
    forall i, j | 0 <= i < j < |both|
      ensures EntrySerial(both[i]) != EntrySerial(both[j])
    {
      if i < |present| {
        FindAt(MonitorSerial, table, i);
        assert Has(MonitorSerial, table, both[i].serial);
        if j < |present| {
          assert MonitorSerial(table[i]) != MonitorSerial(table[j]);
        } else {
          assert !Has(MonitorSerial, table, absent[j - |present|].serial);
        }
      } else {
        assert EntrySerial(absent[i - |present|]) != EntrySerial(absent[j - |present|]);
      }
    }
  }

  /** The difference is the serial-by-serial merge of the discovery with the persisted state. */
  lemma DiffIsCorrect(current: seq<Monitor>, previous: seq<Entry>, now: Instant)
    ensures IsDiff(current, previous, now, DiffOf(current, previous, now))
  {
    var table, known, diff := CurrentTable(current), PreviousTable(previous), DiffOf(current, previous, now);
    var present, absent := PresentEntries(table, known, now), AbsentEntries(known, table, now);
    CurrentTableIsMap(current);
    KeepLastIsMap(EntrySerial, previous);
    ChosenFrom(table, known, false);
    ChosenFrom(table, known, true);
    AbsentFrom(known, table, now);
    NextKeysDistinct(table, known, now);
    SortedIsMap(EntrySerial, EntryBefore, present + absent);
    forall k
      ensures IsDiffAt(current, previous, now, diff, k)
    {
      ChosenLookup(table, known, false, k);
      ChosenLookup(table, known, true, k);
      PresentLookup(table, known, now, k);
      AbsentLookup(known, table, now, k);
      FindInConcat(EntrySerial, present, absent, k);
      assert Find(MonitorSerial, table, k) == Smallest(current, k);
      assert Find(EntrySerial, known, k) == FindLast(EntrySerial, previous, k);
      assert Find(EntrySerial, diff.next, k) == Find(EntrySerial, present + absent, k);
    }
  }

  /** Nothing else satisfies the description. */
  lemma DiffIsDetermined(current: seq<Monitor>, previous: seq<Entry>, now: Instant, a: Diff, b: Diff)
    requires IsDiff(current, previous, now, a) && IsDiff(current, previous, now, b)
    ensures a == b
  {
    forall k
      ensures Find(MonitorSerial, a.added, k) == Find(MonitorSerial, b.added, k)
      ensures Find(MonitorSerial, a.retained, k) == Find(MonitorSerial, b.retained, k)
      ensures Find(EntrySerial, a.removed, k) == Find(EntrySerial, b.removed, k)
      ensures Find(EntrySerial, a.next, k) == Find(EntrySerial, b.next, k)
    {
      assert IsDiffAt(current, previous, now, a, k) && IsDiffAt(current, previous, now, b, k);
    }
    SameLookupsSameList(MonitorSerial, a.added, b.added);
    SameLookupsSameList(MonitorSerial, a.retained, b.retained);
    SameLookupsSameList(EntrySerial, a.removed, b.removed);
    SameLookupsSameList(EntrySerial, a.next, b.next);
  }

  /** Neither the order of the discovered records nor their repetition matters. */
  lemma DiffDependsOnSet(a: seq<Monitor>, b: seq<Monitor>, previous: seq<Entry>, now: Instant)
    requires forall m :: m in a <==> m in b
    ensures DiffOf(a, previous, now) == DiffOf(b, previous, now)
  {
    DiffIsCorrect(a, previous, now);
    DiffIsCorrect(b, previous, now);
    var diff := DiffOf(b, previous, now);
    forall k
      ensures IsDiffAt(a, previous, now, diff, k)
    {
      SmallestOfSet(a, b, k);
      assert IsDiffAt(b, previous, now, diff, k);
    }
    DiffIsDetermined(a, previous, now, DiffOf(a, previous, now), diff);
  }

  ghost predicate Discovered(current: seq<Monitor>, serial: string) {
    exists i :: 0 <= i < |current| && current[i].serial == serial
  }

  ghost predicate Stored(previous: seq<Entry>, serial: string) {
    exists i :: 0 <= i < |previous| && previous[i].serial == serial
  }

  lemma SeenIffDiscovered(current: seq<Monitor>, serial: string)
    ensures Smallest(current, serial).Some? <==> Discovered(current, serial)
  {
    SmallestIsSmallest(current, serial);
  }

  lemma {:induction false} KnownIffStored(previous: seq<Entry>, serial: string)
    ensures FindLast(EntrySerial, previous, serial).Some? <==> Stored(previous, serial)
  {
    if previous != [] {
      var init, last := previous[..|previous| - 1], previous[|previous| - 1];
      KnownIffStored(init, serial);
      if Stored(init, serial) {
        var i :| 0 <= i < |init| && init[i].serial == serial;
        assert previous[i].serial == serial;
      }
      if last.serial == serial {
        assert previous[|previous| - 1].serial == serial;
      }
    }
  }

  /** New, unchanged and removed serials partition the discovered and the stored ones,
      and the next state lists exactly their union. */
  lemma DiffPartitions(current: seq<Monitor>, previous: seq<Entry>, now: Instant, serial: string)
    ensures var diff := DiffOf(current, previous, now);
            var added, retained, removed := Has(MonitorSerial, diff.added, serial),
                Has(MonitorSerial, diff.retained, serial), Has(EntrySerial, diff.removed, serial);
            && (added <==> Discovered(current, serial) && !Stored(previous, serial))
            && (retained <==> Discovered(current, serial) && Stored(previous, serial))
            && (removed <==> !Discovered(current, serial) && Stored(previous, serial))
            && (Has(EntrySerial, diff.next, serial) <==> added || retained || removed)
  {
    DiffIsCorrect(current, previous, now);
    SeenIffDiscovered(current, serial);
    KnownIffStored(previous, serial);
    assert IsDiffAt(current, previous, now, DiffOf(current, previous, now), serial);
  }
}
