/** Whole runs of plans and forced check-ins, from an empty monitor state. */
module PlanRuns {
  import opened Wrappers
  import opened OrderedMap
  import opened Monitors
  import opened MonitorDiff
  import opened Planner
  import opened PlanConvergence

  datatype Event = Sync(x: Inputs, now: Instant) | ForcedCheckin(serials: seq<string>)

  function After(before: seq<Entry>, e: Event): seq<Entry> {
    match e
    case Sync(x, now) => PlanOf(x, before, now).next
    case ForcedCheckin(serials) => Forced(before, serials)
  }

  ghost predicate StepAt(states: seq<seq<Entry>>, events: seq<Event>, i: nat)
    requires |states| == |events| + 1 && i < |events|
  {
    states[i + 1] == After(states[i], events[i])
  }

  /** The stored monitors before and after every event. */
  ghost predicate Run(states: seq<seq<Entry>>, events: seq<Event>) {
    && |states| == |events| + 1
    && states[0] == []
    && forall i :: 0 <= i < |events| ==> StepAt(states, events, i)
  }

  predicate ClockNeverGoesBack(events: seq<Event>) {
    forall i, j :: 0 <= i < j < |events| && events[i].Sync? && events[j].Sync? ==> events[i].now <= events[j].now
  }

  ghost predicate DiscoveredAt(events: seq<Event>, i: nat, serial: string)
    requires i < |events|
  {
    events[i].Sync? && Discovered(Current(events[i].x.sightings), serial)
  }

  /** No plan among the events from `n` up to `k` discovered the serial. */
  ghost predicate Missed(events: seq<Event>, n: nat, k: nat, serial: string)
    requires k <= |events|
  {
    forall i: nat :: n <= i < k ==> !DiscoveredAt(events, i, serial)
  }

  predicate NoSyncBetween(events: seq<Event>, m: nat, n: nat)
    requires n <= |events|
  {
    forall i: nat :: m < i < n ==> !events[i].Sync?
  }

  // ----- One step

  lemma {:induction false} ForcedLookup(entries: seq<Entry>, serials: seq<string>, k: string)
    ensures Find(EntrySerial, Forced(entries, serials), k) ==
            match Find(EntrySerial, entries, k)
            case None => None
            case Some(e) => Some(CheckedIn(e, serials))
  {
    if entries != [] {
      assert Forced(entries, serials)[1..] == Forced(entries[1..], serials);
      ForcedLookup(entries[1..], serials, k);
    }
  }

  lemma AfterAscends(before: seq<Entry>, e: Event)
    requires Ascending(EntrySerial, before)
    ensures Ascending(EntrySerial, After(before, e))
  {
    match e
    case Sync(x, now) =>
      NextIsPredicted(x, before, now);
    case ForcedCheckin(serials) =>
      assert forall i :: 0 <= i < |before| ==> EntrySerial(Forced(before, serials)[i]) == EntrySerial(before[i]);
  }

  lemma {:induction false} StatesAscend(states: seq<seq<Entry>>, events: seq<Event>, k: nat)
    requires Run(states, events) && k < |states|
    ensures Ascending(EntrySerial, states[k])
  {
    if k > 0 {
      StatesAscend(states, events, k - 1);
      assert StepAt(states, events, k - 1);
      AfterAscends(states[k - 1], events[k - 1]);
    }
  }

  /** The entry of one serial once a plan has seen it or missed it. */
  predicate StepsTo(seen: bool, now: Instant, before: Option<Entry>, after: Option<Entry>) {
    if seen then after.Some? && after.value.absentSince == None
    else if before.None? then after.None?
    else after.Some? && after.value.absentSince ==
                        Some(if before.value.absentSince.Some? then before.value.absentSince.value else now)
  }

  /** What one plan makes of the absence of one serial. */
  lemma SyncStep(x: Inputs, stored: seq<Entry>, now: Instant, k: string)
    requires Ascending(EntrySerial, stored)
    ensures StepsTo(Discovered(Current(x.sightings), k), now, Find(EntrySerial, stored, k),
                    Find(EntrySerial, PlanOf(x, stored, now).next, k))
  {
    NextIsPredicted(x, stored, now);
    AscendingIsDistinct(EntrySerial, stored);
    FindLastInMap(EntrySerial, stored, k);
    SeenIffDiscovered(Current(x.sightings), k);
    assert Find(EntrySerial, NextState(x, stored, now), k) == Predicted(x, stored, now, k);
  }

  ghost predicate EntryStep(events: seq<Event>, k: nat, serial: string, before: Option<Entry>, after: Option<Entry>)
    requires k < |events|
  {
    if events[k].Sync? then StepsTo(DiscoveredAt(events, k, serial), events[k].now, before, after)
    else (before.Some? <==> after.Some?) && (after.Some? ==> after.value.absentSince == before.value.absentSince)
  }

  /** What one event makes of the absence of one serial. */
  lemma EventStep(states: seq<seq<Entry>>, events: seq<Event>, k: nat, serial: string)
    requires Run(states, events) && k < |events|
    ensures EntryStep(events, k, serial, Find(EntrySerial, states[k], serial), Find(EntrySerial, states[k + 1], serial))
  {
    assert StepAt(states, events, k);
    if events[k].Sync? {
      StatesAscend(states, events, k);
      SyncStep(events[k].x, states[k], events[k].now, serial);
    } else {
      ForcedLookup(states[k], events[k].serials, serial);
    }
  }

  // ----- Known serials and their absences

  /** The stored absence of one serial after `k` events, read off the history: present as long as the last plan
      discovered it, and otherwise absent since the first plan behind its last discovery. */
  ghost predicate AbsenceTold(events: seq<Event>, k: nat, serial: string, absentSince: Option<Instant>, m: nat, n: nat)
    requires k <= |events|
  {
    && m < k && DiscoveredAt(events, m, serial) && Missed(events, m + 1, k, serial)
    && match absentSince
       case None => NoSyncBetween(events, m, k)
       case Some(t) => m < n < k && events[n].Sync? && NoSyncBetween(events, m, n) && events[n].now == t
  }

  /** The entries of one serial along a run. */
  ghost predicate Traced(events: seq<Event>, found: seq<Option<Entry>>, serial: string) {
    && |found| == |events| + 1
    && found[0].None?
    && forall k {:trigger events[k]} :: 0 <= k < |events| ==> EntryStep(events, k, serial, found[k], found[k + 1])
  }

  /** One serial in every state. */
  ghost function Finds(states: seq<seq<Entry>>, serial: string): (found: seq<Option<Entry>>)
    ensures |found| == |states| && forall k :: 0 <= k < |states| ==> found[k] == Find(EntrySerial, states[k], serial)
  {
    seq(|states|, k requires 0 <= k < |states| => Find(EntrySerial, states[k], serial))
  }

  lemma TraceOf(states: seq<seq<Entry>>, events: seq<Event>, serial: string) returns (found: seq<Option<Entry>>)
    requires Run(states, events)
    ensures Traced(events, found, serial) && found == Finds(states, serial)
  {
    found := Finds(states, serial);
    forall k | 0 <= k < |events|
      ensures EntryStep(events, k, serial, found[k], found[k + 1])
    {
      EventStep(states, events, k, serial);
    }
  }

  ghost predicate EverDiscovered(events: seq<Event>, k: nat, serial: string)
    requires k <= |events|
  {
    exists i: nat :: i < k && DiscoveredAt(events, i, serial)
  }

  lemma {:induction false} TraceTellsDiscovery(events: seq<Event>, found: seq<Option<Entry>>, k: nat, serial: string)
    requires Traced(events, found, serial) && k < |found|
    ensures found[k].Some? <==> EverDiscovered(events, k, serial)
  {
    if k > 0 {
      TraceTellsDiscovery(events, found, k - 1, serial);
      assert EntryStep(events, k - 1, serial, found[k - 1], found[k]);
      assert EverDiscovered(events, k, serial) <==>
             EverDiscovered(events, k - 1, serial) || DiscoveredAt(events, k - 1, serial);
    }
  }

  /** A serial is stored exactly if some plan of the run discovered it: none is ever forgotten. */
  lemma KnownIffEverDiscovered(states: seq<seq<Entry>>, events: seq<Event>, k: nat, serial: string)
    requires Run(states, events) && k < |states|
    ensures Find(EntrySerial, states[k], serial).Some? <==> EverDiscovered(events, k, serial)
  {
    var found := TraceOf(states, events, serial);
    TraceTellsDiscovery(events, found, k, serial);
  }

  lemma {:induction false} TraceTellsAbsence(events: seq<Event>, found: seq<Option<Entry>>, k: nat, serial: string)
    returns (m: nat, n: nat)
    requires Traced(events, found, serial) && k < |found| && found[k].Some?
    ensures AbsenceTold(events, k, serial, found[k].value.absentSince, m, n)
  {
    assert EntryStep(events, k - 1, serial, found[k - 1], found[k]);
    if DiscoveredAt(events, k - 1, serial) {
      m, n := k - 1, 0;
    } else {
      m, n := TraceTellsAbsence(events, found, k - 1, serial);
      if events[k - 1].Sync? && found[k - 1].value.absentSince.None? {
        n := k - 1;
      }
    }
  }

  /** `absent_since` is the instant of the first plan that missed the serial, stays fixed until a
      plan discovers it again, and every plan since then missed it. */
  lemma AbsenceIsTold(states: seq<seq<Entry>>, events: seq<Event>, k: nat, serial: string)
    returns (m: nat, n: nat)
    requires Run(states, events) && k < |states| && Find(EntrySerial, states[k], serial).Some?
    ensures AbsenceTold(events, k, serial, Find(EntrySerial, states[k], serial).value.absentSince, m, n)
  {
    var found := TraceOf(states, events, serial);
    m, n := TraceTellsAbsence(events, found, k, serial);
  }

  // ----- Automatic check-ins

  /** Every plan from `n` up to `k` missed the serial, the one at `n` ran at `t`, and every plan after `t`
      is among them. */
  ghost predicate AbsentThroughout(events: seq<Event>, k: nat, serial: string, t: Instant, n: nat)
    requires k <= |events|
  {
    && n < k && events[n].Sync? && events[n].now == t
    && Missed(events, n, k, serial)
    && forall i: nat :: i < k && events[i].Sync? && events[i].now > t ==> !DiscoveredAt(events, i, serial)
  }

  lemma LaterIsBehind(events: seq<Event>, n: nat, i: nat)
    requires ClockNeverGoesBack(events) && n < |events| && i < |events| && events[n].Sync? && events[i].Sync?
    ensures events[i].now > events[n].now ==> n < i
  {
    if i < n {
      assert events[i].now <= events[n].now;
    }
  }

  lemma AbsentSinceThen(events: seq<Event>, k: nat, serial: string, t: Instant, m: nat, n: nat)
    requires k <= |events| && ClockNeverGoesBack(events) && AbsenceTold(events, k, serial, Some(t), m, n)
    ensures AbsentThroughout(events, k, serial, t, n)
  {
    forall i: nat | i < k && events[i].Sync? && events[i].now > t
      ensures !DiscoveredAt(events, i, serial)
    {
      LaterIsBehind(events, n, i);
    }
  }

  /** At least the threshold of the settings has passed. */
  predicate Lasted(x: Inputs, since: Instant, now: Instant) {
    now - since >= x.thresholdHours * HOUR
  }

  /** Why a plan checks an asset in: its monitor was checked out, every plan from an instant on has missed it,
      this one included, and at least the threshold has passed since that instant. */
  ghost predicate Justified(events: seq<Event>, k: nat, stored: seq<Entry>, asset: nat, serial: string,
                            t: Instant, n: nat)
    requires k < |events|
  {
    && events[k].Sync? && CheckinsEnabled(events[k].x)
    && AbsentThroughout(events, k + 1, serial, t, n)
    && Lasted(events[k].x, t, events[k].now)
    && var e := Find(EntrySerial, stored, serial);
       e.Some? && e.value.checkedOut && e.value.assetId == Some(asset)
  }

  /** A planned check-in is for a stored, checked-out serial that this plan misses, and its absence has lasted. */
  lemma CheckinComesFrom(x: Inputs, stored: seq<Entry>, now: Instant, j: nat) returns (e: Entry, t: Instant)
    requires Ascending(EntrySerial, stored) && j < |PlanOf(x, stored, now).checkins|
    ensures Find(EntrySerial, stored, e.serial) == Some(e)
    ensures CheckinsEnabled(x) && e.checkedOut && e.assetId == Some(PlanOf(x, stored, now).checkins[j].source)
    ensures !Discovered(Current(x.sightings), e.serial)
    ensures t == if e.absentSince.Some? then e.absentSince.value else now
    ensures Lasted(x, t, now)
  {
    var removed := DiffOf(Current(x.sightings), stored, now).removed;
    var r := PlannedIsReturn(x, removed, now, j);
    var i := RemovedIsStored(Current(x.sightings), stored, now, r);
    e, t := stored[i], removed[r].absentSince.value;
    AscendingIsDistinct(EntrySerial, stored);
    FindAt(EntrySerial, stored, i);
  }

  lemma AbsentAfterMiss(events: seq<Event>, k: nat, e: Entry, after: Option<Entry>)
    requires k < |events| && events[k].Sync? && !DiscoveredAt(events, k, e.serial)
    requires EntryStep(events, k, e.serial, Some(e), after)
    ensures after.Some?
    ensures after.value.absentSince == Some(if e.absentSince.Some? then e.absentSince.value else events[k].now)
  {
  }

  /** A stored serial that a plan misses has been absent ever since the instant that is stored afterwards. */
  lemma MissedSince(states: seq<seq<Entry>>, events: seq<Event>, k: nat, e: Entry, t: Instant) returns (n: nat)
    requires Run(states, events) && ClockNeverGoesBack(events) && k < |events| && events[k].Sync?
    requires Find(EntrySerial, states[k], e.serial) == Some(e) && !DiscoveredAt(events, k, e.serial)
    requires t == if e.absentSince.Some? then e.absentSince.value else events[k].now
    ensures AbsentThroughout(events, k + 1, e.serial, t, n)
  {
    EventStep(states, events, k, e.serial);
    AbsentAfterMiss(events, k, e, Find(EntrySerial, states[k + 1], e.serial));
    var m;
    m, n := AbsenceIsTold(states, events, k + 1, e.serial);
    AbsentSinceThen(events, k + 1, e.serial, t, m, n);
  }

  /** Every automatic check-in of every plan of a run is justified. */
  lemma CheckinNeedsContinuousAbsence(states: seq<seq<Entry>>, events: seq<Event>, k: nat, j: nat)
    returns (serial: string, t: Instant, n: nat)
    requires Run(states, events) && ClockNeverGoesBack(events) && k < |events| && events[k].Sync?
    requires j < |PlanOf(events[k].x, states[k], events[k].now).checkins|
    ensures var asset := PlanOf(events[k].x, states[k], events[k].now).checkins[j].source;
            Justified(events, k, states[k], asset, serial, t, n)
  {
    StatesAscend(states, events, k);
    var e;
    e, t := CheckinComesFrom(events[k].x, states[k], events[k].now, j);
    serial := e.serial;
    n := MissedSince(states, events, k, e, t);
  }
}
