/** Planning again from the predicted state, with the same inputs at the same instant, asks for nothing. */
module PlanConvergence {
  import opened Wrappers
  import opened OrderedMap
  import opened Monitors
  import opened MonitorDiff
  import opened Planner
  import opened Whitespace
  import SerialOrder

  // ----- Duplicated serials

  /** How often a serial is discovered. */
  function Multiplicity(sightings: seq<Sighting>, serial: string): nat {
    if sightings == [] then 0
    else Multiplicity(sightings[..|sightings| - 1], serial)
         + if sightings[|sightings| - 1].monitor.serial == serial then 1 else 0
  }

  lemma {:induction false} TalliesCount(sightings: seq<Sighting>, serial: string)
    ensures Ascending(TallySerial, Tallied(sightings))
    ensures CountIn(Tallied(sightings), serial) == Multiplicity(sightings, serial)
  {
    if sightings != [] {
      var before, last := Tallied(sightings[..|sightings| - 1]), sightings[|sightings| - 1].monitor.serial;
      TalliesCount(sightings[..|sightings| - 1], serial);
      TalliesCount(sightings[..|sightings| - 1], last);
      var tally := Tally(last, CountIn(before, last) + 1);
      PutAscends(TallySerial, before, tally);
      PutIsPut(TallySerial, before, tally, serial);
    }
  }

  lemma {:induction false} RepeatedAre(tallies: seq<Tally>, serial: string)
    requires Ascending(TallySerial, tallies)
    ensures serial in Repeated(tallies) <==> CountIn(tallies, serial) > 1
  {
    if tallies != [] {
      var init, last := tallies[..|tallies| - 1], tallies[|tallies| - 1];
      RepeatedAre(init, serial);
      FindSnoc(TallySerial, tallies, serial);
      LastIsNew(TallySerial, tallies);
    }
  }

  /** Exactly the serials that are discovered more than once suppress changes. */
  lemma DuplicatesAreRepeated(sightings: seq<Sighting>, serial: string)
    ensures serial in Duplicates(sightings) <==> Multiplicity(sightings, serial) > 1
  {
    TalliesCount(sightings, serial);
    RepeatedAre(Tallied(sightings), serial);
  }

  lemma {:induction false} SeenOnce(sightings: seq<Sighting>, i: nat)
    requires i < |sightings|
    ensures Multiplicity(sightings, sightings[i].monitor.serial) >= 1
  {
    if i < |sightings| - 1 {
      SeenOnce(sightings[..|sightings| - 1], i);
    }
  }

  lemma {:induction false} SeenTwice(sightings: seq<Sighting>, i: nat, j: nat)
    requires i < j < |sightings| && sightings[i].monitor.serial == sightings[j].monitor.serial
    ensures Multiplicity(sightings, sightings[i].monitor.serial) > 1
  {
    var init := sightings[..|sightings| - 1];
    if j < |init| {
      SeenTwice(init, i, j);
    } else {
      SeenOnce(init, i);
    }
  }

  lemma SameSerial(sightings: seq<Sighting>, i: nat, j: nat)
    requires i < |sightings| && j < |sightings| && sightings[i].monitor.serial == sightings[j].monitor.serial
    ensures i == j || sightings[i].monitor.serial in Duplicates(sightings)
  {
    DuplicatesAreRepeated(sightings, sightings[i].monitor.serial);
    if i < j {
      SeenTwice(sightings, i, j);
    } else if j < i {
      SeenTwice(sightings, j, i);
    }
  }

  /** A serial that is not duplicated leads back to its one sighting. */
  lemma OnlySighting(sightings: seq<Sighting>, i: nat)
    requires i < |sightings| && sightings[i].monitor.serial !in Duplicates(sightings)
    ensures Find(SightingSerial, sightings, sightings[i].monitor.serial) == Some(sightings[i])
  {
    FoundIfPresent(SightingSerial, sightings, i);
    var found := Find(SightingSerial, sightings, sightings[i].monitor.serial).value;
    var j: nat :| j < |sightings| && sightings[j] == found;
    SameSerial(sightings, i, j);
  }

  lemma {:induction false} FoundIfPresent<V>(key: V -> string, s: seq<V>, i: nat)
    requires i < |s|
    ensures Find(key, s, key(s[i])).Some?
  {
    if i > 0 {
      FoundIfPresent(key, s[1..], i - 1);
    }
  }

  lemma SightingFound(sightings: seq<Sighting>, serial: string)
    ensures Find(SightingSerial, sightings, serial).Some? <==> Discovered(Current(sightings), serial)
  {
    if Discovered(Current(sightings), serial) {
      var i :| 0 <= i < |Current(sightings)| && Current(sightings)[i].serial == serial;
      FoundIfPresent(SightingSerial, sightings, i);
    }
    if Find(SightingSerial, sightings, serial).Some? {
      var found := Find(SightingSerial, sightings, serial).value;
      var j: nat :| j < |sightings| && sightings[j] == found;
      assert Current(sightings)[j].serial == serial;
    }
  }

  // ----- The operations of a plan

  lemma {:induction false} EmittedIsCollected(decisions: seq<Decision>, i: nat)
    requires i < |decisions| && decisions[i].Emit?
    requires forall k :: 0 <= k < |decisions| ==> !decisions[k].Stop?
    ensures ChecksOut(Emitted(decisions), Some(decisions[i].operation.source))
  {
    var all, rest, source := Emitted(decisions), Emitted(decisions[1..]), decisions[i].operation.source;
    if i == 0 {
      assert all[0].source == source;
    } else {
      EmittedIsCollected(decisions[1..], i - 1);
      var k :| 0 <= k < |rest| && Some(rest[k].source) == Some(source);
      if decisions[0].Emit? {
        assert all[k + 1] == rest[k];
      }
    }
  }

  lemma EmittedIsPlanned(x: Inputs, stored: seq<Entry>, i: nat)
    requires i < |x.sightings| && ComputerId(x.asset).Some?
    requires Decide(x, stored, x.sightings[i]).Emit?
    ensures ChecksOut(CheckoutsOf(x, stored), Some(Decide(x, stored, x.sightings[i]).operation.source))
  {
    EmittedIsCollected(Decisions(x, stored), i);
  }

  /** Every operation comes from a decision, and the later ones come from behind it. */
  lemma {:induction false} CollectedIsEmitted(decisions: seq<Decision>, k: nat) returns (i: nat)
    requires k < |Emitted(decisions)|
    ensures i < |decisions| && decisions[i] == Emit(Emitted(decisions)[k])
    ensures Emitted(decisions)[k + 1..] == Emitted(decisions[i + 1..])
  {
    if decisions[0].Emit? && k == 0 {
      i := 0;
    } else {
      i := CollectedIsEmitted(decisions[1..], if decisions[0].Emit? then k - 1 else k);
      assert decisions[1..][i + 1..] == decisions[i + 2..];
      i := i + 1;
    }
  }

  lemma PlannedIsEmitted(x: Inputs, stored: seq<Entry>, k: nat) returns (i: nat)
    requires k < |CheckoutsOf(x, stored)|
    ensures i < |x.sightings| && Decide(x, stored, x.sightings[i]) == Emit(CheckoutsOf(x, stored)[k])
  {
    i := CollectedIsEmitted(Decisions(x, stored), k);
  }

  lemma NoEmissionNoCheckouts(x: Inputs, stored: seq<Entry>)
    requires forall i :: 0 <= i < |x.sightings| ==> !Decide(x, stored, x.sightings[i]).Emit?
    ensures CheckoutsOf(x, stored) == []
  {
    if CheckoutsOf(x, stored) != [] {
      var i := PlannedIsEmitted(x, stored, 0);
    }
  }

  predicate IsReturned(x: Inputs, e: Entry, now: Instant) {
    Eligible(x, e, now) && Returned(x, e).Success?
  }

  lemma {:induction false} ReturnIsPlanned(x: Inputs, removed: seq<Entry>, now: Instant, i: nat)
    requires i < |removed| && IsReturned(x, removed[i], now)
    ensures ChecksIn(CheckinsOf(x, removed, now), removed[i].assetId)
  {
    var init := removed[..|removed| - 1];
    var all, before := CheckinsOf(x, removed, now), CheckinsOf(x, init, now);
    if i == |init| {
      assert all[|before|].source == removed[i].assetId.value;
    } else {
      ReturnIsPlanned(x, init, now, i);
      var k :| 0 <= k < |before| && Some(before[k].source) == removed[i].assetId;
      assert all[k] == before[k];
    }
  }

  lemma {:induction false} PlannedIsReturn(x: Inputs, removed: seq<Entry>, now: Instant, k: nat) returns (i: nat)
    requires k < |CheckinsOf(x, removed, now)|
    ensures i < |removed| && IsReturned(x, removed[i], now)
    ensures CheckinsOf(x, removed, now)[k] == Returned(x, removed[i]).value
  {
    var init := removed[..|removed| - 1];
    var before := CheckinsOf(x, init, now);
    if k < |before| {
      i := PlannedIsReturn(x, init, now, k);
    } else {
      i := |init|;
    }
  }

  // ----- The predicted state, serial by serial

  lemma {:induction false} PlannedLookup(x: Inputs, checkouts: seq<Checkout>, checkins: seq<Checkin>,
                                         a: seq<Entry>, b: seq<Entry>, k: string)
    requires |a| == |b| && forall i :: 0 <= i < |a| ==> b[i] == Planned(x.sightings, checkouts, checkins, a[i])
    ensures Find(EntrySerial, b, k) ==
            match Find(EntrySerial, a, k)
            case None => None
            case Some(e) => Some(Planned(x.sightings, checkouts, checkins, e))
  {
    if a != [] {
      PlannedLookup(x, checkouts, checkins, a[1..], b[1..], k);
    }
  }

  /** What the plan predicts for one serial. */
  function Predicted(x: Inputs, stored: seq<Entry>, now: Instant, k: string): Option<Entry> {
    var plan := PlanOf(x, stored, now);
    match Merged(Current(x.sightings), stored, now, k)
    case None => None
    case Some(e) => Some(Planned(x.sightings, plan.checkouts, plan.checkins, e))
  }

  /** The next state lists the predictions in order of serial. */
  lemma NextIsPredicted(x: Inputs, stored: seq<Entry>, now: Instant)
    ensures Ascending(EntrySerial, NextState(x, stored, now))
    ensures forall k :: Find(EntrySerial, NextState(x, stored, now), k) == Predicted(x, stored, now, k)
  {
    var current := Current(x.sightings);
    var diff, plan, next := DiffOf(current, stored, now), PlanOf(x, stored, now), NextState(x, stored, now);
    DiffIsCorrect(current, stored, now);
    forall i, j | 0 <= i < j < |next|
      ensures SerialOrder.Less(EntrySerial(next[i]), EntrySerial(next[j]))
    {
      assert SerialOrder.Less(EntrySerial(diff.next[i]), EntrySerial(diff.next[j]));
    }
    forall k
      ensures Find(EntrySerial, next, k) == Predicted(x, stored, now, k)
    {
      PlannedLookup(x, plan.checkouts, plan.checkins, diff.next, next, k);
      assert IsDiffAt(current, stored, now, diff, k);
    }
  }

  // ----- Convergence

  /** A discovered monitor that would be checked out unless it already is. */
  predicate Movable(x: Inputs, s: Sighting) {
    && s.monitor.serial !in Duplicates(x.sightings) && Nonzero(s.assetId).Some? && TaxonomyResolved(s.taxonomy)
    && ComputerId(x.asset).Some? && x.checkoutStatus != 0
  }

  /** A stored monitor that is absent and would be checked in if it is checked out. */
  ghost predicate Due(x: Inputs, e: Entry, now: Instant) {
    && CheckinsEnabled(x) && x.checkinStatus != 0
    && !Discovered(Current(x.sightings), e.serial)
    && Eligible(x, AbsentEntry(e, now).(checkedOut := true), now)
  }

  /** A discovered and an absent monitor share an asset on which the plan acts. */
  ghost predicate Conflict(x: Inputs, stored: seq<Entry>, now: Instant, s: Sighting, e: Entry) {
    && Movable(x, s) && Due(x, e, now) && e.assetId == s.assetId
    && (e.checkedOut || !AlreadyCheckedOut(stored, s.monitor.serial))
  }

  ghost predicate ConflictFree(x: Inputs, stored: seq<Entry>, now: Instant) {
    forall i, j :: 0 <= i < |x.sightings| && 0 <= j < |stored| ==> !Conflict(x, stored, now, x.sightings[i], stored[j])
  }

  lemma IdsNotBlank(source: nat, target: nat, status: nat)
    ensures !Blank(CheckoutId(source, target, status)) && !Blank(CheckinId(source, status))
  {
    assert !IsSpace(CheckoutId(source, target, status)[0]) && !IsSpace(CheckinId(source, status)[0]);
  }

  /** What is checked out is movable and was not checked out; and the other way around. */
  lemma EmitsIff(x: Inputs, stored: seq<Entry>, s: Sighting)
    ensures Decide(x, stored, s).Emit? <==> Movable(x, s) && !AlreadyCheckedOut(stored, s.monitor.serial)
    ensures Decide(x, stored, s).Emit? ==> Some(Decide(x, stored, s).operation.source) == s.assetId
  {
    if Nonzero(s.assetId).Some? && ComputerId(x.asset).Some? {
      IdsNotBlank(s.assetId.value, ComputerId(x.asset).value, x.checkoutStatus);
    }
  }

  /** What is checked in is due and was checked out; and the other way around. */
  lemma ReturnsIff(x: Inputs, e: Entry, now: Instant)
    requires !Discovered(Current(x.sightings), e.serial)
    ensures CheckinsEnabled(x) && IsReturned(x, AbsentEntry(e, now), now) <==>
            e.checkedOut && Due(x, e, now) && Nonzero(e.assetId).Some?
  {
    if e.assetId.Some? {
      IdsNotBlank(e.assetId.value, 0, x.checkinStatus);
    }
  }

  /** An entry of the removed list comes from the last stored entry with its serial. */
  lemma RemovedIsStored(current: seq<Monitor>, stored: seq<Entry>, now: Instant, r: nat) returns (j: nat)
    requires r < |DiffOf(current, stored, now).removed|
    ensures j < |stored| && !Discovered(current, stored[j].serial)
    ensures DiffOf(current, stored, now).removed[r] == AbsentEntry(stored[j], now)
    ensures FindLast(EntrySerial, stored, stored[j].serial) == Some(stored[j])
  {
    var diff := DiffOf(current, stored, now);
    var serial := diff.removed[r].serial;
    DiffIsCorrect(current, stored, now);
    FindAt(EntrySerial, diff.removed, r);
    assert IsDiffAt(current, stored, now, diff, serial);
    SeenIffDiscovered(current, serial);
    var known := FindLast(EntrySerial, stored, serial).value;
    j :| 0 <= j < |stored| && stored[j] == known;
  }

  /** An absent stored monitor is on the removed list. */
  lemma StoredIsRemoved(current: seq<Monitor>, stored: seq<Entry>, now: Instant, serial: string) returns (r: nat)
    requires !Discovered(current, serial) && FindLast(EntrySerial, stored, serial).Some?
    ensures r < |DiffOf(current, stored, now).removed|
    ensures DiffOf(current, stored, now).removed[r] == AbsentEntry(FindLast(EntrySerial, stored, serial).value, now)
  {
    var diff := DiffOf(current, stored, now);
    DiffIsCorrect(current, stored, now);
    SeenIffDiscovered(current, serial);
    assert IsDiffAt(current, stored, now, diff, serial);
    r :| 0 <= r < |diff.removed| && diff.removed[r] == Find(EntrySerial, diff.removed, serial).value;
  }

  lemma ReturnIsDue(x: Inputs, stored: seq<Entry>, now: Instant, r: nat) returns (j: nat)
    requires CheckinsEnabled(x) && r < |DiffOf(Current(x.sightings), stored, now).removed|
    requires IsReturned(x, DiffOf(Current(x.sightings), stored, now).removed[r], now)
    ensures j < |stored| && stored[j].checkedOut && Due(x, stored[j], now)
    ensures stored[j].assetId == DiffOf(Current(x.sightings), stored, now).removed[r].assetId
  {
    j := RemovedIsStored(Current(x.sightings), stored, now, r);
    ReturnsIff(x, stored[j], now);
  }

  /** Whatever is checked in comes from an absent monitor that is due. */
  lemma CheckinIsDue(x: Inputs, stored: seq<Entry>, now: Instant, id: Option<nat>) returns (j: nat)
    requires ChecksIn(PlanOf(x, stored, now).checkins, id)
    ensures j < |stored| && stored[j].assetId == id && stored[j].checkedOut && Due(x, stored[j], now)
  {
    var removed := DiffOf(Current(x.sightings), stored, now).removed;
    var checkins := CheckinsOf(x, removed, now);
    var k :| 0 <= k < |checkins| && Some(checkins[k].source) == id;
    var r := PlannedIsReturn(x, removed, now, k);
    j := ReturnIsDue(x, stored, now, r);
  }

  /** Whatever is checked out comes from a movable monitor that was not checked out. */
  lemma CheckoutIsMovable(x: Inputs, stored: seq<Entry>, id: Option<nat>) returns (i: nat)
    requires ChecksOut(CheckoutsOf(x, stored), id)
    ensures i < |x.sightings| && x.sightings[i].assetId == id
    ensures Movable(x, x.sightings[i]) && !AlreadyCheckedOut(stored, x.sightings[i].monitor.serial)
  {
    var checkouts := CheckoutsOf(x, stored);
    var k :| 0 <= k < |checkouts| && Some(checkouts[k].source) == id;
    i := PlannedIsEmitted(x, stored, k);
    EmitsIff(x, stored, x.sightings[i]);
  }

  /** The entry that the plan predicts for a discovered monitor. */
  lemma PredictedPresent(x: Inputs, stored: seq<Entry>, now: Instant, i: nat) returns (e: Entry)
    requires i < |x.sightings| && x.sightings[i].monitor.serial !in Duplicates(x.sightings)
    ensures var serial, plan := x.sightings[i].monitor.serial, PlanOf(x, stored, now);
            var known := FindLast(EntrySerial, stored, serial);
            && Find(EntrySerial, plan.next, serial) == Some(e)
            && e.assetId == x.sightings[i].assetId
            && (e.checkedOut <==> !ChecksIn(plan.checkins, e.assetId)
                                  && ((known.Some? && known.value.checkedOut) || ChecksOut(plan.checkouts, e.assetId)))
  {
    var serial := x.sightings[i].monitor.serial;
    NextIsPredicted(x, stored, now);
    assert Current(x.sightings)[i].serial == serial;
    SeenIffDiscovered(Current(x.sightings), serial);
    OnlySighting(x.sightings, i);
    e := Find(EntrySerial, NextState(x, stored, now), serial).value;
  }

  /** A movable monitor ends checked out exactly if nothing checks its asset in. */
  lemma MovableEndsOut(x: Inputs, stored: seq<Entry>, now: Instant, i: nat)
    requires DistinctKeys(EntrySerial, stored) && i < |x.sightings| && Movable(x, x.sightings[i])
    ensures AlreadyCheckedOut(NextState(x, stored, now), x.sightings[i].monitor.serial) <==>
            !ChecksIn(PlanOf(x, stored, now).checkins, x.sightings[i].assetId)
  {
    var serial := x.sightings[i].monitor.serial;
    var e := PredictedPresent(x, stored, now, i);
    FindLastInMap(EntrySerial, stored, serial);
    EmitsIff(x, stored, x.sightings[i]);
    if !AlreadyCheckedOut(stored, serial) {
      EmittedIsPlanned(x, stored, i);
    }
  }

  lemma NoSecondCheckout(x: Inputs, stored: seq<Entry>, now: Instant, i: nat)
    requires DistinctKeys(EntrySerial, stored) && ConflictFree(x, stored, now) && i < |x.sightings|
    ensures !Decide(x, NextState(x, stored, now), x.sightings[i]).Emit?
  {
    EmitsIff(x, NextState(x, stored, now), x.sightings[i]);
    if Movable(x, x.sightings[i]) {
      MovableEndsOut(x, stored, now, i);
      if ChecksIn(PlanOf(x, stored, now).checkins, x.sightings[i].assetId) {
        var j := CheckinIsDue(x, stored, now, x.sightings[i].assetId);
        assert Conflict(x, stored, now, x.sightings[i], stored[j]);
      }
    }
  }

  /** The entry that the plan predicts for an absent monitor. */
  lemma PredictedAbsent(x: Inputs, stored: seq<Entry>, now: Instant, serial: string)
    requires !Discovered(Current(x.sightings), serial) && FindLast(EntrySerial, stored, serial).Some?
    ensures var absent, plan := AbsentEntry(FindLast(EntrySerial, stored, serial).value, now), PlanOf(x, stored, now);
            Find(EntrySerial, plan.next, serial) ==
            Some(absent.(checkedOut := !ChecksIn(plan.checkins, absent.assetId)
                                       && (absent.checkedOut || ChecksOut(plan.checkouts, absent.assetId))))
  {
    NextIsPredicted(x, stored, now);
    SeenIffDiscovered(Current(x.sightings), serial);
    SightingFound(x.sightings, serial);
  }

  /** An absent monitor of the predicted state is the last stored one of its serial, up to its flag. */
  lemma AbsentAgain(x: Inputs, stored: seq<Entry>, now: Instant, i: nat) returns (j: nat)
    requires i < |NextState(x, stored, now)| && !Discovered(Current(x.sightings), NextState(x, stored, now)[i].serial)
    ensures j < |stored| && FindLast(EntrySerial, stored, stored[j].serial) == Some(stored[j])
    ensures !Discovered(Current(x.sightings), stored[j].serial)
    ensures var e, absent, plan := NextState(x, stored, now)[i], AbsentEntry(stored[j], now), PlanOf(x, stored, now);
            e == absent.(checkedOut := !ChecksIn(plan.checkins, absent.assetId)
                                       && (absent.checkedOut || ChecksOut(plan.checkouts, absent.assetId)))
  {
    var next := NextState(x, stored, now);
    var serial := next[i].serial;
    NextIsPredicted(x, stored, now);
    FindAt(EntrySerial, next, i);
    SeenIffDiscovered(Current(x.sightings), serial);
    assert Predicted(x, stored, now, serial).Some?;
    PredictedAbsent(x, stored, now, serial);
    var known := FindLast(EntrySerial, stored, serial).value;
    j :| 0 <= j < |stored| && stored[j] == known;
  }

  lemma NoSecondCheckin(x: Inputs, stored: seq<Entry>, now: Instant, i: nat)
    requires ConflictFree(x, stored, now) && i < |NextState(x, stored, now)|
    ensures var e := NextState(x, stored, now)[i];
            !Discovered(Current(x.sightings), e.serial) ==>
              !(CheckinsEnabled(x) && IsReturned(x, AbsentEntry(e, now), now))
  {
    var e := NextState(x, stored, now)[i];
    if !Discovered(Current(x.sightings), e.serial) {
      ReturnsIff(x, e, now);
      var j := AbsentAgain(x, stored, now, i);
      ReturnsIff(x, stored[j], now);
      if stored[j].checkedOut && Due(x, e, now) && Nonzero(e.assetId).Some? {
        var r := StoredIsRemoved(Current(x.sightings), stored, now, stored[j].serial);
        ReturnIsPlanned(x, DiffOf(Current(x.sightings), stored, now).removed, now, r);
      } else if ChecksOut(CheckoutsOf(x, stored), e.assetId) && Due(x, e, now) {
        var k := CheckoutIsMovable(x, stored, e.assetId);
        assert Conflict(x, stored, now, x.sightings[k], stored[j]);
      }
    }
  }

  /** The difference between the same discovery and the predicted state changes nothing. */
  lemma PredictionIsStable(x: Inputs, stored: seq<Entry>, now: Instant)
    ensures DiffOf(Current(x.sightings), NextState(x, stored, now), now).next == NextState(x, stored, now)
  {
    var current, next := Current(x.sightings), NextState(x, stored, now);
    var again := DiffOf(current, next, now).next;
    NextIsPredicted(x, stored, now);
    DiffIsCorrect(current, next, now);
    AscendingIsDistinct(EntrySerial, next);
    forall k
      ensures Find(EntrySerial, again, k) == Find(EntrySerial, next, k)
    {
      FindLastInMap(EntrySerial, next, k);
      assert IsDiffAt(current, next, now, DiffOf(current, next, now), k);
      assert Find(EntrySerial, next, k) == Predicted(x, stored, now, k);
    }
    SameLookupsSameList(EntrySerial, again, next);
  }

  lemma AssetsAlreadyPlanned(x: Inputs, stored: seq<Entry>, now: Instant, i: nat)
    requires i < |NextState(x, stored, now)|
    ensures Planned(x.sightings, [], [], NextState(x, stored, now)[i]) == NextState(x, stored, now)[i]
  {
    var diff := DiffOf(Current(x.sightings), stored, now);
    assert NextState(x, stored, now)[i].serial == diff.next[i].serial;
  }

  lemma NothingAgain(x: Inputs, stored: seq<Entry>, now: Instant)
    requires DistinctKeys(EntrySerial, stored) && ConflictFree(x, stored, now)
    ensures var again := PlanOf(x, NextState(x, stored, now), now); again.checkouts == [] && again.checkins == []
  {
    var next := NextState(x, stored, now);
    forall i | 0 <= i < |x.sightings|
      ensures !Decide(x, next, x.sightings[i]).Emit?
    {
      NoSecondCheckout(x, stored, now, i);
    }
    NoEmissionNoCheckouts(x, next);
    var removed := DiffOf(Current(x.sightings), next, now).removed;
    if CheckinsEnabled(x) && CheckinsOf(x, removed, now) != [] {
      var r := PlannedIsReturn(x, removed, now, 0);
      var i := RemovedIsStored(Current(x.sightings), next, now, r);
      NoSecondCheckin(x, stored, now, i);
    }
  }

  lemma SameAfterNothing(x: Inputs, stored: seq<Entry>, now: Instant)
    requires var next := NextState(x, stored, now);
             && CheckoutsOf(x, next) == [] && PlanOf(x, next, now).checkins == []
             && DiffOf(Current(x.sightings), next, now).next == next
    ensures NextState(x, NextState(x, stored, now), now) == NextState(x, stored, now)
  {
    var next := NextState(x, stored, now);
    var again := NextState(x, next, now);
    forall i: nat | i < |next|
      ensures again[i] == next[i]
    {
      AssetsAlreadyPlanned(x, stored, now, i);
    }
  }

  /** When an absent monitor that is due shares its asset, something is planned again. */
  lemma ConflictRepeats(x: Inputs, stored: seq<Entry>, now: Instant, i: nat, j: nat)
    requires DistinctKeys(EntrySerial, stored) && i < |x.sightings| && j < |stored|
    requires Conflict(x, stored, now, x.sightings[i], stored[j])
    ensures var again := PlanOf(x, NextState(x, stored, now), now); again.checkouts != [] || again.checkins != []
  {
    var next, plan := NextState(x, stored, now), PlanOf(x, stored, now);
    StoredIsLast(stored, j);
    MovableEndsOut(x, stored, now, i);
    EmitsIff(x, stored, x.sightings[i]);
    EmitsIff(x, next, x.sightings[i]);
    ReturnsIff(x, stored[j], now);
    if stored[j].checkedOut {
      var r := StoredIsRemoved(Current(x.sightings), stored, now, stored[j].serial);
      ReturnIsPlanned(x, DiffOf(Current(x.sightings), stored, now).removed, now, r);
    } else {
      EmittedIsPlanned(x, stored, i);
    }
    if ChecksIn(plan.checkins, stored[j].assetId) {
      EmittedIsPlanned(x, next, i);
    } else {
      CheckinRepeats(x, stored, now, j);
    }
  }

  lemma {:induction false} StoredIsLast(stored: seq<Entry>, j: nat)
    requires DistinctKeys(EntrySerial, stored) && j < |stored|
    ensures FindLast(EntrySerial, stored, stored[j].serial) == Some(stored[j])
  {
    if j < |stored| - 1 {
      assert EntrySerial(stored[j]) != EntrySerial(stored[|stored| - 1]);
      StoredIsLast(stored[..|stored| - 1], j);
    }
  }

  /** An absent monitor that is due and that the plan marks as checked out along with a discovered one is
      checked in next. */
  lemma CheckinRepeats(x: Inputs, stored: seq<Entry>, now: Instant, j: nat)
    requires j < |stored| && FindLast(EntrySerial, stored, stored[j].serial) == Some(stored[j])
    requires Due(x, stored[j], now) && Nonzero(stored[j].assetId).Some?
    ensures var plan := PlanOf(x, stored, now);
            ChecksOut(plan.checkouts, stored[j].assetId) && !ChecksIn(plan.checkins, stored[j].assetId) ==>
              PlanOf(x, NextState(x, stored, now), now).checkins != []
  {
    var current, next := Current(x.sightings), NextState(x, stored, now);
    var plan, serial := PlanOf(x, stored, now), stored[j].serial;
    if ChecksOut(plan.checkouts, stored[j].assetId) && !ChecksIn(plan.checkins, stored[j].assetId) {
      PredictedAbsent(x, stored, now, serial);
      NextIsPredicted(x, stored, now);
      AscendingIsDistinct(EntrySerial, next);
      FindLastInMap(EntrySerial, next, serial);
      var e := Find(EntrySerial, next, serial).value;
      ReturnsIff(x, e, now);
      var r := StoredIsRemoved(current, next, now, serial);
      ReturnIsPlanned(x, DiffOf(current, next, now).removed, now, r);
    }
  }

  /** Planning again from the predicted state, with the same inputs at the same instant, predicts the same state and
      asks for no check-out and no check-in, exactly if no absent monitor that is due shares its asset with a
      discovered one that the plan would move. */
  lemma ConvergesIff(x: Inputs, stored: seq<Entry>, now: Instant)
    requires DistinctKeys(EntrySerial, stored)
    ensures var plan := PlanOf(x, stored, now);
            var again := PlanOf(x, plan.next, now);
            again.checkouts == [] && again.checkins == [] && again.next == plan.next <==> ConflictFree(x, stored, now)
  {
    if ConflictFree(x, stored, now) {
      NothingAgain(x, stored, now);
      PredictionIsStable(x, stored, now);
      SameAfterNothing(x, stored, now);
    } else {
      var i: nat, j: nat :| i < |x.sightings| && j < |stored| && Conflict(x, stored, now, x.sightings[i], stored[j]);
      ConflictRepeats(x, stored, now, i, j);
    }
  }

  /** No absent monitor is stored with the asset of a discovered one. */
  ghost predicate PresentApart(x: Inputs, stored: seq<Entry>) {
    forall i, j :: 0 <= i < |x.sightings| && 0 <= j < |stored|
                   && x.sightings[i].monitor.serial !in Duplicates(x.sightings) && Nonzero(x.sightings[i].assetId).Some?
                   && !Discovered(Current(x.sightings), stored[j].serial)
                   ==> stored[j].assetId != x.sightings[i].assetId
  }

  /** With distinct stored serials and assets that do not alias, planning converges in one step. */
  lemma Converges(x: Inputs, stored: seq<Entry>, now: Instant)
    requires DistinctKeys(EntrySerial, stored) && PresentApart(x, stored)
    ensures var plan := PlanOf(x, stored, now);
            var again := PlanOf(x, plan.next, now);
            again.checkouts == [] && again.checkins == [] && again.next == plan.next
  {
    ConvergesIff(x, stored, now);
  }
}
