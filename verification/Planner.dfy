/** Synchronization planning (spotter-core/src/sync.rs) with the request builders that it
    calls (spotter-core/src/snipeit/mod.rs). */
module Planner {
  import opened Wrappers
  import opened OrderedMap
  import opened Monitors
  import opened Whitespace
  import Decimal
  import Smbios

  datatype Resolution = Resolved(id: nat) | Missing | Ambiguous

  datatype Taxonomy = Taxonomy(manufacturer: Resolution, category: Resolution, model: Resolution)

  /** A discovered monitor with its remote asset and taxonomy. */
  datatype Sighting = Sighting(monitor: Monitor, assetId: Option<nat>, taxonomy: Taxonomy)

  datatype Asset = Asset(id: nat, serial: Option<string>, assetTag: Option<string>, model: Option<nat>)

  datatype Patch = Patch(serial: Option<string>, assetTag: Option<string>, model: Option<nat>)

  datatype CheckinPolicy = Manual | AutoNonPortable

  datatype Checkout = Checkout(operationId: string, source: nat, target: nat, status: nat)

  datatype Checkin = Checkin(operationId: string, source: nat, status: nat)

  datatype BuildError = BlankOperation | ZeroSource | ZeroStatus | ZeroTarget

  datatype Warning =
    | AssetMissing
    | TaxonomyUnresolved
    | SerialDuplicated(serial: string)
    | MoreSerialsDuplicated(count: nat)
    | MonitorAssetMissing(serial: string)
    | MonitorTaxonomyUnresolved(serial: string)
    | ComputerMissing
    | Rejected(error: BuildError)

  /** Everything that is gathered before planning, except the stored monitors and the time. */
  datatype Inputs = Inputs(
    system: Smbios.SystemInfo,
    taxonomy: Taxonomy,
    sightings: seq<Sighting>,
    asset: Option<Asset>,
    policy: CheckinPolicy,
    thresholdHours: nat,
    checkoutStatus: nat,
    checkinStatus: nat)

  datatype Plan = Plan(update: Option<Patch>, checkouts: seq<Checkout>, checkins: seq<Checkin>,
                       next: seq<Entry>, warnings: seq<Warning>)

  const MAX_DUPLICATE_SERIAL_WARNINGS: nat := 16
  const HOUR: nat := 3_600_000_000_000

  function SightingSerial(s: Sighting): string { s.monitor.serial }

  predicate IsResolved(r: Resolution) {
    r.Resolved? && r.id != 0
  }

  predicate TaxonomyResolved(t: Taxonomy) {
    IsResolved(t.manufacturer) && IsResolved(t.category) && IsResolved(t.model)
  }

  // ----- Requests

  function ValidateOperation(operationId: string, source: nat, status: nat): Option<BuildError> {
    if Blank(operationId) then Some(BlankOperation)
    else if source == 0 then Some(ZeroSource)
    else if status == 0 then Some(ZeroStatus)
    else None
  }

  function BuildCheckout(operationId: string, source: nat, target: nat, status: nat): Result<Checkout, BuildError> {
    var invalid := ValidateOperation(operationId, source, status);
    if invalid.Some? then Failure(invalid.value)
    else if target == 0 then Failure(ZeroTarget)
    else Success(Checkout(operationId, source, target, status))
  }

  function BuildCheckin(operationId: string, source: nat, status: nat): Result<Checkin, BuildError> {
    var invalid := ValidateOperation(operationId, source, status);
    if invalid.Some? then Failure(invalid.value) else Success(Checkin(operationId, source, status))
  }

  function CheckoutId(source: nat, target: nat, status: nat): string {
    "checkout:" + (Decimal.Print(source) + [':'] + (Decimal.Print(target) + [':'] + Decimal.Print(status)))
  }

  function CheckinId(source: nat, status: nat): string {
    "checkin:" + (Decimal.Print(source) + [':'] + Decimal.Print(status))
  }

  // ----- Serials that are discovered more than once

  datatype Tally = Tally(serial: string, count: nat)

  function TallySerial(t: Tally): string { t.serial }

  function CountIn(tallies: seq<Tally>, serial: string): nat {
    match Find(TallySerial, tallies, serial)
    case Some(t) => t.count
    case None => 0
  }

  function Tallied(sightings: seq<Sighting>): seq<Tally> {
    if sightings == [] then []
    else
      var before, serial := Tallied(sightings[..|sightings| - 1]), sightings[|sightings| - 1].monitor.serial;
      Put(TallySerial, before, Tally(serial, CountIn(before, serial) + 1))
  }

  function Repeated(tallies: seq<Tally>): seq<string> {
    if tallies == [] then []
    else
      var last := tallies[|tallies| - 1];
      Repeated(tallies[..|tallies| - 1]) + if last.count > 1 then [last.serial] else []
  }

  function Duplicates(sightings: seq<Sighting>): seq<string> {
    Repeated(Tallied(sightings))
  }

  function DuplicateWarnings(duplicates: seq<string>): seq<Warning> {
    var shown := if |duplicates| <= MAX_DUPLICATE_SERIAL_WARNINGS then |duplicates| else MAX_DUPLICATE_SERIAL_WARNINGS;
    seq(shown, i requires 0 <= i < shown => SerialDuplicated(duplicates[i]))
    + if |duplicates| > shown then [MoreSerialsDuplicated(|duplicates| - shown)] else []
  }

  method DuplicateSerialsWithWarnings(sightings: seq<Sighting>)
    returns (duplicates: seq<string>, warnings: seq<Warning>)
    ensures duplicates == Duplicates(sightings) && warnings == DuplicateWarnings(duplicates)
  {
    var counts: seq<Tally> := [];
    for i := 0 to |sightings|
      invariant counts == Tallied(sightings[..i])
    {
      assert sightings[..i + 1][..i] == sightings[..i];
      var serial := sightings[i].monitor.serial;
      counts := Put(TallySerial, counts, Tally(serial, CountIn(counts, serial) + 1));
    }
    assert sightings[..|sightings|] == sightings;
    duplicates := [];
    for i := 0 to |counts|
      invariant duplicates == Repeated(counts[..i])
    {
      assert counts[..i + 1][..i] == counts[..i];
      if counts[i].count > 1 {
        duplicates := duplicates + [counts[i].serial];
      }
    }
    assert counts[..|counts|] == counts;
    warnings := WarnOfDuplicates(duplicates);
  }

  /** The first sixteen serials by name and the others by number. */
  method WarnOfDuplicates(duplicates: seq<string>) returns (warnings: seq<Warning>)
    ensures warnings == DuplicateWarnings(duplicates)
  {
    warnings := [];
    var i := 0;
    while i < |duplicates| && i < MAX_DUPLICATE_SERIAL_WARNINGS
      invariant |warnings| == i <= |duplicates| && i <= MAX_DUPLICATE_SERIAL_WARNINGS
      invariant forall k :: 0 <= k < i ==> warnings[k] == SerialDuplicated(duplicates[k])
    {
      warnings := warnings + [SerialDuplicated(duplicates[i])];
      i := i + 1;
    }
    if |duplicates| > MAX_DUPLICATE_SERIAL_WARNINGS {
      warnings := warnings + [MoreSerialsDuplicated(|duplicates| - MAX_DUPLICATE_SERIAL_WARNINGS)];
    }
  }

  // ----- Check-outs

  /** What the loop does with one discovered monitor. */
  datatype Decision = Skip | Warn(warning: Warning) | Stop(warning: Warning) | Emit(operation: Checkout)

  function Nonzero(id: Option<nat>): Option<nat> {
    if id.Some? && id.value != 0 then id else None
  }

  function ComputerId(asset: Option<Asset>): Option<nat> {
    match asset
    case None => None
    case Some(a) => Nonzero(Some(a.id))
  }

  predicate AlreadyCheckedOut(stored: seq<Entry>, serial: string) {
    match Find(EntrySerial, stored, serial)
    case Some(e) => e.checkedOut
    case None => false
  }

  function Attempt(source: nat, target: nat, status: nat): Decision {
    match BuildCheckout(CheckoutId(source, target, status), source, target, status)
    case Success(operation) => Emit(operation)
    case Failure(error) => Warn(Rejected(error))
  }

  function Decide(x: Inputs, stored: seq<Entry>, s: Sighting): Decision {
    var serial := s.monitor.serial;
    if serial in Duplicates(x.sightings) then Skip
    else if Nonzero(s.assetId).None? then Warn(MonitorAssetMissing(serial))
    else if !TaxonomyResolved(s.taxonomy) then Warn(MonitorTaxonomyUnresolved(serial))
    else if AlreadyCheckedOut(stored, serial) then Skip
    else if ComputerId(x.asset).None? then Stop(ComputerMissing)
    else Attempt(s.assetId.value, ComputerId(x.asset).value, x.checkoutStatus)
  }

  /** The decision about every discovered monitor. */
  function Decisions(x: Inputs, stored: seq<Entry>): seq<Decision> {
    seq(|x.sightings|, i requires 0 <= i < |x.sightings| => Decide(x, stored, x.sightings[i]))
  }

  /** The operations emitted up to the first stop. */
  function Emitted(decisions: seq<Decision>): seq<Checkout> {
    if decisions == [] || decisions[0].Stop? then []
    else if decisions[0].Emit? then [decisions[0].operation] + Emitted(decisions[1..])
    else Emitted(decisions[1..])
  }

  /** The warnings up to the first stop, which is one itself. */
  function Warned(decisions: seq<Decision>): seq<Warning> {
    if decisions == [] then []
    else if decisions[0].Stop? then [decisions[0].warning]
    else if decisions[0].Warn? then [decisions[0].warning] + Warned(decisions[1..])
    else Warned(decisions[1..])
  }

  function CheckoutsOf(x: Inputs, stored: seq<Entry>): seq<Checkout> {
    Emitted(Decisions(x, stored))
  }

  /** The body of the loop: whether it continues, warns and continues, breaks, or emits. */
  method DecideCheckout(x: Inputs, stored: seq<Entry>, duplicates: seq<string>, computer: Option<nat>, s: Sighting)
    returns (decision: Decision)
    requires duplicates == Duplicates(x.sightings) && computer == ComputerId(x.asset)
    ensures decision == Decide(x, stored, s)
  {
    var serial := s.monitor.serial;
    if serial in duplicates {
      return Skip;
    }
    var source := Nonzero(s.assetId);
    if source.None? {
      return Warn(MonitorAssetMissing(serial));
    }
    if !TaxonomyResolved(s.taxonomy) {
      return Warn(MonitorTaxonomyUnresolved(serial));
    }
    if AlreadyCheckedOut(stored, serial) {
      return Skip;
    }
    if computer.None? {
      return Stop(ComputerMissing);
    }
    var operationId := CheckoutId(source.value, computer.value, x.checkoutStatus);
    var built := BuildCheckout(operationId, source.value, computer.value, x.checkoutStatus);
    decision := if built.Success? then Emit(built.value) else Warn(Rejected(built.error));
  }

  lemma CollectStep(decisions: seq<Decision>, i: nat, decision: Decision)
    requires i < |decisions| && decision == decisions[i]
    ensures Emitted(decisions[i..]) ==
            if decision.Stop? then []
            else (if decision.Emit? then [decision.operation] else []) + Emitted(decisions[i + 1..])
    ensures Warned(decisions[i..]) ==
            if decision.Stop? then [decision.warning]
            else (if decision.Warn? then [decision.warning] else []) + Warned(decisions[i + 1..])
  {
    assert decisions[i..][0] == decision && decisions[i..][1..] == decisions[i + 1..];
  }

  method PlanCheckouts(x: Inputs, stored: seq<Entry>, duplicates: seq<string>)
    returns (checkouts: seq<Checkout>, warnings: seq<Warning>)
    requires duplicates == Duplicates(x.sightings)
    ensures checkouts == CheckoutsOf(x, stored)
    ensures warnings == Warned(Decisions(x, stored))
  {
    var computer := ComputerId(x.asset);
    ghost var decisions := Decisions(x, stored);
    checkouts, warnings := [], [];
    var i := 0;
    while i < |x.sightings|
      invariant 0 <= i <= |x.sightings|
      invariant checkouts + Emitted(decisions[i..]) == Emitted(decisions)
      invariant warnings + Warned(decisions[i..]) == Warned(decisions)
    {
      var decision := DecideCheckout(x, stored, duplicates, computer, x.sightings[i]);
      CollectStep(decisions, i, decision);
      if decision.Emit? {
        checkouts := checkouts + [decision.operation];
      } else if decision.Warn? {
        warnings := warnings + [decision.warning];
      } else if decision.Stop? {
        warnings := warnings + [decision.warning];
        break;
      }
      i := i + 1;
    }
  }

  // ----- Check-ins

  predicate CheckinsEnabled(x: Inputs) {
    x.policy == AutoNonPortable && !Smbios.IsPortable(x.system.chassis)
  }

  predicate Eligible(x: Inputs, e: Entry, now: Instant) {
    && e.checkedOut && e.assetId.Some?
    && e.absentSince.Some? && now - e.absentSince.value >= x.thresholdHours * HOUR
  }

  function Returned(x: Inputs, e: Entry): Result<Checkin, BuildError>
    requires e.assetId.Some?
  {
    BuildCheckin(CheckinId(e.assetId.value, x.checkinStatus), e.assetId.value, x.checkinStatus)
  }

  function CheckinsOf(x: Inputs, removed: seq<Entry>, now: Instant): seq<Checkin> {
    if removed == [] then []
    else
      var last := removed[|removed| - 1];
      CheckinsOf(x, removed[..|removed| - 1], now)
      + if Eligible(x, last, now) && Returned(x, last).Success? then [Returned(x, last).value] else []
  }

  function CheckinWarningsOf(x: Inputs, removed: seq<Entry>, now: Instant): seq<Warning> {
    if removed == [] then []
    else
      var last := removed[|removed| - 1];
      CheckinWarningsOf(x, removed[..|removed| - 1], now)
      + if Eligible(x, last, now) && Returned(x, last).Failure? then [Rejected(Returned(x, last).error)] else []
  }

  method PlanCheckins(x: Inputs, removed: seq<Entry>, now: Instant)
    returns (checkins: seq<Checkin>, warnings: seq<Warning>)
    ensures checkins == if CheckinsEnabled(x) then CheckinsOf(x, removed, now) else []
    ensures warnings == if CheckinsEnabled(x) then CheckinWarningsOf(x, removed, now) else []
  {
    checkins, warnings := [], [];
    if x.policy == AutoNonPortable && !Smbios.IsPortable(x.system.chassis) {
      for i := 0 to |removed|
        invariant checkins == CheckinsOf(x, removed[..i], now)
        invariant warnings == CheckinWarningsOf(x, removed[..i], now)
      {
        assert removed[..i + 1][..i] == removed[..i];
        var e := removed[i];
        var eligible := e.checkedOut && e.assetId.Some?
          && e.absentSince.Some? && now - e.absentSince.value >= x.thresholdHours * HOUR;
        if !eligible {
          continue;
        }
        var built := BuildCheckin(CheckinId(e.assetId.value, x.checkinStatus), e.assetId.value, x.checkinStatus);
        if built.Success? {
          checkins := checkins + [built.value];
        } else {
          warnings := warnings + [Rejected(built.error)];
        }
      }
      assert removed[..|removed|] == removed;
    }
  }

  // ----- The predicted state

  predicate ChecksOut(checkouts: seq<Checkout>, id: Option<nat>) {
    exists i :: 0 <= i < |checkouts| && Some(checkouts[i].source) == id
  }

  predicate ChecksIn(checkins: seq<Checkin>, id: Option<nat>) {
    exists i :: 0 <= i < |checkins| && Some(checkins[i].source) == id
  }

  /** The asset of an entry after planning. */
  function PlannedAsset(sightings: seq<Sighting>, e: Entry): Option<nat> {
    var seen := Find(SightingSerial, sightings, e.serial);
    if e.serial !in Duplicates(sightings) && seen.Some? then seen.value.assetId else e.assetId
  }

  function Planned(sightings: seq<Sighting>, checkouts: seq<Checkout>, checkins: seq<Checkin>, e: Entry): Entry {
    var id := PlannedAsset(sightings, e);
    e.(assetId := id,
       checkedOut := !ChecksIn(checkins, id) && (e.checkedOut || ChecksOut(checkouts, id)))
  }

  method ApplyPlannedMonitorState(next: seq<Entry>, sightings: seq<Sighting>, duplicates: seq<string>,
                                  checkouts: seq<Checkout>, checkins: seq<Checkin>) returns (planned: seq<Entry>)
    requires duplicates == Duplicates(sightings)
    ensures |planned| == |next|
    ensures forall i :: 0 <= i < |next| ==> planned[i] == Planned(sightings, checkouts, checkins, next[i])
  {
    planned := next;
    for i := 0 to |next|
      invariant |planned| == |next|
      invariant forall k :: 0 <= k < i ==> planned[k] == Planned(sightings, checkouts, checkins, next[k])
      invariant forall k :: i <= k < |next| ==> planned[k] == next[k]
    {
      var entry := planned[i];
      if entry.serial !in duplicates {
        var seen := Find(SightingSerial, sightings, entry.serial);
        if seen.Some? {
          entry := entry.(assetId := seen.value.assetId);
        }
      }
      if ChecksOut(checkouts, entry.assetId) {
        entry := entry.(checkedOut := true);
      }
      if ChecksIn(checkins, entry.assetId) {
        entry := entry.(checkedOut := false);
      }
      planned := planned[i := entry];
    }
  }

  // ----- The whole plan

  const NO_CHANGE := Patch(None, None, None)

  function SystemPatch(x: Inputs, asset: Asset, model: nat): Patch {
    Patch(if asset.serial == Some(x.system.serial) then None else Some(x.system.serial),
          if asset.assetTag == Some(x.system.assetTag) then None else Some(x.system.assetTag),
          if asset.model == Some(model) then None else Some(model))
  }

  function SystemUpdate(x: Inputs): Option<Patch> {
    if x.asset.None? || !TaxonomyResolved(x.taxonomy) then None
    else
      var patch := SystemPatch(x, x.asset.value, x.taxonomy.model.id);
      if patch == NO_CHANGE then None else Some(patch)
  }

  function SystemWarnings(x: Inputs): seq<Warning> {
    if x.asset.None? then [AssetMissing]
    else if !TaxonomyResolved(x.taxonomy) then [TaxonomyUnresolved]
    else []
  }

  method PlanSystemUpdate(x: Inputs) returns (update: Option<Patch>, warnings: seq<Warning>)
    ensures update == SystemUpdate(x) && warnings == SystemWarnings(x)
  {
    update, warnings := None, [];
    if x.asset.None? {
      return None, [AssetMissing];
    }
    if !TaxonomyResolved(x.taxonomy) {
      return None, [TaxonomyUnresolved];
    }
    var changes, asset := NO_CHANGE, x.asset.value;
    if asset.serial != Some(x.system.serial) {
      changes := changes.(serial := Some(x.system.serial));
    }
    if asset.assetTag != Some(x.system.assetTag) {
      changes := changes.(assetTag := Some(x.system.assetTag));
    }
    if asset.model != Some(x.taxonomy.model.id) {
      changes := changes.(model := Some(x.taxonomy.model.id));
    }
    if changes != NO_CHANGE {
      update := Some(changes);
    }
  }

  function Current(sightings: seq<Sighting>): seq<Monitor> {
    seq(|sightings|, i requires 0 <= i < |sightings| => sightings[i].monitor)
  }

  function PlanCheckinsOf(x: Inputs, removed: seq<Entry>, now: Instant): seq<Checkin> {
    if CheckinsEnabled(x) then CheckinsOf(x, removed, now) else []
  }

  function NextState(x: Inputs, stored: seq<Entry>, now: Instant): seq<Entry> {
    var diff := DiffOf(Current(x.sightings), stored, now);
    var checkouts, checkins := CheckoutsOf(x, stored), PlanCheckinsOf(x, diff.removed, now);
    seq(|diff.next|, i requires 0 <= i < |diff.next| => Planned(x.sightings, checkouts, checkins, diff.next[i]))
  }

  function PlanOf(x: Inputs, stored: seq<Entry>, now: Instant): Plan {
    var removed := DiffOf(Current(x.sightings), stored, now).removed;
    Plan(SystemUpdate(x), CheckoutsOf(x, stored), PlanCheckinsOf(x, removed, now), NextState(x, stored, now),
         SystemWarnings(x) + DuplicateWarnings(Duplicates(x.sightings)) + Warned(Decisions(x, stored))
         + if CheckinsEnabled(x) then CheckinWarningsOf(x, removed, now) else [])
  }

  method PlanSync(x: Inputs, stored: seq<Entry>, now: Instant) returns (plan: Plan)
    ensures plan == PlanOf(x, stored, now)
  {
    var update, warnings := PlanSystemUpdate(x);
    var duplicates, duplicateWarnings := DuplicateSerialsWithWarnings(x.sightings);
    var diff := DiffMonitors(Current(x.sightings), stored, now);
    var checkouts, checkoutWarnings := PlanCheckouts(x, stored, duplicates);
    var checkins, checkinWarnings := PlanCheckins(x, diff.removed, now);
    var next := ApplyPlannedMonitorState(diff.next, x.sightings, duplicates, checkouts, checkins);
    plan := Plan(update, checkouts, checkins, next, warnings + duplicateWarnings + checkoutWarnings + checkinWarnings);
  }
}
