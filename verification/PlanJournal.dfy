/** The operations of one plan as journal records: their identifiers never collide, and when a journal takes them. */
module PlanJournal {
  import opened Wrappers
  import opened Monitors
  import opened MonitorDiff
  import opened Planner
  import opened PlanConvergence
  import Decimal
  import OrderedMap
  import opened JournalExecution
  import OperationLog

  // ----- Identifiers

  lemma CheckoutIdsDiffer(a: nat, t: nat, s: nat, b: nat, u: nat, v: nat)
    requires CheckoutId(a, t, s) == CheckoutId(b, u, v)
    ensures a == b && t == u && s == v
  {
    Decimal.PrintHasNo(a, ':');
    Decimal.PrintHasNo(b, ':');
    Decimal.PrintHasNo(t, ':');
    Decimal.PrintHasNo(u, ':');
    var left, right := Decimal.Print(t) + [':'] + Decimal.Print(s), Decimal.Print(u) + [':'] + Decimal.Print(v);
    SamePrefix("checkout:", Decimal.Print(a) + [':'] + left, Decimal.Print(b) + [':'] + right);
    Decimal.SameUpToSeparator(Decimal.Print(a), left, Decimal.Print(b), right, ':');
    Decimal.SameUpToSeparator(Decimal.Print(t), Decimal.Print(s), Decimal.Print(u), Decimal.Print(v), ':');
    Decimal.PrintIsInjective(a, b);
    Decimal.PrintIsInjective(t, u);
    Decimal.PrintIsInjective(s, v);
  }

  lemma CheckinIdsDiffer(a: nat, s: nat, b: nat, v: nat)
    requires CheckinId(a, s) == CheckinId(b, v)
    ensures a == b && s == v
  {
    Decimal.PrintHasNo(a, ':');
    Decimal.PrintHasNo(b, ':');
    SamePrefix("checkin:", Decimal.Print(a) + [':'] + Decimal.Print(s), Decimal.Print(b) + [':'] + Decimal.Print(v));
    Decimal.SameUpToSeparator(Decimal.Print(a), Decimal.Print(s), Decimal.Print(b), Decimal.Print(v), ':');
    Decimal.PrintIsInjective(a, b);
    Decimal.PrintIsInjective(s, v);
  }

  lemma SamePrefix(prefix: string, a: string, b: string)
    requires prefix + a == prefix + b
    ensures a == b
  {
    assert (prefix + a)[|prefix|..] == a && (prefix + b)[|prefix|..] == b;
  }

  lemma KindsDiffer(a: nat, t: nat, s: nat, b: nat, v: nat)
    ensures CheckoutId(a, t, s) != CheckinId(b, v)
  {
    assert CheckoutId(a, t, s)[5] == 'o' && CheckinId(b, v)[5] == 'i';
  }

  // ----- Which operations a plan holds

  /** Assets do not alias between serials: discovered ones differ from each other and from those of absent
      monitors, and the assets of absent monitors differ from each other. */
  ghost predicate NonAliasing(x: Inputs, stored: seq<Entry>) {
    && PresentApart(x, stored)
    && (forall i, j :: 0 <= i < j < |x.sightings| ==> SightingsApart(x, x.sightings[i], x.sightings[j]))
    && (forall i, j :: 0 <= i < |stored| && 0 <= j < |stored| ==> AbsentApart(x, stored[i], stored[j]))
  }

  ghost predicate SightingsApart(x: Inputs, a: Sighting, b: Sighting) {
    var duplicates := Duplicates(x.sightings);
    || a.monitor.serial in duplicates || b.monitor.serial in duplicates
    || Nonzero(a.assetId).None? || a.assetId != b.assetId
  }

  ghost predicate AbsentApart(x: Inputs, a: Entry, b: Entry) {
    var current := Current(x.sightings);
    || Discovered(current, a.serial) || Discovered(current, b.serial) || a.serial == b.serial
    || Nonzero(a.assetId).None? || a.assetId != b.assetId
  }

  lemma CollectedInOrder(decisions: seq<Decision>, k: nat, l: nat) returns (i: nat, j: nat)
    requires k < l < |Emitted(decisions)|
    ensures i < j < |decisions|
    ensures decisions[i] == Emit(Emitted(decisions)[k]) && decisions[j] == Emit(Emitted(decisions)[l])
  {
    i := CollectedIsEmitted(decisions, k);
    assert Emitted(decisions)[k + 1..][l - k - 1] == Emitted(decisions)[l];
    j := CollectedIsEmitted(decisions[i + 1..], l - k - 1);
    j := j + i + 1;
  }

  /** Check-outs keep the order of the discovery. */
  lemma CheckoutsInOrder(x: Inputs, stored: seq<Entry>, k: nat, l: nat) returns (i: nat, j: nat)
    requires k < l < |CheckoutsOf(x, stored)|
    ensures i < j < |x.sightings|
    ensures Decide(x, stored, x.sightings[i]) == Emit(CheckoutsOf(x, stored)[k])
    ensures Decide(x, stored, x.sightings[j]) == Emit(CheckoutsOf(x, stored)[l])
  {
    i, j := CollectedInOrder(Decisions(x, stored), k, l);
  }

  /** Check-ins keep the order of the removed list. */
  lemma {:induction false} CheckinsInOrder(x: Inputs, removed: seq<Entry>, now: Instant, k: nat, l: nat)
    returns (i: nat, j: nat)
    requires k < l < |CheckinsOf(x, removed, now)|
    ensures i < j < |removed| && IsReturned(x, removed[i], now) && IsReturned(x, removed[j], now)
    ensures CheckinsOf(x, removed, now)[k] == Returned(x, removed[i]).value
    ensures CheckinsOf(x, removed, now)[l] == Returned(x, removed[j]).value
  {
    var init := removed[..|removed| - 1];
    if l < |CheckinsOf(x, init, now)| {
      i, j := CheckinsInOrder(x, init, now, k, l);
    } else {
      i := PlannedIsReturn(x, init, now, k);
      j := |init|;
    }
  }

  lemma EmittedOperation(x: Inputs, stored: seq<Entry>, s: Sighting)
    requires Decide(x, stored, s).Emit?
    ensures s.monitor.serial !in Duplicates(x.sightings) && Nonzero(s.assetId).Some? && ComputerId(x.asset).Some?
    ensures var source, target := s.assetId.value, ComputerId(x.asset).value;
            Decide(x, stored, s).operation ==
            Checkout(CheckoutId(source, target, x.checkoutStatus), source, target, x.checkoutStatus)
  {
  }

  lemma ReturnedOperation(x: Inputs, e: Entry, now: Instant)
    requires IsReturned(x, e, now)
    ensures Nonzero(e.assetId).Some?
    ensures var source := e.assetId.value;
            Returned(x, e).value == Checkin(CheckinId(source, x.checkinStatus), source, x.checkinStatus)
  {
  }

  ghost predicate CheckoutsDistinct(checkouts: seq<Checkout>) {
    forall k, l :: 0 <= k < l < |checkouts| ==>
      checkouts[k].source != checkouts[l].source && checkouts[k].operationId != checkouts[l].operationId
  }

  ghost predicate CheckinsDistinct(checkins: seq<Checkin>) {
    forall k, l :: 0 <= k < l < |checkins| ==>
      checkins[k].source != checkins[l].source && checkins[k].operationId != checkins[l].operationId
  }

  ghost predicate Disjoint(checkouts: seq<Checkout>, checkins: seq<Checkin>) {
    forall k, l :: 0 <= k < |checkouts| && 0 <= l < |checkins| ==>
      checkouts[k].source != checkins[l].source && checkouts[k].operationId != checkins[l].operationId
  }

  lemma CheckoutsAreDistinct(x: Inputs, stored: seq<Entry>)
    requires NonAliasing(x, stored)
    ensures CheckoutsDistinct(CheckoutsOf(x, stored))
  {
    var checkouts := CheckoutsOf(x, stored);
    forall k: nat, l: nat | k < l < |checkouts|
      ensures checkouts[k].source != checkouts[l].source && checkouts[k].operationId != checkouts[l].operationId
    {
      var i, j := CheckoutsInOrder(x, stored, k, l);
      EmittedOperation(x, stored, x.sightings[i]);
      EmittedOperation(x, stored, x.sightings[j]);
      assert SightingsApart(x, x.sightings[i], x.sightings[j]);
      CheckoutIdsOf(checkouts[k], checkouts[l]);
    }
  }

  lemma CheckoutIdsOf(a: Checkout, b: Checkout)
    requires a.operationId == CheckoutId(a.source, a.target, a.status)
    requires b.operationId == CheckoutId(b.source, b.target, b.status)
    ensures a.source != b.source ==> a.operationId != b.operationId
  {
    if a.operationId == b.operationId {
      CheckoutIdsDiffer(a.source, a.target, a.status, b.source, b.target, b.status);
    }
  }

  lemma CheckinIdsOf(a: Checkin, b: Checkin)
    requires a.operationId == CheckinId(a.source, a.status) && b.operationId == CheckinId(b.source, b.status)
    ensures a.source != b.source ==> a.operationId != b.operationId
  {
    if a.operationId == b.operationId {
      CheckinIdsDiffer(a.source, a.status, b.source, b.status);
    }
  }

  lemma CheckinsAreDistinct(x: Inputs, stored: seq<Entry>, now: Instant)
    requires NonAliasing(x, stored)
    ensures CheckinsDistinct(CheckinsOf(x, DiffOf(Current(x.sightings), stored, now).removed, now))
  {
    var current := Current(x.sightings);
    var removed := DiffOf(current, stored, now).removed;
    var checkins := CheckinsOf(x, removed, now);
    forall k: nat, l: nat | k < l < |checkins|
      ensures checkins[k].source != checkins[l].source && checkins[k].operationId != checkins[l].operationId
    {
      var r, q := CheckinsInOrder(x, removed, now, k, l);
      ReturnedOperation(x, removed[r], now);
      ReturnedOperation(x, removed[q], now);
      var i := RemovedIsStored(current, stored, now, r);
      var j := RemovedIsStored(current, stored, now, q);
      RemovedSerialsDiffer(current, stored, now, r, q);
      assert AbsentApart(x, stored[i], stored[j]);
      CheckinIdsOf(checkins[k], checkins[l]);
    }
  }

  lemma RemovedSerialsDiffer(current: seq<Monitor>, stored: seq<Entry>, now: Instant, r: nat, q: nat)
    requires r < q < |DiffOf(current, stored, now).removed|
    ensures DiffOf(current, stored, now).removed[r].serial != DiffOf(current, stored, now).removed[q].serial
  {
    var removed := DiffOf(current, stored, now).removed;
    DiffIsCorrect(current, stored, now);
    OrderedMap.AscendingIsDistinct(EntrySerial, removed);
    assert EntrySerial(removed[r]) != EntrySerial(removed[q]);
  }

  lemma OutAndInAreDisjoint(x: Inputs, stored: seq<Entry>, now: Instant)
    requires NonAliasing(x, stored)
    ensures Disjoint(CheckoutsOf(x, stored), CheckinsOf(x, DiffOf(Current(x.sightings), stored, now).removed, now))
  {
    var current := Current(x.sightings);
    var removed := DiffOf(current, stored, now).removed;
    var checkouts, checkins := CheckoutsOf(x, stored), CheckinsOf(x, removed, now);
    forall k: nat, l: nat | k < |checkouts| && l < |checkins|
      ensures checkouts[k].source != checkins[l].source && checkouts[k].operationId != checkins[l].operationId
    {
      var i := PlannedIsEmitted(x, stored, k);
      EmittedOperation(x, stored, x.sightings[i]);
      var r := PlannedIsReturn(x, removed, now, l);
      ReturnedOperation(x, removed[r], now);
      var j := RemovedIsStored(current, stored, now, r);
      KindsDiffer(checkouts[k].source, checkouts[k].target, checkouts[k].status,
                  checkins[l].source, checkins[l].status);
    }
  }

  /** One plan never names an asset twice nor uses an identifier twice. */
  lemma PlanIsCollisionFree(x: Inputs, stored: seq<Entry>, now: Instant)
    requires NonAliasing(x, stored)
    ensures var plan := PlanOf(x, stored, now);
            && CheckoutsDistinct(plan.checkouts) && CheckinsDistinct(plan.checkins)
            && Disjoint(plan.checkouts, plan.checkins)
  {
    CheckoutsAreDistinct(x, stored);
    CheckinsAreDistinct(x, stored, now);
    OutAndInAreDisjoint(x, stored, now);
  }

  // ----- The journal

  /** The text of a request inside an identifier, and serialized operations; nothing depends on either text. */
  datatype Encoder = Encoder(
    request: Patch -> string,
    patch: Patch -> OperationLog.Json,
    checkout: Checkout -> OperationLog.Json,
    checkin: Checkin -> OperationLog.Json)

  function PatchId(assetId: nat, request: string): string {
    "patch:" + (Decimal.Print(assetId) + [':'] + request)
  }

  lemma PatchIdsDiffer(a: nat, request: string, b: nat, other: string)
    requires PatchId(a, request) == PatchId(b, other)
    ensures a == b && request == other
  {
    Decimal.PrintHasNo(a, ':');
    Decimal.PrintHasNo(b, ':');
    SamePrefix("patch:", Decimal.Print(a) + [':'] + request, Decimal.Print(b) + [':'] + other);
    Decimal.SameUpToSeparator(Decimal.Print(a), request, Decimal.Print(b), other, ':');
    Decimal.PrintIsInjective(a, b);
  }

  function PatchRecords(encoder: Encoder, asset: Option<Asset>, update: Option<Patch>)
    : (records: seq<OperationLog.Record>)
    ensures AllPrepared(records)
  {
    if asset.Some? && update.Some? then
      [OperationLog.Prepared(PatchId(asset.value.id, encoder.request(update.value)), encoder.patch(update.value))]
    else []
  }

  function MoveRecords(encoder: Encoder, checkouts: seq<Checkout>, checkins: seq<Checkin>)
    : (records: seq<OperationLog.Record>)
    ensures AllPrepared(records)
  {
    seq(|checkouts|, i requires 0 <= i < |checkouts| =>
      OperationLog.Prepared(checkouts[i].operationId, encoder.checkout(checkouts[i])))
    + seq(|checkins|, i requires 0 <= i < |checkins| =>
      OperationLog.Prepared(checkins[i].operationId, encoder.checkin(checkins[i])))
  }

  /** The first record of every operation, in the order in which a plan is executed. */
  function PlanRecords(encoder: Encoder, x: Inputs, plan: Plan): (records: seq<OperationLog.Record>)
    ensures AllPrepared(records)
  {
    PatchRecords(encoder, x.asset, plan.update) + MoveRecords(encoder, plan.checkouts, plan.checkins)
  }

  lemma MovesAreFresh(encoder: Encoder, checkouts: seq<Checkout>, checkins: seq<Checkin>)
    requires CheckoutsDistinct(checkouts) && CheckinsDistinct(checkins) && Disjoint(checkouts, checkins)
    ensures FreshPrepared(MoveRecords(encoder, checkouts, checkins))
  {
    var records, n := MoveRecords(encoder, checkouts, checkins), |checkouts|;
    forall i, j | 0 <= i < j < |records|
      ensures records[i].id != records[j].id
    {
      assert i < n ==> records[i].id == checkouts[i].operationId;
      assert j < n ==> records[j].id == checkouts[j].operationId;
      assert i >= n ==> records[i].id == checkins[i - n].operationId;
      assert j >= n ==> records[j].id == checkins[j - n].operationId;
    }
  }

  ghost predicate NamedAsMove(id: string) {
    |id| > 0 && id[0] == 'c'
  }

  lemma CheckoutsAreNamed(x: Inputs, stored: seq<Entry>, k: nat)
    requires k < |CheckoutsOf(x, stored)|
    ensures NamedAsMove(CheckoutsOf(x, stored)[k].operationId)
  {
    var i := PlannedIsEmitted(x, stored, k);
    EmittedOperation(x, stored, x.sightings[i]);
  }

  lemma CheckinsAreNamed(x: Inputs, removed: seq<Entry>, now: Instant, k: nat)
    requires k < |CheckinsOf(x, removed, now)|
    ensures NamedAsMove(CheckinsOf(x, removed, now)[k].operationId)
  {
    var i := PlannedIsReturn(x, removed, now, k);
    ReturnedOperation(x, removed[i], now);
  }

  lemma MovesAreNamed(encoder: Encoder, checkouts: seq<Checkout>, checkins: seq<Checkin>)
    requires forall k :: 0 <= k < |checkouts| ==> NamedAsMove(checkouts[k].operationId)
    requires forall k :: 0 <= k < |checkins| ==> NamedAsMove(checkins[k].operationId)
    ensures var moves := MoveRecords(encoder, checkouts, checkins);
            forall i :: 0 <= i < |moves| ==> NamedAsMove(moves[i].id)
  {
    var moves := MoveRecords(encoder, checkouts, checkins);
    forall i | 0 <= i < |moves|
      ensures NamedAsMove(moves[i].id)
    {
      if i < |checkouts| {
        assert moves[i].id == checkouts[i].operationId;
      } else {
        assert moves[i].id == checkins[i - |checkouts|].operationId;
      }
    }
  }

  lemma PlanIsFresh(x: Inputs, stored: seq<Entry>, now: Instant, encoder: Encoder)
    requires NonAliasing(x, stored)
    ensures FreshPrepared(PlanRecords(encoder, x, PlanOf(x, stored, now)))
  {
    var plan := PlanOf(x, stored, now);
    var moves := MoveRecords(encoder, plan.checkouts, plan.checkins);
    PlanIsCollisionFree(x, stored, now);
    MovesAreFresh(encoder, plan.checkouts, plan.checkins);
    forall k | 0 <= k < |plan.checkouts|
      ensures NamedAsMove(plan.checkouts[k].operationId)
    {
      CheckoutsAreNamed(x, stored, k);
    }
    forall k | 0 <= k < |plan.checkins|
      ensures NamedAsMove(plan.checkins[k].operationId)
    {
      CheckinsAreNamed(x, DiffOf(Current(x.sightings), stored, now).removed, now, k);
    }
    MovesAreNamed(encoder, plan.checkouts, plan.checkins);
    PatchComesFirst(PatchRecords(encoder, x.asset, plan.update), moves);
  }

  lemma PatchComesFirst(patch: seq<OperationLog.Record>, moves: seq<OperationLog.Record>)
    requires |patch| <= 1 && FreshPrepared(moves)
    requires forall i :: 0 <= i < |patch| ==> patch[i].Prepared? && !NamedAsMove(patch[i].id)
    requires forall i :: 0 <= i < |moves| ==> NamedAsMove(moves[i].id)
    ensures FreshPrepared(patch + moves)
  {
    forall i, j | 0 <= i < j < |patch + moves|
      ensures (patch + moves)[i].id != (patch + moves)[j].id
    {
      assert (patch + moves)[j] == moves[j - |patch|];
      assert i >= |patch| ==> (patch + moves)[i] == moves[i - |patch|];
    }
  }

  /** The records that start the operations of one plan can always be appended to an empty journal. */
  lemma PlanMeetsJournal(x: Inputs, stored: seq<Entry>, now: Instant, encoder: Encoder)
    requires NonAliasing(x, stored)
    ensures var records := PlanRecords(encoder, x, PlanOf(x, stored, now));
            && FreshPrepared(records)
            && OperationLog.Replay(records) == Success(OperationLog.State(Untouched(records), {}))
  {
    PlanIsFresh(x, stored, now, encoder);
    PreparedReplay(PlanRecords(encoder, x, PlanOf(x, stored, now)));
  }

  // ----- Executing one plan

  /** Executing one plan behind a journal with nothing pending is accepted, after every record, exactly if
      none of the plan's identifiers is among the commits still in that journal; then nothing is pending. */
  lemma PlanExecutionAcceptedIff(x: Inputs, stored: seq<Entry>, now: Instant, encoder: Encoder, evidence: Evidence,
                                 log: seq<OperationLog.Record>, n: nat)
    requires NonAliasing(x, stored)
    requires OperationLog.PendingResult(OperationLog.Replay(log)) == Success([])
    ensures var records := PlanRecords(encoder, x, PlanOf(x, stored, now));
            var executed := log + Execution(records, evidence);
            && (OperationLog.Replay(executed).Success? <==>
                  forall i :: 0 <= i < |records| ==> records[i].id !in OperationLog.Replay(log).value.terminal)
            && (OperationLog.Replay(executed).Success? ==>
                  && OperationLog.Replay(executed).value.pending == []
                  && (n <= |executed| ==> OperationLog.Replay(executed[..n]).Success?))
  {
    var records := PlanRecords(encoder, x, PlanOf(x, stored, now));
    PlanIsFresh(x, stored, now, encoder);
    ExecutionAcceptedIff(log, records, evidence);
    NoneRecordedIffNoneCommitted(log, records);
    var executed := log + Execution(records, evidence);
    if OperationLog.Replay(executed).Success? && n <= |executed| {
      PrefixAccepted(executed, n);
    }
  }
}
