/** The records of the operation journal and the reconstruction of uncommitted
    operations from them (spotter-svc/src/operation_journal.rs). */
module OperationLog {
  import opened Wrappers

  type Id = string

  /** The text of a JSON payload; nothing here looks inside it. */
  type Json = string

  datatype Record =
    | Prepared(id: Id, operation: Json)
    | OutcomeObserved(id: Id, outcome: Json, candidate: Option<Json>)
    | StateCommitted(id: Id)
    | Confirmed(id: Id)

  datatype Pending = Pending(id: Id, operation: Json, outcome: Option<Json>, candidate: Option<Json>)

  datatype PhaseError =
    | PreparedAfterCommit(id: Id)
    | DuplicatePrepared(id: Id)
    | OutcomeBeforePrepared(id: Id)
    | DuplicateOutcome(id: Id)
    | CommitBeforePrepared(id: Id)
    | CommitBeforeOutcome(id: Id)

  // ----- The order-preserving fold over a journal

  datatype State = State(pending: seq<Pending>, terminal: set<Id>)

  const START := State([], {})

  function Lookup(pending: seq<Pending>, id: Id): (r: Option<Pending>)
    ensures r.Some? ==> exists k :: 0 <= k < |pending| && pending[k] == r.value && r.value.id == id
    ensures r.None? ==> forall k :: 0 <= k < |pending| ==> pending[k].id != id
  {
    if pending == [] then None
    else if pending[0].id == id then Some(pending[0])
    else Lookup(pending[1..], id)
  }

  /** Fills in the evidence of one operation and keeps every position. */
  function Observe(pending: seq<Pending>, id: Id, outcome: Json, candidate: Option<Json>): seq<Pending> {
    seq(|pending|, i requires 0 <= i < |pending| =>
      if pending[i].id == id then pending[i].(outcome := Some(outcome), candidate := candidate) else pending[i])
  }

  /** Drops one operation and keeps the order of the others. */
  function Without(pending: seq<Pending>, id: Id): seq<Pending> {
    if pending == [] then []
    else
      var last := pending[|pending| - 1];
      Without(pending[..|pending| - 1], id) + if last.id == id then [] else [last]
  }

  function Apply(s: State, r: Record): Result<State, PhaseError> {
    match r
    case Prepared(id, operation) =>
      if id in s.terminal then Failure(PreparedAfterCommit(id))
      else if Lookup(s.pending, id).Some? then Failure(DuplicatePrepared(id))
      else Success(s.(pending := s.pending + [Pending(id, operation, None, None)]))
    case OutcomeObserved(id, outcome, candidate) =>
      (match Lookup(s.pending, id)
       case None => Failure(OutcomeBeforePrepared(id))
       case Some(p) =>
         if p.outcome.Some? then Failure(DuplicateOutcome(id))
         else Success(s.(pending := Observe(s.pending, id, outcome, candidate))))
    case _ =>
      (match Lookup(s.pending, r.id)
       case None => Failure(CommitBeforePrepared(r.id))
       case Some(p) =>
         if p.outcome.None? then Failure(CommitBeforeOutcome(r.id))
         else Success(State(Without(s.pending, r.id), s.terminal + {r.id})))
  }

  function ReplayFrom(s: State, records: seq<Record>): Result<State, PhaseError> {
    if records == [] then Success(s)
    else
      var before :- ReplayFrom(s, records[..|records| - 1]);
      Apply(before, records[|records| - 1])
  }

  function Replay(records: seq<Record>): Result<State, PhaseError> {
    ReplayFrom(START, records)
  }

  lemma {:induction false} ReplayConcat(s: State, a: seq<Record>, b: seq<Record>)
    ensures ReplayFrom(s, a + b) ==
            match ReplayFrom(s, a) { case Success(t) => ReplayFrom(t, b) case Failure(e) => Failure(e) }
  {
    if b == [] {
      assert a + b == a;
    } else {
      assert (a + b)[..|a + b| - 1] == a + b[..|b| - 1];
      ReplayConcat(s, a, b[..|b| - 1]);
    }
  }

  lemma ReplaySnoc(s: State, records: seq<Record>, r: Record)
    ensures ReplayFrom(s, records + [r]) ==
            match ReplayFrom(s, records) { case Success(t) => Apply(t, r) case Failure(e) => Failure(e) }
  {
    assert (records + [r])[..|records|] == records;
  }

  // ----- Well-formed states: every operation appears once

  ghost predicate Distinct(pending: seq<Pending>) {
    forall i, j :: 0 <= i < j < |pending| ==> pending[i].id != pending[j].id
  }

  ghost predicate WellFormed(s: State) {
    && Distinct(s.pending)
    && forall k :: 0 <= k < |s.pending| ==> s.pending[k].id !in s.terminal
  }

  /** In a list of distinct operations, dropping by identifier is dropping at the position. */
  lemma {:induction false} WithoutShape(pending: seq<Pending>, k: nat)
    requires Distinct(pending) && k < |pending|
    ensures Without(pending, pending[k].id) == pending[..k] + pending[k + 1..]
  {
    var init, last := pending[..|pending| - 1], pending[|pending| - 1];
    if k == |init| {
      WithoutAbsent(init, pending[k].id);
      assert pending[k + 1..] == [];
    } else {
      WithoutShape(init, k);
      assert init[..k] == pending[..k];
      assert init[k + 1..] + [last] == pending[k + 1..];
    }
  }

  lemma {:induction false} WithoutAbsent(pending: seq<Pending>, id: Id)
    requires forall i :: 0 <= i < |pending| ==> pending[i].id != id
    ensures Without(pending, id) == pending
  {
    if pending != [] {
      WithoutAbsent(pending[..|pending| - 1], id);
      assert pending == pending[..|pending| - 1] + [pending[|pending| - 1]];
    }
  }

  lemma LookupAt(pending: seq<Pending>, k: nat)
    requires Distinct(pending) && k < |pending|
    ensures Lookup(pending, pending[k].id) == Some(pending[k])
  {
    var j :| 0 <= j < |pending| && Lookup(pending, pending[k].id) == Some(pending[j]) && pending[j].id == pending[k].id;
  }

  // ----- Acceptance, stated per operation

  datatype Phase = PreparedPhase | OutcomePhase | CommitPhase

  const LIFE := [PreparedPhase, OutcomePhase, CommitPhase]

  ghost predicate InOrder(phases: seq<Phase>) {
    phases <= LIFE
  }

  function PhaseOf(r: Record): Phase {
    match r
    case Prepared(_, _) => PreparedPhase
    case OutcomeObserved(_, _, _) => OutcomePhase
    case _ => CommitPhase
  }

  /** The phases recorded for one operation, in journal order; a legacy confirmation counts as a commit. */
  function Phases(records: seq<Record>, id: Id): seq<Phase> {
    if records == [] then []
    else
      var last := records[|records| - 1];
      Phases(records[..|records| - 1], id) + if last.id == id then [PhaseOf(last)] else []
  }

  /** How far a state says that an operation has come. */
  function Reached(s: State, id: Id): (phases: seq<Phase>)
    ensures InOrder(phases)
  {
    if id in s.terminal then LIFE
    else match Lookup(s.pending, id)
      case None => []
      case Some(p) => if p.outcome.None? then [PreparedPhase] else [PreparedPhase, OutcomePhase]
  }

  lemma LifePrefixes(phases: seq<Phase>)
    ensures InOrder(phases) <==>
            || phases == [] || phases == [PreparedPhase]
            || phases == [PreparedPhase, OutcomePhase] || phases == LIFE
  {
    if InOrder(phases) {
      assert phases == LIFE[..|phases|];
    }
  }

  lemma AcceptedWhenNextPhase(s: State, r: Record)
    requires WellFormed(s)
    ensures Apply(s, r).Success? <==> InOrder(Reached(s, r.id) + [PhaseOf(r)])
  {
    var next := Reached(s, r.id) + [PhaseOf(r)];
    LifePrefixes(next);
    assert |next| == |Reached(s, r.id)| + 1 && next[|next| - 1] == PhaseOf(r);
    if k: nat :| k < |s.pending| && s.pending[k].id == r.id {
      LookupAt(s.pending, k);
    }
  }

  lemma AppliedAt(s: State, r: Record) returns (k: nat)
    requires WellFormed(s) && Apply(s, r).Success? && !r.Prepared?
    ensures k < |s.pending| && s.pending[k].id == r.id && Lookup(s.pending, r.id) == Some(s.pending[k])
    ensures PhaseOf(r) == CommitPhase ==> Apply(s, r).value.pending == s.pending[..k] + s.pending[k + 1..]
  {
    k :| 0 <= k < |s.pending| && s.pending[k].id == r.id;
    LookupAt(s.pending, k);
    WithoutShape(s.pending, k);
  }

  lemma WellFormedAfter(s: State, r: Record)
    requires WellFormed(s) && Apply(s, r).Success?
    ensures WellFormed(Apply(s, r).value)
  {
    match r {
      case Prepared(_, _) => WellFormedAfterPrepared(s, r);
      case OutcomeObserved(_, _, _) =>
        assert forall k :: 0 <= k < |s.pending| ==> Apply(s, r).value.pending[k].id == s.pending[k].id;
      case _ =>
        var k := AppliedAt(s, r);
        WellFormedWithout(s, k);
    }
  }

  lemma WellFormedAfterPrepared(s: State, r: Record)
    requires WellFormed(s) && Apply(s, r).Success? && r.Prepared?
    ensures WellFormed(Apply(s, r).value)
  {
  }

  lemma WellFormedWithout(s: State, k: nat)
    requires WellFormed(s) && k < |s.pending|
    ensures WellFormed(State(s.pending[..k] + s.pending[k + 1..], s.terminal + {s.pending[k].id}))
  {
    var rest := s.pending[..k] + s.pending[k + 1..];
    assert forall i :: 0 <= i < |rest| ==> rest[i] == s.pending[if i < k then i else i + 1];
  }

  lemma ReachedAfterPrepared(s: State, r: Record)
    requires WellFormed(s) && Apply(s, r).Success? && r.Prepared?
    ensures Reached(s, r.id) == [] && Reached(Apply(s, r).value, r.id) == [PreparedPhase]
  {
    WellFormedAfterPrepared(s, r);
    LookupAt(Apply(s, r).value.pending, |s.pending|);
  }

  lemma ReachedAfterOutcome(s: State, r: Record)
    requires WellFormed(s) && Apply(s, r).Success? && r.OutcomeObserved?
    ensures Reached(s, r.id) == [PreparedPhase]
    ensures Reached(Apply(s, r).value, r.id) == [PreparedPhase, OutcomePhase]
  {
    var after := Apply(s, r).value;
    WellFormedAfter(s, r);
    var k := AppliedAt(s, r);
    LookupAt(after.pending, k);
  }

  lemma ReachedAfterCommit(s: State, r: Record)
    requires WellFormed(s) && Apply(s, r).Success? && PhaseOf(r) == CommitPhase
    ensures Reached(s, r.id) == [PreparedPhase, OutcomePhase] && Reached(Apply(s, r).value, r.id) == LIFE
  {
    var k := AppliedAt(s, r);
  }

  /** Lists of distinct operations with the same entries for an operation answer alike for it. */
  lemma SameLookup(a: seq<Pending>, b: seq<Pending>, id: Id)
    requires Distinct(a) && Distinct(b)
    requires forall i :: 0 <= i < |a| && a[i].id == id ==> a[i] in b
    requires forall i :: 0 <= i < |b| && b[i].id == id ==> b[i] in a
    ensures Lookup(a, id) == Lookup(b, id)
  {
    var inA, inB := Lookup(a, id), Lookup(b, id);
    if inA.Some? {
      assert inA.value in b;
      var j: nat :| j < |b| && b[j] == inA.value;
      LookupAt(b, j);
    }
  }

  lemma OthersUntouched(s: State, r: Record, id: Id)
    requires WellFormed(s) && Apply(s, r).Success? && id != r.id
    ensures Lookup(Apply(s, r).value.pending, id) == Lookup(s.pending, id)
  {
    var after := Apply(s, r).value;
    WellFormedAfter(s, r);
    if PhaseOf(r) == CommitPhase {
      var k := AppliedAt(s, r);
      forall i | 0 <= i < |s.pending| && i != k
        ensures s.pending[i] in after.pending
      {
        assert s.pending[i] == after.pending[if i > k then i - 1 else i];
      }
    } else {
      assert forall i :: 0 <= i < |s.pending| && s.pending[i].id == id ==> s.pending[i] == after.pending[i];
    }
    SameLookup(s.pending, after.pending, id);
  }

  lemma TerminalOthers(s: State, r: Record, id: Id)
    requires Apply(s, r).Success? && id != r.id
    ensures id in Apply(s, r).value.terminal <==> id in s.terminal
  {
  }

  lemma ReachedAlike(s: State, t: State, id: Id)
    requires Lookup(t.pending, id) == Lookup(s.pending, id) && (id in t.terminal <==> id in s.terminal)
    ensures Reached(t, id) == Reached(s, id)
  {
  }

  lemma ReachedByOthers(s: State, r: Record, id: Id)
    requires WellFormed(s) && Apply(s, r).Success? && id != r.id
    ensures Reached(Apply(s, r).value, id) == Reached(s, id)
  {
    OthersUntouched(s, r, id);
    TerminalOthers(s, r, id);
    ReachedAlike(s, Apply(s, r).value, id);
  }

  /** What applying a record does to how far one operation has come. */
  lemma ReachedAfter(s: State, r: Record, id: Id)
    requires WellFormed(s) && Apply(s, r).Success?
    ensures Reached(Apply(s, r).value, id) == Reached(s, id) + if id == r.id then [PhaseOf(r)] else []
  {
    if id != r.id {
      ReachedByOthers(s, r, id);
    } else {
      match r {
        case Prepared(_, _) => ReachedAfterPrepared(s, r);
        case OutcomeObserved(_, _, _) => ReachedAfterOutcome(s, r);
        case _ => ReachedAfterCommit(s, r);
      }
    }
  }

  /** The state knows how far the records have taken each operation. */
  ghost predicate Knows(s: State, records: seq<Record>) {
    WellFormed(s) && forall id :: Reached(s, id) == Phases(records, id)
  }

  ghost predicate AllInOrder(records: seq<Record>) {
    forall id :: InOrder(Phases(records, id))
  }

  /** A journal is accepted exactly when every operation's own records are a prefix of
      prepared, outcome, commit; and then the state knows how far each one has come. */
  lemma {:induction false} AcceptedIffEachOperationInOrder(records: seq<Record>)
    ensures Replay(records).Success? <==> AllInOrder(records)
    ensures Replay(records).Success? ==> Knows(Replay(records).value, records)
  {
    if records == [] {
      assert forall id :: Reached(START, id) == Phases(records, id);
    } else {
      var init, r := records[..|records| - 1], records[|records| - 1];
      AcceptedIffEachOperationInOrder(init);
      ReplayUnfolds(records);
      if Replay(init).Success? {
        AcceptedExtension(records, Replay(init).value, Apply(Replay(init).value, r));
      } else {
        var id :| !InOrder(Phases(init, id));
        PhasesUnfold(records, id);
        assert !InOrder(Phases(records, id));
      }
    }
  }

  lemma ReplayUnfolds(records: seq<Record>)
    requires records != []
    ensures Replay(records) ==
            match Replay(records[..|records| - 1])
            case Success(before) => Apply(before, records[|records| - 1])
            case Failure(e) => Failure(e)
  {
  }

  lemma PhasesUnfold(records: seq<Record>, id: Id)
    requires records != []
    ensures Phases(records, id) == Phases(records[..|records| - 1], id)
                                   + if records[|records| - 1].id == id then [PhaseOf(records[|records| - 1])] else []
  {
  }

  lemma AcceptedExtension(records: seq<Record>, before: State, applied: Result<State, PhaseError>)
    requires records != [] && Knows(before, records[..|records| - 1])
    requires applied == Apply(before, records[|records| - 1])
    ensures applied.Success? <==> AllInOrder(records)
    ensures applied.Success? ==> Knows(applied.value, records)
  {
    var r := records[|records| - 1];
    AcceptedWhenNextPhase(before, r);
    PhasesUnfold(records, r.id);
    if applied.Success? {
      WellFormedAfter(before, r);
      forall id
        ensures Reached(applied.value, id) == Phases(records, id)
      {
        ReachedAfter(before, r, id);
        PhasesUnfold(records, id);
      }
    } else {
      assert !InOrder(Phases(records, r.id));
    }
  }

  /** What is wrong with a record whose operation has so far gone through `phases`. */
  function Diagnosis(phases: seq<Phase>, r: Record): PhaseError {
    match r
    case Prepared(id, _) => if phases == LIFE then PreparedAfterCommit(id) else DuplicatePrepared(id)
    case OutcomeObserved(id, _, _) =>
      if phases == [PreparedPhase, OutcomePhase] then DuplicateOutcome(id) else OutcomeBeforePrepared(id)
    case _ => if phases == [PreparedPhase] then CommitBeforeOutcome(r.id) else CommitBeforePrepared(r.id)
  }

  lemma RefusalIsDiagnosed(s: State, r: Record)
    requires WellFormed(s) && Apply(s, r).Failure?
    ensures Apply(s, r).error == Diagnosis(Reached(s, r.id), r)
    ensures !InOrder(Reached(s, r.id) + [PhaseOf(r)])
  {
    AcceptedWhenNextPhase(s, r);
    if k: nat :| k < |s.pending| && s.pending[k].id == r.id {
      LookupAt(s.pending, k);
    }
  }

  /** Record `n` is the first one out of order, and the error says so. */
  ghost predicate FirstBad(records: seq<Record>, n: nat, e: PhaseError) {
    && n < |records| && Replay(records[..n]).Success?
    && !InOrder(Phases(records[..n + 1], records[n].id))
    && e == Diagnosis(Phases(records[..n], records[n].id), records[n])
  }

  lemma LastIsBad(init: seq<Record>, r: Record, e: PhaseError)
    requires Replay(init).Success? && Apply(Replay(init).value, r) == Failure(e)
    ensures FirstBad(init + [r], |init|, e)
  {
    var records := init + [r];
    AcceptedIffEachOperationInOrder(init);
    RefusalIsDiagnosed(Replay(init).value, r);
    assert records[..|init|] == init && records[..|init| + 1] == records;
    PhasesUnfold(records, r.id);
  }

  lemma FirstBadStays(init: seq<Record>, r: Record, n: nat, e: PhaseError)
    requires FirstBad(init, n, e)
    ensures FirstBad(init + [r], n, e)
  {
    assert (init + [r])[..n] == init[..n] && (init + [r])[..n + 1] == init[..n + 1];
  }

  /** A rejected journal is reported for its first record out of order, by what that operation had reached. */
  lemma {:induction false} RejectionNamesFirstBadRecord(records: seq<Record>) returns (n: nat)
    requires Replay(records).Failure?
    ensures FirstBad(records, n, Replay(records).error)
  {
    var init, r := records[..|records| - 1], records[|records| - 1];
    assert records == init + [r];
    ReplayUnfolds(records);
    if Replay(init).Failure? {
      n := RejectionNamesFirstBadRecord(init);
      FirstBadStays(init, r, n, Replay(init).error);
    } else {
      n := |init|;
      LastIsBad(init, r, Replay(records).error);
    }
  }

  // ----- The pending list, stated without a fold

  ghost predicate CommittedIn(records: seq<Record>, id: Id) {
    exists r :: r in records && r.id == id && PhaseOf(r) == CommitPhase
  }

  /** The latest outcome recorded for an operation. */
  function EvidenceIn(records: seq<Record>, id: Id): Option<Record> {
    if records == [] then None
    else
      var last := records[|records| - 1];
      if last.OutcomeObserved? && last.id == id then Some(last)
      else EvidenceIn(records[..|records| - 1], id)
  }

  ghost function Entry(prepared: Record, whole: seq<Record>): Pending
    requires prepared.Prepared?
  {
    match EvidenceIn(whole, prepared.id)
    case Some(OutcomeObserved(_, outcome, candidate)) =>
      Pending(prepared.id, prepared.operation, Some(outcome), candidate)
    case _ => Pending(prepared.id, prepared.operation, None, None)
  }

  /** The entries for the preparations in `part` that `whole` has not committed, in journal order. */
  ghost function Uncommitted(part: seq<Record>, whole: seq<Record>): seq<Pending> {
    if part == [] then []
    else Uncommitted(part[..|part| - 1], whole) + Contribution(part[|part| - 1], whole)
  }

  ghost function Contribution(r: Record, whole: seq<Record>): seq<Pending> {
    if r.Prepared? && !CommittedIn(whole, r.id) then [Entry(r, whole)] else []
  }

  lemma {:induction false} QuietOperation(records: seq<Record>, id: Id)
    ensures |Phases(records, id)| == 0 ==> forall r :: r in records ==> r.id != id
    ensures OutcomePhase !in Phases(records, id) ==> EvidenceIn(records, id).None?
    ensures CommitPhase !in Phases(records, id) ==> !CommittedIn(records, id)
  {
    if records != [] {
      var init := records[..|records| - 1];
      assert records == init + [records[|records| - 1]];
      QuietOperation(init, id);
    }
  }

  lemma {:induction false} UncommittedUnchanged(part: seq<Record>, whole: seq<Record>, r: Record)
    requires r.Prepared?
    ensures Uncommitted(part, whole + [r]) == Uncommitted(part, whole)
  {
    if part != [] {
      UncommittedUnchanged(part[..|part| - 1], whole, r);
      assert (whole + [r])[..|whole|] == whole;
      CommittedAfter(whole, r, part[|part| - 1].id);
    }
  }

  lemma {:induction false} UncommittedObserves(part: seq<Record>, whole: seq<Record>, r: Record)
    requires r.OutcomeObserved?
    ensures Uncommitted(part, whole + [r]) == Observe(Uncommitted(part, whole), r.id, r.outcome, r.candidate)
  {
    if part != [] {
      var init, last := part[..|part| - 1], part[|part| - 1];
      UncommittedObserves(init, whole, r);
      ContributionObserves(last, whole, r);
      ObserveConcat(Uncommitted(init, whole), Contribution(last, whole), r);
    }
  }

  lemma ContributionObserves(last: Record, whole: seq<Record>, r: Record)
    requires r.OutcomeObserved?
    ensures Contribution(last, whole + [r]) == Observe(Contribution(last, whole), r.id, r.outcome, r.candidate)
  {
    CommittedAfter(whole, r, last.id);
    assert (whole + [r])[..|whole|] == whole;
  }

  lemma ObserveConcat(a: seq<Pending>, b: seq<Pending>, r: Record)
    requires r.OutcomeObserved?
    ensures Observe(a + b, r.id, r.outcome, r.candidate) ==
            Observe(a, r.id, r.outcome, r.candidate) + Observe(b, r.id, r.outcome, r.candidate)
  {
  }

  lemma {:induction false} UncommittedDrops(part: seq<Record>, whole: seq<Record>, r: Record)
    requires PhaseOf(r) == CommitPhase
    ensures Uncommitted(part, whole + [r]) == Without(Uncommitted(part, whole), r.id)
  {
    if part != [] {
      var init, last := part[..|part| - 1], part[|part| - 1];
      UncommittedDrops(init, whole, r);
      ContributionDrops(last, whole, r);
      WithoutLast(Uncommitted(init, whole), Contribution(last, whole), r.id);
    }
  }

  lemma ContributionDrops(last: Record, whole: seq<Record>, r: Record)
    requires PhaseOf(r) == CommitPhase
    ensures Contribution(last, whole + [r]) == Without(Contribution(last, whole), r.id)
  {
    CommittedAfter(whole, r, last.id);
    assert (whole + [r])[..|whole|] == whole;
  }

  lemma WithoutLast(pending: seq<Pending>, last: seq<Pending>, id: Id)
    requires |last| <= 1
    ensures Without(pending + last, id) == Without(pending, id) + Without(last, id)
  {
    if |last| == 1 {
      assert (pending + last)[..|pending|] == pending;
      assert last[..0] == [];
    } else {
      assert pending + last == pending;
    }
  }

  lemma CommittedAfter(whole: seq<Record>, r: Record, id: Id)
    ensures CommittedIn(whole + [r], id) <==> CommittedIn(whole, id) || (r.id == id && PhaseOf(r) == CommitPhase)
  {
    if c :| c in whole && c.id == id && PhaseOf(c) == CommitPhase {
      assert c in whole + [r];
    }
    if r.id == id && PhaseOf(r) == CommitPhase {
      assert r in whole + [r];
    }
  }

  lemma UncommittedPrepares(init: seq<Record>, r: Record)
    requires r.Prepared? && Replay(init).Success? && Replay(init + [r]).Success?
    ensures Uncommitted(init + [r], init + [r]) == Uncommitted(init, init) + [Pending(r.id, r.operation, None, None)]
  {
    var records := init + [r];
    assert records[..|init|] == init;
    AcceptedIffEachOperationInOrder(records);
    PhasesUnfold(records, r.id);
    FirstPhase(Phases(init, r.id));
    QuietOperation(init, r.id);
    UncommittedUnchanged(init, init, r);
    CommittedAfter(init, r, r.id);
  }

  lemma FirstPhase(phases: seq<Phase>)
    requires InOrder(phases + [PreparedPhase])
    ensures phases == []
  {
    assert (phases + [PreparedPhase])[|phases|] == LIFE[|phases|];
  }

  /** The reconstructed list is, in order of preparation, every prepared operation that the
      journal does not commit, each with the outcome the journal recorded for it. */
  lemma {:induction false} PendingIsUncommitted(records: seq<Record>)
    requires Replay(records).Success?
    ensures Replay(records).value.pending == Uncommitted(records, records)
  {
    if records != [] {
      var init, r := records[..|records| - 1], records[|records| - 1];
      assert records == init + [r];
      PendingIsUncommitted(init);
      match r {
        case Prepared(_, _) =>
          UncommittedPrepares(init, r);
        case OutcomeObserved(_, _, _) =>
          UncommittedObserves(init, init, r);
        case _ =>
          UncommittedDrops(init, init, r);
      }
    }
  }

  // ----- The implementation with a shifting index map

  /** The loop variables of the reconstruction. */
  datatype Table = Table(pending: seq<Pending>, indexes: map<Id, nat>, terminal: set<Id>) {

    /** `indexes` is a bijection between the identifiers and the positions of `pending`,
        and no committed identifier has a position. */
    ghost predicate Valid() {
      && (forall id :: id in indexes ==> indexes[id] < |pending| && pending[indexes[id]].id == id)
      && (forall k :: 0 <= k < |pending| ==> pending[k].id in indexes && indexes[pending[k].id] == k)
      && indexes.Keys !! terminal
    }

    function Abstract(): State {
      State(pending, terminal)
    }
  }

  /** The table computes what the fold computes, errors included, and stays valid. */
  ghost predicate Refines(next: Result<Table, PhaseError>, spec: Result<State, PhaseError>) {
    match next
    case Failure(e) => spec == Failure(e)
    case Success(t) => t.Valid() && spec == Success(t.Abstract())
  }

  /** Moves every position above `removed` down by one. */
  method ShiftAbove(indexes: map<Id, nat>, removed: nat) returns (shifted: map<Id, nat>)
    ensures shifted.Keys == indexes.Keys
    ensures forall id :: id in indexes ==>
                           shifted[id] == if indexes[id] > removed then indexes[id] - 1 else indexes[id]
  {
    shifted := indexes;
    var rest := indexes.Keys;
    while rest != {}
      invariant rest <= indexes.Keys == shifted.Keys
      invariant forall id :: id in rest ==> shifted[id] == indexes[id]
      invariant forall id :: id in indexes && id !in rest ==>
                               shifted[id] == if indexes[id] > removed then indexes[id] - 1 else indexes[id]
      decreases rest
    {
      var id :| id in rest;
      if shifted[id] > removed {
        shifted := shifted[id := shifted[id] - 1];
      }
      rest := rest - {id};
    }
  }

  lemma TableLookup(t: Table, id: Id)
    requires t.Valid()
    ensures Distinct(t.pending)
    ensures Lookup(t.pending, id) == if id in t.indexes then Some(t.pending[t.indexes[id]]) else None
  {
    if id in t.indexes {
      LookupAt(t.pending, t.indexes[id]);
    }
  }

  method Prepare(t: Table, r: Record) returns (next: Result<Table, PhaseError>)
    requires t.Valid() && r.Prepared?
    ensures Refines(next, Apply(t.Abstract(), r))
  {
    TableLookup(t, r.id);
    if r.id in t.terminal {
      return Failure(PreparedAfterCommit(r.id));
    }
    if r.id in t.indexes {
      return Failure(DuplicatePrepared(r.id));
    }
    next := Success(t.(indexes := t.indexes[r.id := |t.pending|],
                       pending := t.pending + [Pending(r.id, r.operation, None, None)]));
  }

  method RecordOutcome(t: Table, r: Record) returns (next: Result<Table, PhaseError>)
    requires t.Valid() && r.OutcomeObserved?
    ensures Refines(next, Apply(t.Abstract(), r))
  {
    TableLookup(t, r.id);
    if r.id !in t.indexes {
      return Failure(OutcomeBeforePrepared(r.id));
    }
    var index := t.indexes[r.id];
    if t.pending[index].outcome.Some? {
      return Failure(DuplicateOutcome(r.id));
    }
    var updated := t.pending[index].(outcome := Some(r.outcome), candidate := r.candidate);
    next := Success(t.(pending := t.pending[index := updated]));
    assert t.pending[index := updated] == Observe(t.pending, r.id, r.outcome, r.candidate);
  }

  method Commit(t: Table, r: Record) returns (next: Result<Table, PhaseError>)
    requires t.Valid() && PhaseOf(r) == CommitPhase
    ensures Refines(next, Apply(t.Abstract(), r))
  {
    TableLookup(t, r.id);
    if r.id !in t.indexes {
      return Failure(CommitBeforePrepared(r.id));
    }
    var index := t.indexes[r.id];
    if t.pending[index].outcome.None? {
      return Failure(CommitBeforeOutcome(r.id));
    }
    var shifted := ShiftAbove(t.indexes - {r.id}, index);
    next := Success(Table(t.pending[..index] + t.pending[index + 1..], shifted, t.terminal + {r.id}));
    WithoutShape(t.pending, index);
    RemovalKeepsValid(t, index, next.value);
  }

  lemma RemovalKeepsValid(t: Table, index: nat, next: Table)
    requires t.Valid() && index < |t.pending|
    requires next.pending == t.pending[..index] + t.pending[index + 1..]
    requires next.indexes.Keys == t.indexes.Keys - {t.pending[index].id}
    requires next.terminal == t.terminal + {t.pending[index].id}
    requires forall id :: id in next.indexes ==>
                            next.indexes[id] == if t.indexes[id] > index then t.indexes[id] - 1 else t.indexes[id]
    ensures next.Valid()
  {
    forall k | 0 <= k < |next.pending|
      ensures next.pending[k].id in next.indexes && next.indexes[next.pending[k].id] == k
    {
      assert next.pending[k] == t.pending[if k < index then k else k + 1];
    }
    forall id | id in next.indexes
      ensures next.indexes[id] < |next.pending| && next.pending[next.indexes[id]].id == id
    {
      assert t.indexes[id] != index;
      assert next.pending[next.indexes[id]] == t.pending[t.indexes[id]];
    }
  }

  function PendingResult(replayed: Result<State, PhaseError>): Result<seq<Pending>, PhaseError> {
    match replayed
    case Success(s) => Success(s.pending)
    case Failure(e) => Failure(e)
  }

  lemma ReplayStep(records: seq<Record>, n: nat)
    requires n < |records|
    ensures Replay(records[..n]).Success? ==>
              Replay(records[..n + 1]) == Apply(Replay(records[..n]).value, records[n])
    ensures Replay(records[..n + 1]).Failure? ==> Replay(records) == Replay(records[..n + 1])
  {
    assert records[..n + 1][..n] == records[..n];
    ReplayConcat(START, records[..n + 1], records[n + 1..]);
    assert records[..n + 1] + records[n + 1..] == records;
  }

  /** The fold computed with an index map whose positions shift down on every removal. */
  method PendingWithEvidence(records: seq<Record>) returns (result: Result<seq<Pending>, PhaseError>)
    ensures result == PendingResult(Replay(records))
  {
    var t := Table([], map[], {});
    for n := 0 to |records|
      invariant t.Valid() && Replay(records[..n]) == Success(t.Abstract())
    {
      ReplayStep(records, n);
      var next;
      match records[n] {
        case Prepared(_, _) => next := Prepare(t, records[n]);
        case OutcomeObserved(_, _, _) => next := RecordOutcome(t, records[n]);
        case _ => next := Commit(t, records[n]);
      }
      if next.Failure? {
        return Failure(next.error);
      }
      t := next.value;
    }
    assert records[..|records|] == records;
    result := Success(t.pending);
  }
}
