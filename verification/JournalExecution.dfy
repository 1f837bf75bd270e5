/** Carrying out operations on a journal: what their records make of it, behind any journal there is. */
module JournalExecution {
  import opened Wrappers
  import opened OperationLog
  import opened Compaction

  predicate AllPrepared(records: seq<Record>) {
    forall i :: 0 <= i < |records| ==> records[i].Prepared?
  }

  function Untouched(records: seq<Record>): seq<Pending>
    requires AllPrepared(records)
  {
    seq(|records|, i requires 0 <= i < |records| => Pending(records[i].id, records[i].operation, None, None))
  }

  ghost predicate FreshPrepared(records: seq<Record>) {
    && AllPrepared(records)
    && (forall i, j :: 0 <= i < j < |records| ==> records[i].id != records[j].id)
  }

  /** A journal of first records with distinct identifiers is accepted, and everything in it is pending, in order. */
  lemma {:induction false} PreparedReplay(records: seq<Record>)
    requires FreshPrepared(records)
    ensures Replay(records) == Success(State(Untouched(records), {}))
  {
    if records != [] {
      var init, last := records[..|records| - 1], records[|records| - 1];
      PreparedReplay(init);
      var pending := Untouched(init);
      assert Lookup(pending, last.id).None?;
      assert Untouched(records) == pending + [Pending(last.id, last.operation, None, None)];
    }
  }

  // ----- A whole execution

  /** What is recorded about a confirmed operation: the outcome, and the state to be saved with it. */
  datatype Evidence = Evidence(outcome: Json, candidate: Id -> Json)

  /** The operations as they stand once every remote outcome is recorded. */
  function Observed(records: seq<Record>, evidence: Evidence): seq<Pending>
    requires AllPrepared(records)
  {
    seq(|records|, i requires 0 <= i < |records| =>
      Pending(records[i].id, records[i].operation, Some(evidence.outcome), Some(evidence.candidate(records[i].id))))
  }

  function Commits(pending: seq<Pending>): seq<Record> {
    if pending == [] then []
    else Commits(pending[..|pending| - 1]) + [StateCommitted(pending[|pending| - 1].id)]
  }

  function IdsOf(pending: seq<Pending>): set<Id> {
    set i | 0 <= i < |pending| :: pending[i].id
  }

  /** The records of a whole execution: each operation prepared and observed in turn, then all of them committed. */
  function Execution(records: seq<Record>, evidence: Evidence): seq<Record>
    requires AllPrepared(records)
  {
    Compacted(Observed(records, evidence)) + Commits(Observed(records, evidence))
  }

  lemma CommitsNext(held: seq<Pending>, p: Pending, rest: seq<Pending>, terminal: set<Id>)
    requires Distinct(held + ([p] + rest)) && p.outcome.Some?
    ensures Apply(State(held + ([p] + rest), terminal), StateCommitted(p.id)) ==
            Success(State(held + rest, terminal + {p.id}))
  {
    var pending := held + ([p] + rest);
    assert pending[|held|] == p;
    LookupAt(pending, |held|);
    WithoutShape(pending, |held|);
    assert pending[..|held|] == held && pending[|held| + 1..] == rest;
  }

  /** Committing distinct observed operations in order takes exactly them out of the list. */
  lemma {:induction false} CommitsEmpty(held: seq<Pending>, pending: seq<Pending>, rest: seq<Pending>,
                                        terminal: set<Id>)
    requires Distinct(held + pending + rest)
    requires forall i :: 0 <= i < |pending| ==> pending[i].outcome.Some?
    ensures ReplayFrom(State(held + pending + rest, terminal), Commits(pending)) ==
            Success(State(held + rest, terminal + IdsOf(pending)))
  {
    if pending == [] {
      assert held + pending == held && terminal + IdsOf(pending) == terminal;
    } else {
      var init, last := pending[..|pending| - 1], pending[|pending| - 1];
      assert pending == init + [last];
      assert held + pending + rest == held + init + ([last] + rest);
      CommitsEmpty(held, init, [last] + rest, terminal);
      DistinctAround(held, init, [last] + rest);
      CommitsNext(held, last, rest, terminal + IdsOf(init));
      IdsOfSnoc(init, last, terminal);
      ReplaySnoc(State(held + pending + rest, terminal), Commits(init), StateCommitted(last.id));
    }
  }

  lemma IdsOfSnoc(init: seq<Pending>, last: Pending, terminal: set<Id>)
    ensures terminal + IdsOf(init) + {last.id} == terminal + IdsOf(init + [last])
  {
    var pending := init + [last];
    assert pending[|init|] == last && forall i :: 0 <= i < |init| ==> pending[i] == init[i];
  }

  lemma DistinctAround(held: seq<Pending>, middle: seq<Pending>, rest: seq<Pending>)
    requires Distinct(held + middle + rest)
    ensures Distinct(held + rest)
  {
    var all, outer := held + middle + rest, held + rest;
    assert forall i :: 0 <= i < |outer| ==> outer[i] == all[if i < |held| then i else i + |middle|];
  }

  lemma ExecutionFrom(s: State, records: seq<Record>, evidence: Evidence)
    requires FreshPrepared(records) && Enterable(s, Observed(records, evidence))
    ensures ReplayFrom(s, Execution(records, evidence)) ==
            Success(State(s.pending, s.terminal + IdsOf(Untouched(records))))
  {
    var pending := Observed(records, evidence);
    CompactedEnters(s, pending);
    ReplayConcat(s, Compacted(pending), Commits(pending));
    assert s.pending + pending + [] == s.pending + pending && s.pending + [] == s.pending;
    CommitsEmpty(s.pending, pending, [], s.terminal);
    ObservedIds(records, evidence);
  }

  lemma ObservedIds(records: seq<Record>, evidence: Evidence)
    requires AllPrepared(records)
    ensures IdsOf(Observed(records, evidence)) == IdsOf(Untouched(records))
  {
    assert forall i :: 0 <= i < |records| ==> Observed(records, evidence)[i].id == Untouched(records)[i].id;
  }

  /** No record of the journal names any of these operations. */
  ghost predicate NoneRecorded(log: seq<Record>, records: seq<Record>) {
    forall i, r :: 0 <= i < |records| && r in log ==> r.id != records[i].id
  }

  lemma {:induction false} PhasesConcat(a: seq<Record>, b: seq<Record>, id: Id)
    ensures Phases(a + b, id) == Phases(a, id) + Phases(b, id)
  {
    if b == [] {
      assert a + b == a;
    } else {
      assert (a + b)[..|a + b| - 1] == a + b[..|b| - 1];
      PhasesConcat(a, b[..|b| - 1], id);
    }
  }

  lemma {:induction false} UnrecordedHasNoPhase(log: seq<Record>, id: Id)
    requires forall r :: r in log ==> r.id != id
    ensures Phases(log, id) == []
  {
    if log != [] {
      assert log[|log| - 1] in log;
      UnrecordedHasNoPhase(log[..|log| - 1], id);
    }
  }

  /** What the reconstruction knows of an operation tells whether the journal names it. */
  lemma RecordedIffKnown(log: seq<Record>, id: Id)
    requires Replay(log).Success?
    ensures (forall r :: r in log ==> r.id != id) <==>
            && id !in Replay(log).value.terminal
            && Lookup(Replay(log).value.pending, id).None?
  {
    var s := Replay(log).value;
    AcceptedIffEachOperationInOrder(log);
    assert Reached(s, id) == Phases(log, id);
    QuietOperation(log, id);
    if forall r :: r in log ==> r.id != id {
      UnrecordedHasNoPhase(log, id);
    }
  }

  lemma UnknownIsEnterable(log: seq<Record>, records: seq<Record>, evidence: Evidence)
    requires Replay(log).Success? && FreshPrepared(records) && NoneRecorded(log, records)
    ensures Enterable(Replay(log).value, Observed(records, evidence))
  {
    var s, pending := Replay(log).value, Observed(records, evidence);
    AcceptedIffEachOperationInOrder(log);
    forall i | 0 <= i < |pending|
      ensures pending[i].id !in s.terminal && forall k :: 0 <= k < |s.pending| ==> s.pending[k].id != pending[i].id
    {
      RecordedIffKnown(log, records[i].id);
    }
  }

  lemma ExecutionPhases(records: seq<Record>, evidence: Evidence, i: nat)
    requires FreshPrepared(records) && i < |records|
    ensures Phases(Execution(records, evidence), records[i].id) == LIFE
  {
    UnknownIsEnterable([], records, evidence);
    ExecutionFrom(START, records, evidence);
    var executed := Execution(records, evidence);
    AcceptedIffEachOperationInOrder(executed);
    assert Untouched(records)[i].id in Replay(executed).value.terminal;
    assert Reached(Replay(executed).value, records[i].id) == LIFE;
  }

  lemma SecondLifeIsRefused(log: seq<Record>, records: seq<Record>, evidence: Evidence, i: nat)
    requires FreshPrepared(records) && i < |records|
    requires Replay(log + Execution(records, evidence)).Success?
    ensures forall r :: r in log ==> r.id != records[i].id
  {
    var id, executed := records[i].id, Execution(records, evidence);
    ExecutionPhases(records, evidence, i);
    PhasesConcat(log, executed, id);
    AcceptedIffEachOperationInOrder(log + executed);
    assert InOrder(Phases(log + executed, id));
    QuietOperation(log, id);
  }

  /** Executing operations behind any accepted journal is accepted exactly if the journal does not
      name any of them, and then what was pending before is pending afterwards, and nothing else. */
  lemma ExecutionAcceptedIff(log: seq<Record>, records: seq<Record>, evidence: Evidence)
    requires Replay(log).Success? && FreshPrepared(records)
    ensures var before := Replay(log).value;
            var after := Replay(log + Execution(records, evidence));
            && (after.Success? <==> NoneRecorded(log, records))
            && (after.Success? ==>
                  after.value == State(before.pending, before.terminal + IdsOf(Untouched(records))))
  {
    var executed := Execution(records, evidence);
    if Replay(log + executed).Success? {
      forall i, r | 0 <= i < |records| && r in log
        ensures r.id != records[i].id
      {
        SecondLifeIsRefused(log, records, evidence, i);
      }
    }
    if NoneRecorded(log, records) {
      UnknownIsEnterable(log, records, evidence);
      ExecutionFrom(Replay(log).value, records, evidence);
      ReplayConcat(START, log, executed);
    }
  }

  /** With nothing pending, the journal names an operation exactly if it has committed it. */
  lemma NoneRecordedIffNoneCommitted(log: seq<Record>, records: seq<Record>)
    requires PendingResult(Replay(log)) == Success([])
    ensures NoneRecorded(log, records) <==>
            forall i :: 0 <= i < |records| ==> records[i].id !in Replay(log).value.terminal
  {
    forall i | 0 <= i < |records|
      ensures records[i].id in Replay(log).value.terminal <==> exists r :: r in log && r.id == records[i].id
    {
      RecordedIffKnown(log, records[i].id);
    }
  }

  /** A journal cut after any record of an accepted one is accepted. */
  lemma PrefixAccepted(records: seq<Record>, n: nat)
    requires n <= |records| && Replay(records).Success?
    ensures Replay(records[..n]).Success?
  {
    assert records == records[..n] + records[n..];
    ReplayConcat(START, records[..n], records[n..]);
  }

  /** Operations that recur before their commits are compacted away are refused at their first
      record; behind the compacted journal they are accepted. */
  lemma RecurringOperationsAreRefused(records: seq<Record>, first: Evidence, second: Evidence)
    requires FreshPrepared(records) && records != []
    ensures var log := Execution(records, first);
            && PendingResult(Replay(log)) == Success([])
            && Replay(log + [records[0]]) == Failure(PreparedAfterCommit(records[0].id))
            && Replay(log + Execution(records, second)).Failure?
            && Replay(Compacted([]) + Execution(records, second)).Success?
  {
    var log := Execution(records, first);
    ExecutionAcceptedIff([], records, first);
    assert [] + log == log;
    var s := Replay(log).value;
    assert Untouched(records)[0].id in s.terminal;
    CompactionForgetsCommits(log, records[0]);
    ExecutionAcceptedIff(log, records, second);
    RecordedIffKnown(log, records[0].id);
    ExecutionAcceptedIff([], records, second);
    assert Compacted([]) + Execution(records, second) == [] + Execution(records, second);
  }
}
