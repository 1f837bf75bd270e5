/** Rewriting a journal to its uncommitted evidence. */
module Compaction {
  import opened Wrappers
  import opened OperationLog

  function EvidenceRecords(p: Pending): seq<Record> {
    [Prepared(p.id, p.operation)]
    + if p.outcome.Some? then [OutcomeObserved(p.id, p.outcome.value, p.candidate)] else []
  }

  /** The records that compaction keeps: every pending preparation, followed by its outcome if it has one. */
  function Compacted(pending: seq<Pending>): seq<Record> {
    if pending == [] then []
    else Compacted(pending[..|pending| - 1]) + EvidenceRecords(pending[|pending| - 1])
  }

  /** A candidate state is only ever recorded together with an outcome. */
  ghost predicate CandidatesHaveOutcomes(pending: seq<Pending>) {
    forall k :: 0 <= k < |pending| && pending[k].outcome.None? ==> pending[k].candidate.None?
  }

  lemma {:induction false} ReplayedCandidatesHaveOutcomes(records: seq<Record>)
    requires Replay(records).Success?
    ensures CandidatesHaveOutcomes(Replay(records).value.pending)
  {
    if records != [] {
      var init, r := records[..|records| - 1], records[|records| - 1];
      ReplayedCandidatesHaveOutcomes(init);
      AcceptedIffEachOperationInOrder(init);
      if PhaseOf(r) == CommitPhase {
        var k := AppliedAt(Replay(init).value, r);
      }
    }
  }

  /** Operations that a state does not know can be entered behind it with their evidence. */
  ghost predicate Enterable(s: State, pending: seq<Pending>) {
    && Distinct(s.pending + pending)
    && CandidatesHaveOutcomes(pending)
    && forall k :: 0 <= k < |pending| ==> pending[k].id !in s.terminal
  }

  lemma {:induction false} CompactedEnters(s: State, pending: seq<Pending>)
    requires Enterable(s, pending)
    ensures ReplayFrom(s, Compacted(pending)) == Success(State(s.pending + pending, s.terminal))
  {
    if pending == [] {
      assert s.pending + pending == s.pending;
    } else {
      var init, p := pending[..|pending| - 1], pending[|pending| - 1];
      assert pending == init + [p] && s.pending + pending == s.pending + init + [p];
      EnterableInit(s, init, p);
      CompactedEnters(s, init);
      ReplayConcat(s, Compacted(init), EvidenceRecords(p));
      EvidenceEnters(s.pending + init, s.terminal, p);
    }
  }

  lemma EnterableInit(s: State, init: seq<Pending>, p: Pending)
    requires Enterable(s, init + [p])
    ensures Enterable(s, init)
    ensures Distinct(s.pending + init + [p]) && p.id !in s.terminal && (p.outcome.None? ==> p.candidate.None?)
  {
    var pending := init + [p];
    assert s.pending + pending == s.pending + init + [p];
    assert pending[|init|] == p && forall k :: 0 <= k < |init| ==> init[k] == pending[k];
    assert forall k :: 0 <= k < |s.pending + init| ==> (s.pending + init)[k] == (s.pending + pending)[k];
  }

  lemma EvidenceEnters(held: seq<Pending>, terminal: set<Id>, p: Pending)
    requires Distinct(held + [p]) && p.id !in terminal
    requires p.outcome.None? ==> p.candidate.None?
    ensures ReplayFrom(State(held, terminal), EvidenceRecords(p)) == Success(State(held + [p], terminal))
  {
    var entered := held + [Pending(p.id, p.operation, None, None)];
    assert Lookup(held, p.id).None? by {
      assert forall k :: 0 <= k < |held| ==> held[k] == (held + [p])[k];
      assert (held + [p])[|held|] == p;
    }
    var prepared := [Prepared(p.id, p.operation)];
    assert prepared[..0] == [];
    assert ReplayFrom(State(held, terminal), prepared) == Success(State(entered, terminal));
    if p.outcome.Some? {
      var records := EvidenceRecords(p);
      assert records[..1] == prepared;
      assert forall k :: 0 <= k < |entered| ==> entered[k].id == (held + [p])[k].id;
      LookupAt(entered, |held|);
      assert forall k :: 0 <= k < |held| ==> held[k].id != p.id;
      assert Observe(entered, p.id, p.outcome.value, p.candidate) == held + [p];
    }
  }

  /** Replaying a compacted journal gives back the list it was made from, and no committed operation. */
  lemma ReplayCompacted(pending: seq<Pending>)
    requires Distinct(pending) && CandidatesHaveOutcomes(pending)
    ensures Replay(Compacted(pending)) == Success(State(pending, {}))
  {
    assert [] + pending == pending;
    CompactedEnters(START, pending);
  }

  /** No record of `suffix` prepares an operation of `ids` again. */
  ghost predicate PreparesNone(suffix: seq<Record>, ids: set<Id>) {
    forall i :: 0 <= i < |suffix| && suffix[i].Prepared? ==> suffix[i].id !in ids
  }

  lemma ForgettingApply(s: State, extra: set<Id>, r: Record)
    ensures var kept, forgot := Apply(State(s.pending, s.terminal + extra), r), Apply(s, r);
            && (kept.Success? <==> forgot.Success? && (r.Prepared? ==> r.id !in extra))
            && (kept.Success? ==> kept.value == State(forgot.value.pending, forgot.value.terminal + extra))
  {
  }

  /** Two states that differ only in the terminal identifiers `extra` that one of them
      remembers go on alike, except that this one refuses to prepare those again. */
  lemma {:induction false} ForgettingSimulates(s: State, extra: set<Id>, suffix: seq<Record>)
    ensures var kept := ReplayFrom(State(s.pending, s.terminal + extra), suffix);
            var forgot := ReplayFrom(s, suffix);
            && (kept.Success? <==> forgot.Success? && PreparesNone(suffix, extra))
            && (kept.Success? ==> kept.value == State(forgot.value.pending, forgot.value.terminal + extra))
  {
    if suffix != [] {
      var init, r := suffix[..|suffix| - 1], suffix[|suffix| - 1];
      ForgettingSimulates(s, extra, init);
      assert PreparesNone(suffix, extra) <==> PreparesNone(init, extra) && (r.Prepared? ==> r.id !in extra);
      var forgot := ReplayFrom(s, init);
      if forgot.Success? {
        ForgettingApply(forgot.value, extra, r);
      }
    }
  }

  /** Compaction simulates the journal for every future: whatever records follow, the whole
      journal is accepted exactly when the compacted one is and no committed operation is
      prepared again; and then both have the same pending operations with the same evidence. */
  lemma CompactionSimulates(records: seq<Record>, suffix: seq<Record>)
    requires Replay(records).Success?
    ensures var s := Replay(records).value;
            var whole := Replay(records + suffix);
            var compacted := Replay(Compacted(s.pending) + suffix);
            && (whole.Success? <==> compacted.Success? && PreparesNone(suffix, s.terminal))
            && (whole.Success? ==> && whole.value.pending == compacted.value.pending
                                   && whole.value.terminal == compacted.value.terminal + s.terminal)
  {
    var s := Replay(records).value;
    AcceptedIffEachOperationInOrder(records);
    ReplayedCandidatesHaveOutcomes(records);
    ReplayCompacted(s.pending);
    ReplayConcat(START, records, suffix);
    ReplayConcat(START, Compacted(s.pending), suffix);
    ForgettingSimulates(State(s.pending, {}), s.terminal, suffix);
    assert State(s.pending, {} + s.terminal) == s;
  }

  /** Compacting a compacted journal changes nothing. */
  lemma CompactionIsIdempotent(records: seq<Record>)
    requires Replay(records).Success?
    ensures var once := Compacted(Replay(records).value.pending);
            Replay(once).Success? && Compacted(Replay(once).value.pending) == once
  {
    AcceptedIffEachOperationInOrder(records);
    ReplayedCandidatesHaveOutcomes(records);
    ReplayCompacted(Replay(records).value.pending);
  }

  /** What compaction forgets: preparing a committed operation again is refused by the whole
      journal and accepted by the compacted one. */
  lemma CompactionForgetsCommits(records: seq<Record>, r: Record)
    requires Replay(records).Success? && r.Prepared? && r.id in Replay(records).value.terminal
    ensures Replay(records + [r]) == Failure(PreparedAfterCommit(r.id))
    ensures Replay(Compacted(Replay(records).value.pending) + [r]).Success?
  {
    var s := Replay(records).value;
    AcceptedIffEachOperationInOrder(records);
    ReplayedCandidatesHaveOutcomes(records);
    ReplayCompacted(s.pending);
    ReplayConcat(START, records, [r]);
    ReplayConcat(START, Compacted(s.pending), [r]);
    assert [r][..0] == [];
  }
}
