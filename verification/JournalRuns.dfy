/** Whole runs over the journal directory: any mix of recoveries, appends, compactions, faults and crashes. */
module JournalRuns {
  import opened Wrappers
  import opened Bytes
  import opened OperationLog
  import opened Compaction
  import opened JournalBytes
  import opened JournalDirectory

  datatype Event =
    | Recovery(env: Environment, outcome: Outcome)
    | Appending(record: Record, markerReadable: bool, append: AppendFault, ok: bool)
    | Compacting(records: seq<Record>, markerReadable: bool, replace: ReplaceFault, ok: bool)
    | Crash

  ghost predicate Step(codec: Codec, at: Layout, before: Files, e: Event, after: Files) {
    match e
    case Recovery(env, outcome) => (after, outcome) == RecoverOn(codec, at, before, env)
    case Appending(r, readable, fault, ok) => (after, ok) == AppendOn(codec, at, before, r, readable, fault)
    case Compacting(records, readable, fault, ok) =>
      (after, ok) == CompactOn(codec, at, before, records, readable, fault)
    case Crash => after == before
  }

  ghost predicate Run(codec: Codec, at: Layout, states: seq<Files>, events: seq<Event>) {
    && |states| == |events| + 1
    && forall i {:trigger events[i]} :: 0 <= i < |events| ==> Step(codec, at, states[i], events[i], states[i + 1])
  }

  // ----- Blocking

  /** The event neither recovered a journal nor wrote one. */
  predicate Refused(e: Event) {
    match e
    case Recovery(_, outcome) => !outcome.Recovered?
    case Appending(_, _, _, ok) => !ok
    case Compacting(_, _, _, ok) => !ok
    case Crash => true
  }

  lemma BlockedStep(codec: Codec, at: Layout, before: Files, e: Event, after: Files)
    requires Step(codec, at, before, e, after) && at.marker in before
    ensures after == before && Refused(e)
  {
  }

  /** Once the marker exists the directory never changes again, nothing is recovered, and no
      append or compaction succeeds, whatever is tried. */
  lemma {:induction false} BlockedForever(codec: Codec, at: Layout, states: seq<Files>, events: seq<Event>,
                                          i: nat, j: nat)
    requires Run(codec, at, states, events) && i <= j < |states|
    requires at.marker in states[i]
    ensures states[j] == states[i]
    ensures forall k :: i <= k < j ==> Refused(events[k])
  {
    if i < j {
      BlockedForever(codec, at, states, events, i, j - 1);
      BlockedStep(codec, at, states[j - 1], events[j - 1], states[j]);
    }
  }

  // ----- Evidence

  /** Some file beside the journal holds exactly these bytes. */
  ghost predicate KeptAside(files: Files, at: Layout, bytes: seq<byte>) {
    exists name :: name != at.journal && name in files && files[name] == bytes
  }

  lemma QuarantineKeeps(at: Layout, files: Files, bytes: seq<byte>, env: Environment)
    requires at.Valid()
    ensures var (after, name) := Quarantined(files, at, bytes, env);
            && (name.Some? ==> KeptAside(after, at, bytes))
            && (forall other :: other in files ==> other in after && after[other] == files[other])
            && (at.journal in after <==> at.journal in files)
            && (at.marker in after <==> at.marker in files)
  {
    var (after, name) := Quarantined(files, at, bytes, env);
    if name.Some? {
      assert name.value != at.journal && after[name.value] == bytes;
    }
  }

  /** A clean journal without its last newline was set aside and replaced, but could not be flushed. */
  ghost predicate NormalizedUnflushed(codec: Codec, at: Layout, files: Files, env: Environment) {
    && env.markerReadable && env.journalReadable
    && at.marker !in files && at.journal in files
    && NeedsNewline(codec, files[at.journal])
    && FreeName(files, at, env.stamp, 0).Some? && env.quarantine.Created?
    && env.replace.ReplacedUnflushed?
  }

  lemma HandlingKeepsJournal(at: Layout, files: Files, bytes: seq<byte>, verdict: Verdict, normalize: bool,
                             env: Environment)
    requires at.Valid() && at.journal in files && files[at.journal] == bytes && (normalize ==> verdict.Clean?)
    ensures var (after, outcome) := HandleBytes(at, files, bytes, verdict, normalize, env);
            var now := JournalOf(after, at);
            && (now == bytes || (normalize && now == bytes + [NEWLINE]))
            && (!outcome.Recovered? && now != bytes <==>
                  && normalize && FreeName(files, at, env.stamp, 0).Some?
                  && env.quarantine.Created? && env.replace.ReplacedUnflushed?)
  {
    QuarantineKeeps(at, files, bytes, env);
    assert |bytes + [NEWLINE]| != |bytes|;
  }

  /** A recovery changes the journal in one case only: a clean journal gets its missing newline. It
      does so and nevertheless returns no records exactly when the replacement could not be flushed. */
  lemma RecoveryKeepsJournal(codec: Codec, at: Layout, files: Files, env: Environment)
    requires at.Valid()
    ensures var (after, outcome) := RecoverOn(codec, at, files, env);
            var was, now := JournalOf(files, at), JournalOf(after, at);
            && (now == was || (NeedsNewline(codec, was) && now == was + [NEWLINE]))
            && (!outcome.Recovered? && now != was <==> NormalizedUnflushed(codec, at, files, env))
  {
    if at.journal in files {
      var was := files[at.journal];
      HandlingKeepsJournal(at, files, was, VerdictOn(codec, was), NeedsNewline(codec, was), env);
    }
  }

  /** A journal that holds one prepared operation without its newline, on a directory that cannot be flushed. */
  lemma UnflushedNormalizationLooksFailed(codec: Codec, journal: string, operation: Json)
    returns (files: Files, env: Environment)
    requires codec.Valid()
    ensures var at := LayoutOf(journal);
            var bytes := codec.encode(Prepared("x", operation));
            var (after, outcome) := RecoverOn(codec, at, files, env);
            && JournalOf(files, at) == bytes
            && outcome == PreservationFailed(Replacement)
            && JournalOf(after, at) == bytes + [NEWLINE]
  {
    var at, r := LayoutOf(journal), Prepared("x", operation);
    var bytes := codec.encode(r);
    files := map[journal := bytes];
    env := Environment(true, true, "0", [], Created, Created, ReplacedUnflushed);
    assert codec.Line(r)[..|bytes|] == bytes && [] + bytes == bytes && [] + [r] == [r];
    ReplaySnoc(START, [], r);
    CutAppend(codec, [], [], r, |bytes|);
    assert FreeName(files, at, env.stamp, 0) == Some(at.quarantine("0", 0));
  }

  /** What handling the bytes of a journal leaves: the directory, or it with the quarantine, and then besides
      that at most a journal with its newline or a marker. */
  lemma HandlingWrites(at: Layout, files: Files, bytes: seq<byte>, verdict: Verdict, normalize: bool, env: Environment)
    ensures var after := HandleBytes(at, files, bytes, verdict, normalize, env).0;
            var kept := Quarantined(files, at, bytes, env).0;
            || after == files
            || after == kept
            || after == kept[at.journal := bytes + [NEWLINE]]
            || after == CreateNew(kept, at.marker, env.markerBody, env.marker)
  {
  }

  lemma RecoveryWrites(codec: Codec, at: Layout, files: Files, env: Environment)
    requires at.Valid()
    ensures var after := RecoverOn(codec, at, files, env).0;
            var bytes := JournalOf(files, at);
            var kept := Quarantined(files, at, bytes, env).0;
            || after == files
            || after == kept
            || after == kept[at.journal := bytes + [NEWLINE]]
            || (at.marker !in files && after == CreateNew(kept, at.marker, env.markerBody, env.marker))
  {
    var bytes := JournalOf(files, at);
    HandlingWrites(at, files, bytes, VerdictOn(codec, bytes), NeedsNewline(codec, bytes), env);
  }

  /** The outcome says that the journal is changed or that something is wrong with it. */
  predicate Noteworthy(outcome: Outcome) {
    || outcome.CorruptJournal?
    || (outcome.NeedsOperator? && outcome.reason == IncompleteUnterminatedSuffix)
    || (outcome.PreservationFailed? && outcome.failure != QuarantineWrite)
  }

  lemma HandlingQuarantines(at: Layout, files: Files, bytes: seq<byte>, verdict: Verdict, normalize: bool,
                            env: Environment)
    requires at.Valid() && JournalOf(files, at) == bytes
    ensures var (after, outcome) := HandleBytes(at, files, bytes, verdict, normalize, env);
            JournalOf(after, at) != bytes || Noteworthy(outcome)
            ==> Quarantined(files, at, bytes, env).1.Some? && after != files
  {
    QuarantineKeeps(at, files, bytes, env);
  }

  /** A recovery that changes the journal or finds something wrong with it has the bytes in quarantine. */
  lemma QuarantinedFirst(codec: Codec, at: Layout, files: Files, env: Environment)
    requires at.Valid()
    ensures var (after, outcome) := RecoverOn(codec, at, files, env);
            var bytes := JournalOf(files, at);
            JournalOf(after, at) != bytes || Noteworthy(outcome)
            ==> Quarantined(files, at, bytes, env).1.Some? && after != files
  {
    var bytes := JournalOf(files, at);
    HandlingQuarantines(at, files, bytes, VerdictOn(codec, bytes), NeedsNewline(codec, bytes), env);
  }

  lemma KeptBesides(at: Layout, kept: Files, bytes: seq<byte>, after: Files)
    requires KeptAside(kept, at, bytes)
    requires forall other :: other in kept && other != at.journal ==> other in after && after[other] == kept[other]
    ensures KeptAside(after, at, bytes)
  {
    var aside :| aside != at.journal && aside in kept && kept[aside] == bytes;
    assert after[aside] == bytes;
  }

  /** Before a recovery changes the journal, and whenever it finds anything wrong with it, the
      exact bytes it found are in a file beside the journal; only a failed quarantine is reported as such. */
  lemma RecoveryKeepsEvidence(codec: Codec, at: Layout, files: Files, env: Environment)
    requires at.Valid()
    ensures var (after, outcome) := RecoverOn(codec, at, files, env);
            JournalOf(after, at) != JournalOf(files, at) || Noteworthy(outcome)
            ==> KeptAside(after, at, JournalOf(files, at))
  {
    var bytes := JournalOf(files, at);
    var (kept, name) := Quarantined(files, at, bytes, env);
    var after := RecoverOn(codec, at, files, env).0;
    QuarantineKeeps(at, files, bytes, env);
    QuarantinedFirst(codec, at, files, env);
    RecoveryWrites(codec, at, files, env);
    if name.Some? && after != files {
      KeptBesides(at, kept, bytes, after);
    }
  }

  /** No file other than the journal changes or goes. */
  ghost predicate OthersKept(at: Layout, before: Files, after: Files) {
    forall name :: name in before && name != at.journal ==> name in after && after[name] == before[name]
  }

  lemma RecoveryKeepsOthers(codec: Codec, at: Layout, files: Files, env: Environment)
    requires at.Valid()
    ensures OthersKept(at, files, RecoverOn(codec, at, files, env).0)
  {
    QuarantineKeeps(at, files, JournalOf(files, at), env);
    RecoveryWrites(codec, at, files, env);
  }

  /** No step changes or removes a file other than the journal. */
  lemma OtherFilesFrozen(codec: Codec, at: Layout, before: Files, e: Event, after: Files)
    requires at.Valid() && Step(codec, at, before, e, after)
    ensures OthersKept(at, before, after)
  {
    match e {
      case Recovery(env, _) => RecoveryKeepsOthers(codec, at, before, env);
      case Appending(_, _, _, _) =>
      case Compacting(_, _, _, _) =>
      case Crash =>
    }
  }

  lemma KeptStep(codec: Codec, at: Layout, before: Files, e: Event, after: Files, bytes: seq<byte>)
    requires at.Valid() && Step(codec, at, before, e, after) && KeptAside(before, at, bytes)
    ensures KeptAside(after, at, bytes)
  {
    OtherFilesFrozen(codec, at, before, e, after);
    KeptBesides(at, before, bytes, after);
  }

  /** Evidence that was ever kept beside the journal is there for the rest of the run. */
  lemma {:induction false} EvidenceSurvives(codec: Codec, at: Layout, states: seq<Files>, events: seq<Event>,
                                            i: nat, j: nat, bytes: seq<byte>)
    requires at.Valid() && Run(codec, at, states, events) && i <= j < |states|
    requires KeptAside(states[i], at, bytes)
    ensures KeptAside(states[j], at, bytes)
  {
    if i < j {
      EvidenceSurvives(codec, at, states, events, i, j - 1, bytes);
      KeptStep(codec, at, states[j - 1], events[j - 1], states[j], bytes);
    }
  }

  // ----- Recovering twice

  /** The directory holds a clean journal, if any, and no marker. */
  ghost predicate Settled(codec: Codec, at: Layout, files: Files, records: seq<Record>) {
    && at.marker !in files
    && VerdictOn(codec, JournalOf(files, at)) == Clean(records)
    && !NeedsNewline(codec, JournalOf(files, at))
  }

  lemma HandlingRecovers(at: Layout, files: Files, bytes: seq<byte>, verdict: Verdict, normalize: bool,
                         env: Environment)
    requires at.Valid() && at.marker !in files && JournalOf(files, at) == bytes
    requires HandleBytes(at, files, bytes, verdict, normalize, env).1.Recovered?
    ensures var (after, outcome) := HandleBytes(at, files, bytes, verdict, normalize, env);
            && verdict == Clean(outcome.records) && at.marker !in after
            && JournalOf(after, at) == if normalize then bytes + [NEWLINE] else bytes
  {
    QuarantineKeeps(at, files, bytes, env);
  }

  /** What a recovery that returned records leaves, and what it had found. */
  lemma RecoveredSettles(codec: Codec, at: Layout, files: Files, env: Environment)
    requires at.Valid() && RecoverOn(codec, at, files, env).1.Recovered?
    ensures var (after, outcome) := RecoverOn(codec, at, files, env);
            && Settled(codec, at, after, outcome.records)
            && VerdictOn(codec, JournalOf(files, at)) == Clean(outcome.records)
  {
    if at.journal in files {
      var was := files[at.journal];
      HandlingRecovers(at, files, was, VerdictOn(codec, was), NeedsNewline(codec, was), env);
      if NeedsNewline(codec, was) {
        NormalizingSettles(codec, was);
      }
    }
  }

  lemma SettledRecovery(codec: Codec, at: Layout, files: Files, env: Environment, records: seq<Record>)
    requires Settled(codec, at, files, records) && env.markerReadable && env.journalReadable
    ensures RecoverOn(codec, at, files, env) == (files, Recovered(records))
  {
  }

  /** After a recovery that returned records, recovering again changes nothing and returns the same records. */
  lemma RecoveringAgain(codec: Codec, at: Layout, files: Files, env: Environment, again: Environment)
    requires at.Valid() && again.markerReadable && again.journalReadable
    ensures var (after, outcome) := RecoverOn(codec, at, files, env);
            outcome.Recovered? ==> RecoverOn(codec, at, after, again) == (after, outcome)
  {
    var (after, outcome) := RecoverOn(codec, at, files, env);
    if outcome.Recovered? {
      RecoveredSettles(codec, at, files, env);
      SettledRecovery(codec, at, after, again, outcome.records);
    }
  }
}
