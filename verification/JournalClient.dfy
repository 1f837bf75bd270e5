/** A client of the journal that recovers before it writes: what its runs keep, and what ruins them. */
module JournalClient {
  import opened Wrappers
  import opened Bytes
  import opened OperationLog
  import opened Compaction
  import opened JournalBytes
  import opened JournalDirectory
  import opened JournalRuns

  /** What a run is about: the uncommitted operations, the record whose append did not report
      success, the records the client may build on if it has recovered since its last failure, and
      whether it has appended a record out of phase order since then. */
  datatype Client = Client(pending: seq<Pending>, inFlight: Option<Record>, view: Option<seq<Record>>, disordered: bool)

  function Advance(pending: seq<Pending>, r: Record): seq<Pending> {
    var next := Apply(State(pending, {}), r);
    if next.Success? then next.value.pending else pending
  }

  /** The client appends only after it has recovered, any record, and compacts only what it recovered. */
  predicate Allowed(c: Client, e: Event) {
    match e
    case Appending(_, _, _, _) => c.view.Some?
    case Compacting(records, _, _, _) => c.view == Some(records)
    case _ => true
  }

  /** The record would not be the next phase of its operation in the records that the client knows. */
  predicate OutOfOrder(c: Client, r: Record) {
    c.view.Some? && Replay(c.view.value + [r]).Failure?
  }

  function After(c: Client, e: Event): Client {
    match e
    case Recovery(_, outcome) =>
      if outcome.Recovered? && Replay(outcome.records).Success?
      then Client(Replay(outcome.records).value.pending, None, Some(outcome.records), false)
      else c.(view := None)
    case Appending(r, _, _, ok) =>
      var disordered := c.disordered || OutOfOrder(c, r);
      if ok && c.view.Some? then
        Client(if OutOfOrder(c, r) then c.pending else Advance(c.pending, r),
               None, Some(c.view.value + [r]), disordered)
      else Client(c.pending, Some(r), None, disordered)
    case Compacting(_, _, _, ok) =>
      if ok then Client(c.pending, None, Some(Compacted(c.pending)), false) else c.(view := None)
    case Crash => c.(view := None)
  }

  /** The records are in order, and then their uncommitted operations are `pending`; only a disordered
      journal may hold others. */
  ghost predicate Tells(log: seq<Record>, pending: seq<Pending>, disordered: bool) {
    && (Replay(log).Success? ==> Replay(log).value.pending == pending)
    && (!disordered ==> Replay(log).Success?)
  }

  /** The journal holds the records `log`, followed by the first `cut` bytes of the record in flight. */
  ghost predicate Holds(codec: Codec, bytes: seq<byte>, c: Client, base: seq<byte>, log: seq<Record>, cut: nat) {
    && Denotes(codec, base, log)
    && Tells(log, c.pending, c.disordered)
    && match c.inFlight
       case None => bytes == base
       case Some(r) =>
         && (!c.disordered ==> Replay(log + [r]).Success?)
         && cut <= |codec.Line(r)|
         && bytes == base + codec.Line(r)[..cut]
  }

  ghost predicate Backed(codec: Codec, bytes: seq<byte>, c: Client) {
    exists base: seq<byte>, log: seq<Record>, cut: nat :: Holds(codec, bytes, c, base, log, cut)
  }

  ghost predicate Invariant(codec: Codec, at: Layout, files: Files, c: Client) {
    && (c.view.Some? ==>
          && at.marker !in files
          && c.inFlight.None?
          && Denotes(codec, JournalOf(files, at), c.view.value)
          && Tells(c.view.value, c.pending, c.disordered))
    && (at.marker in files || Backed(codec, JournalOf(files, at), c))
  }

  lemma BackedByRecords(codec: Codec, bytes: seq<byte>, log: seq<Record>, c: Client)
    requires Denotes(codec, bytes, log) && Tells(log, c.pending, c.disordered) && c.inFlight.None?
    ensures Backed(codec, bytes, c)
  {
    assert Holds(codec, bytes, c, bytes, log, 0);
  }

  lemma AdvanceIsReplay(log: seq<Record>, r: Record)
    requires Replay(log + [r]).Success?
    ensures Replay(log).Success? && Replay(log + [r]).value.pending == Advance(Replay(log).value.pending, r)
  {
    assert (log + [r])[..|log|] == log;
  }

  // ----- What reading such a journal finds

  /** Exactly the pending operations, or those after the record in flight, or an unterminated suffix;
      records out of order only where the client put some. */
  ghost predicate Finds(codec: Codec, bytes: seq<byte>, c: Client) {
    var verdict := VerdictOn(codec, bytes);
    && (verdict.Corrupt? ==> c.disordered && verdict.reason == InvalidPhaseSequence)
    && (verdict.Incomplete? ==> c.inFlight.Some?)
    && (verdict.Clean? ==> Foreseen(c, verdict.records))
  }

  ghost predicate Foreseen(c: Client, records: seq<Record>) {
    || PendingResult(Replay(records)) == Success(c.pending)
    || (c.inFlight.Some? && PendingResult(Replay(records)) == Success(Advance(c.pending, c.inFlight.value)))
  }

  lemma FindsOld(codec: Codec, bytes: seq<byte>, c: Client, log: seq<Record>)
    requires VerdictOn(codec, bytes) == PhaseVerdict(log) && Tells(log, c.pending, c.disordered)
    ensures Finds(codec, bytes, c)
  {
  }

  lemma FindsNew(codec: Codec, bytes: seq<byte>, c: Client, log: seq<Record>)
    requires c.inFlight.Some? && Tells(log, c.pending, c.disordered)
    requires !c.disordered ==> Replay(log + [c.inFlight.value]).Success?
    requires VerdictOn(codec, bytes) == PhaseVerdict(log + [c.inFlight.value])
    ensures Finds(codec, bytes, c)
  {
    if Replay(log + [c.inFlight.value]).Success? {
      AdvanceIsReplay(log, c.inFlight.value);
    }
  }

  lemma BackedBy(codec: Codec, bytes: seq<byte>, c: Client) returns (base: seq<byte>, log: seq<Record>, cut: nat)
    requires Backed(codec, bytes, c)
    ensures Holds(codec, bytes, c, base, log, cut)
  {
    base, log, cut :| Holds(codec, bytes, c, base, log, cut);
  }

  lemma RecoveryFinds(codec: Codec, bytes: seq<byte>, c: Client, base: seq<byte>, log: seq<Record>, cut: nat)
    requires codec.Valid() && Holds(codec, bytes, c, base, log, cut)
    ensures Finds(codec, bytes, c)
  {
    match c.inFlight {
      case None =>
        VerdictOnDenoted(codec, bytes, log);
        FindsOld(codec, bytes, c, log);
      case Some(r) =>
        CutAppend(codec, base, log, r, cut);
        if cut == 0 {
          FindsOld(codec, bytes, c, log);
        } else if cut >= |codec.encode(r)| {
          FindsNew(codec, bytes, c, log);
        }
    }
  }

  /** Only a record in flight can lack its newline. */
  lemma NewlineOfInFlight(codec: Codec, bytes: seq<byte>, c: Client, base: seq<byte>, log: seq<Record>, cut: nat)
    requires codec.Valid() && Holds(codec, bytes, c, base, log, cut) && NeedsNewline(codec, bytes)
    ensures c.inFlight.Some? && cut == |codec.encode(c.inFlight.value)|
  {
    if c.inFlight.None? {
      VerdictOnDenoted(codec, bytes, log);
    } else {
      CutAppend(codec, base, log, c.inFlight.value, cut);
    }
  }

  lemma LineBeforeNewline(codec: Codec, base: seq<byte>, r: Record)
    ensures var line := codec.Line(r);
            base + line[..|codec.encode(r)|] + [NEWLINE] == base + line[..|line|]
  {
    var line := codec.Line(r);
    assert line[..|codec.encode(r)|] + [NEWLINE] == line == line[..|line|];
  }

  /** A journal that lacks its newline is backed with it as well. */
  lemma NormalizedIsBacked(codec: Codec, bytes: seq<byte>, c: Client, base: seq<byte>, log: seq<Record>, cut: nat)
    requires codec.Valid() && Holds(codec, bytes, c, base, log, cut) && NeedsNewline(codec, bytes)
    ensures Backed(codec, bytes + [NEWLINE], c)
  {
    NewlineOfInFlight(codec, bytes, c, base, log, cut);
    LineBeforeNewline(codec, base, c.inFlight.value);
    assert Holds(codec, bytes + [NEWLINE], c, base, log, |codec.Line(c.inFlight.value)|);
  }

  // ----- The steps

  /** All that a recovery can do, by its outcome. */
  ghost predicate RecoveryShape(codec: Codec, at: Layout, files: Files, after: Files, outcome: Outcome) {
    var was, now := JournalOf(files, at), JournalOf(after, at);
    && (at.marker in files ==> at.marker in after && !outcome.Recovered? && !outcome.CorruptJournal?)
    && (outcome.CorruptJournal? ==> VerdictOn(codec, was) == Corrupt(outcome.reason))
    && (now == was || (NeedsNewline(codec, was) && now == was + [NEWLINE]))
    && (outcome.Recovered? ==>
          Settled(codec, at, after, outcome.records) && VerdictOn(codec, was) == Clean(outcome.records))
  }

  lemma BadRecoveryShape(codec: Codec, at: Layout, files: Files, env: Environment)
    ensures var (after, outcome) := RecoverOn(codec, at, files, env);
            && (at.marker in files ==> after == files && !outcome.Recovered? && !outcome.CorruptJournal?)
            && (outcome.CorruptJournal? ==> VerdictOn(codec, JournalOf(files, at)) == Corrupt(outcome.reason))
  {
  }

  lemma RecoveryHasShape(codec: Codec, at: Layout, files: Files, env: Environment)
    requires at.Valid()
    ensures var (after, outcome) := RecoverOn(codec, at, files, env);
            RecoveryShape(codec, at, files, after, outcome)
  {
    RecoveryKeepsJournal(codec, at, files, env);
    BadRecoveryShape(codec, at, files, env);
    if RecoverOn(codec, at, files, env).1.Recovered? {
      RecoveredSettles(codec, at, files, env);
    }
  }

  lemma SettledDenotes(codec: Codec, at: Layout, files: Files, records: seq<Record>)
    requires Settled(codec, at, files, records)
    ensures Denotes(codec, JournalOf(files, at), records) && Replay(records).Success?
  {
    CleanMeansDenoted(codec, JournalOf(files, at), records);
  }

  /** A client whose view is on disk meets the invariant. */
  lemma ViewBacks(codec: Codec, at: Layout, files: Files, c: Client)
    requires at.marker !in files && c.view.Some? && c.inFlight.None?
    requires Denotes(codec, JournalOf(files, at), c.view.value) && Tells(c.view.value, c.pending, c.disordered)
    ensures Invariant(codec, at, files, c)
  {
    BackedByRecords(codec, JournalOf(files, at), c.view.value, c);
  }

  lemma RecoveredStep(codec: Codec, at: Layout, files: Files, c: Client, env: Environment, outcome: Outcome,
                      after: Files)
    requires codec.Valid() && Invariant(codec, at, files, c)
    requires RecoveryShape(codec, at, files, after, outcome) && outcome.Recovered?
    ensures Invariant(codec, at, after, After(c, Recovery(env, outcome)))
    ensures Explained(c, Recovery(env, outcome), After(c, Recovery(env, outcome)))
  {
    var base, log, cut := BackedBy(codec, JournalOf(files, at), c);
    RecoveryFinds(codec, JournalOf(files, at), c, base, log, cut);
    SettledDenotes(codec, at, after, outcome.records);
    ViewBacks(codec, at, after, After(c, Recovery(env, outcome)));
  }

  lemma FailedRecoveryStep(codec: Codec, at: Layout, files: Files, c: Client, env: Environment, outcome: Outcome,
                           after: Files)
    requires codec.Valid() && Invariant(codec, at, files, c)
    requires RecoveryShape(codec, at, files, after, outcome) && !outcome.Recovered?
    ensures Invariant(codec, at, after, After(c, Recovery(env, outcome)))
    ensures Explained(c, Recovery(env, outcome), After(c, Recovery(env, outcome)))
  {
    var was := JournalOf(files, at);
    if at.marker !in files {
      var base, log, cut := BackedBy(codec, was, c);
      RecoveryFinds(codec, was, c, base, log, cut);
      if JournalOf(after, at) != was {
        NormalizedIsBacked(codec, was, c, base, log, cut);
      }
      SameBacking(codec, JournalOf(after, at), c, c.(view := None));
    }
  }

  lemma SameBacking(codec: Codec, bytes: seq<byte>, c: Client, d: Client)
    requires Backed(codec, bytes, c)
    requires c.pending == d.pending && c.inFlight == d.inFlight && c.disordered == d.disordered
    ensures Backed(codec, bytes, d)
  {
    var base: seq<byte>, log: seq<Record>, cut: nat :| Holds(codec, bytes, c, base, log, cut);
    assert Holds(codec, bytes, d, base, log, cut);
  }

  /** Records behind a disordered journal do not put it in order. */
  lemma AppendedTells(log: seq<Record>, pending: seq<Pending>, r: Record, disordered: bool)
    requires Tells(log, pending, disordered)
    ensures var bad := Replay(log + [r]).Failure?;
            Tells(log + [r], if bad then pending else Advance(pending, r), disordered || bad)
  {
    ReplaySnoc(START, log, r);
    if Replay(log + [r]).Success? {
      AdvanceIsReplay(log, r);
    }
  }

  lemma AppendedBytes(codec: Codec, at: Layout, files: Files, e: Event, after: Files)
    requires e.Appending? && e.ok && Step(codec, at, files, e, after) && at.Valid()
    ensures at.marker !in after && JournalOf(after, at) == JournalOf(files, at) + codec.Line(e.record)
  {
  }

  lemma AppendedView(codec: Codec, bytes: seq<byte>, c: Client, e: Event)
    requires codec.Valid() && e.Appending? && e.ok && c.view.Some?
    requires Denotes(codec, bytes, c.view.value) && Tells(c.view.value, c.pending, c.disordered)
    ensures var next := After(c, e);
            && next.view == Some(c.view.value + [e.record]) && next.inFlight.None?
            && Denotes(codec, bytes + codec.Line(e.record), next.view.value)
            && Tells(next.view.value, next.pending, next.disordered)
    ensures Explained(c, e, After(c, e))
  {
    AppendDenotes(codec, bytes, c.view.value, e.record);
    AppendedTells(c.view.value, c.pending, e.record, c.disordered);
  }

  lemma AppendedStep(codec: Codec, at: Layout, files: Files, c: Client, e: Event, after: Files)
    requires codec.Valid() && e.Appending? && e.ok && c.view.Some?
    requires Denotes(codec, JournalOf(files, at), c.view.value) && Tells(c.view.value, c.pending, c.disordered)
    requires at.marker !in after && JournalOf(after, at) == JournalOf(files, at) + codec.Line(e.record)
    ensures Invariant(codec, at, after, After(c, e)) && Explained(c, e, After(c, e))
  {
    AppendedView(codec, JournalOf(files, at), c, e);
    ViewBacks(codec, at, after, After(c, e));
  }

  lemma FailedAppendStep(codec: Codec, at: Layout, files: Files, c: Client, e: Event, after: Files)
    requires codec.Valid() && at.Valid() && Invariant(codec, at, files, c) && e.Appending? && Allowed(c, e)
    requires Step(codec, at, files, e, after) && !e.ok
    ensures Invariant(codec, at, after, After(c, e)) && Explained(c, e, After(c, e))
  {
    var bytes, log, line := JournalOf(files, at), c.view.value, codec.Line(e.record);
    var cut := if e.append.CutAfter? && e.markerReadable then Min(e.append.written, |line|) else 0;
    assert bytes + line[..0] == bytes;
    assert JournalOf(after, at) == bytes + line[..cut];
    assert Holds(codec, bytes + line[..cut], After(c, e), bytes, log, cut);
  }

  lemma CompactStep(codec: Codec, at: Layout, files: Files, c: Client, e: Event, after: Files)
    requires codec.Valid() && at.Valid() && Invariant(codec, at, files, c) && e.Compacting? && Allowed(c, e)
    requires Step(codec, at, files, e, after)
    ensures Invariant(codec, at, after, After(c, e)) && Explained(c, e, After(c, e))
  {
    if e.ok {
      var compacted := Compacted(c.pending);
      CompactedTells(e.records);
      FrameDenotes(codec, compacted);
      assert JournalOf(after, at) == codec.Frame(compacted);
      ViewBacks(codec, at, after, After(c, e));
    } else if after != files {
      UnflushedCompactStep(codec, at, files, c, e, after);
    } else if at.marker !in files {
      SameBacking(codec, JournalOf(files, at), c, c.(view := None));
    }
  }

  /** A compaction that could not be flushed has happened all the same, and loses nothing. */
  lemma UnflushedCompactStep(codec: Codec, at: Layout, files: Files, c: Client, e: Event, after: Files)
    requires codec.Valid() && at.Valid() && Invariant(codec, at, files, c) && e.Compacting? && Allowed(c, e)
    requires Step(codec, at, files, e, after) && !e.ok && after != files
    ensures Invariant(codec, at, after, After(c, e))
  {
    var compacted := Compacted(c.pending);
    CompactedTells(e.records);
    FrameDenotes(codec, compacted);
    assert JournalOf(after, at) == codec.Frame(compacted);
    BackedByRecords(codec, codec.Frame(compacted), compacted, After(c, e));
  }

  lemma CompactedTells(records: seq<Record>)
    requires Replay(records).Success?
    ensures var pending := Replay(records).value.pending;
            Replay(Compacted(pending)) == Success(State(pending, {}))
  {
    AcceptedIffEachOperationInOrder(records);
    ReplayedCandidatesHaveOutcomes(records);
    ReplayCompacted(Replay(records).value.pending);
  }

  /** The uncommitted operations change by a completed record and by nothing else; a recovered journal
      holds exactly them, and a journal is found corrupt only by a record that was appended out of order. */
  ghost predicate Explained(c: Client, e: Event, next: Client) {
    && (|| next.pending == c.pending
        || (e.Appending? && e.ok && next.pending == Advance(c.pending, e.record))
        || (e.Recovery? && c.inFlight.Some? && next.pending == Advance(c.pending, c.inFlight.value)))
    && (e.Recovery? && e.outcome.CorruptJournal? ==> c.disordered && e.outcome.reason == InvalidPhaseSequence)
    && (e.Recovery? && e.outcome.Recovered? ==>
          PendingResult(Replay(e.outcome.records)) == Success(next.pending))
  }

  lemma ClientStep(codec: Codec, at: Layout, files: Files, c: Client, e: Event, after: Files)
    requires codec.Valid() && at.Valid() && Invariant(codec, at, files, c)
    requires Allowed(c, e) && Step(codec, at, files, e, after)
    ensures Invariant(codec, at, after, After(c, e)) && Explained(c, e, After(c, e))
  {
    match e {
      case Recovery(env, outcome) =>
        RecoveryHasShape(codec, at, files, env);
        if outcome.Recovered? {
          RecoveredStep(codec, at, files, c, env, outcome, after);
        } else {
          FailedRecoveryStep(codec, at, files, c, env, outcome, after);
        }
      case Appending(_, _, _, ok) =>
        if ok {
          AppendedBytes(codec, at, files, e, after);
          AppendedStep(codec, at, files, c, e, after);
        } else {
          FailedAppendStep(codec, at, files, c, e, after);
        }
      case Compacting(_, _, _, _) => CompactStep(codec, at, files, c, e, after);
      case Crash =>
        if at.marker !in files {
          SameBacking(codec, JournalOf(files, at), c, After(c, e));
        }
    }
  }

  ghost predicate ClientRun(codec: Codec, at: Layout, states: seq<Files>, events: seq<Event>, clients: seq<Client>) {
    && Run(codec, at, states, events)
    && |clients| == |states|
    && Invariant(codec, at, states[0], clients[0])
    && forall i {:trigger events[i]} :: 0 <= i < |events| ==>
         Allowed(clients[i], events[i]) && clients[i + 1] == After(clients[i], events[i])
  }

  /** Through every fault and crash, nothing but a completed record ever changes the uncommitted
      operations: compaction, normalization and failed writes do not. Every journal recovered
      holds exactly those operations with their evidence, and none is ever found corrupt unless the
      client has appended a record out of phase order. */
  lemma {:induction false} NothingPendingIsLost(codec: Codec, at: Layout, states: seq<Files>, events: seq<Event>,
                                                clients: seq<Client>, n: nat)
    requires codec.Valid() && at.Valid() && ClientRun(codec, at, states, events, clients) && n < |states|
    ensures Invariant(codec, at, states[n], clients[n])
    ensures forall i :: 0 <= i < n ==> Explained(clients[i], events[i], clients[i + 1])
  {
    if n > 0 {
      NothingPendingIsLost(codec, at, states, events, clients, n - 1);
      ClientStep(codec, at, states[n - 1], clients[n - 1], events[n - 1], states[n]);
    }
  }

  /** A run may start from a directory without journal and marker. */
  lemma EmptyDirectoryStarts(codec: Codec, at: Layout, files: Files)
    requires at.journal !in files && at.marker !in files
    ensures Invariant(codec, at, files, Client([], None, None, false))
  {
    BackedByRecords(codec, JournalOf(files, at), [], Client([], None, None, false));
  }

  // ----- Records out of phase order

  /** Nothing can be recovered: the marker is there, or the journal is not clean and the client that
      may still append to it knows records out of order. */
  ghost predicate Ruined(codec: Codec, at: Layout, files: Files, c: Client) {
    || at.marker in files
    || (&& !VerdictOn(codec, JournalOf(files, at)).Clean?
        && (c.view.Some? ==> Denotes(codec, JournalOf(files, at), c.view.value) && Replay(c.view.value).Failure?))
  }

  /** The event reads or rewrites a whole journal. */
  predicate Restores(e: Event) {
    (e.Recovery? && e.outcome.Recovered?) || (e.Compacting? && e.ok)
  }

  lemma RuinedStep(codec: Codec, at: Layout, files: Files, c: Client, e: Event, after: Files)
    requires codec.Valid() && at.Valid() && Allowed(c, e) && Step(codec, at, files, e, after)
    requires Ruined(codec, at, files, c)
    ensures Ruined(codec, at, after, After(c, e)) && !Restores(e)
  {
    if at.marker in files {
      BlockedStep(codec, at, files, e, after);
    } else {
      match e {
        case Recovery(env, _) => RecoveryHasShape(codec, at, files, env);
        case Appending(_, _, _, _) => RuinedAppend(codec, at, files, c, e, after);
        case Compacting(_, _, _, _) =>
        case Crash =>
      }
    }
  }

  lemma RuinedAppend(codec: Codec, at: Layout, files: Files, c: Client, e: Event, after: Files)
    requires codec.Valid() && e.Appending? && Allowed(c, e) && Step(codec, at, files, e, after)
    requires Ruined(codec, at, files, c) && at.marker !in files
    ensures Ruined(codec, at, after, After(c, e))
  {
    var bytes, log, line := JournalOf(files, at), c.view.value, codec.Line(e.record);
    ReplaySnoc(START, log, e.record);
    var cut := if !e.markerReadable || e.append.NotOpened? then 0
               else if e.append.Flushed? then |line| else Min(e.append.written, |line|);
    assert line[..|line|] == line && bytes + line[..0] == bytes;
    assert JournalOf(after, at) == bytes + line[..cut];
    CutAppend(codec, bytes, log, e.record, cut);
    AppendDenotes(codec, bytes, log, e.record);
  }

  /** Once that has happened, no later step of the run recovers or compacts a journal. */
  lemma {:induction false} RuinedForever(codec: Codec, at: Layout, states: seq<Files>, events: seq<Event>,
                                         clients: seq<Client>, i: nat, j: nat)
    requires codec.Valid() && at.Valid() && ClientRun(codec, at, states, events, clients) && i <= j < |states|
    requires Ruined(codec, at, states[i], clients[i])
    ensures Ruined(codec, at, states[j], clients[j])
    ensures forall k :: i <= k < j ==> !Restores(events[k])
  {
    if i < j {
      RuinedForever(codec, at, states, events, clients, i, j - 1);
      RuinedStep(codec, at, states[j - 1], clients[j - 1], events[j - 1], states[j]);
    }
  }

  /** A record appended behind a recovered journal can be recovered exactly if it is the next phase of its
      operation there; otherwise the journal can never be recovered again. */
  lemma AppendRecoverableIff(codec: Codec, at: Layout, files: Files, c: Client, e: Event, after: Files,
                             env: Environment)
    requires codec.Valid() && at.Valid() && Invariant(codec, at, files, c)
    requires e.Appending? && Allowed(c, e) && Step(codec, at, files, e, after) && e.ok
    requires Replay(c.view.value).Success? && env.markerReadable && env.journalReadable
    ensures var next := InOrder(Phases(c.view.value, e.record.id) + [PhaseOf(e.record)]);
            && (next <==> RecoverOn(codec, at, after, env) == (after, Recovered(c.view.value + [e.record])))
            && (!next <==> Ruined(codec, at, after, After(c, e)))
  {
    var bytes, log, r := JournalOf(files, at), c.view.value, e.record;
    AppendedBytes(codec, at, files, e, after);
    AppendDenotes(codec, bytes, log, r);
    VerdictOnDenoted(codec, bytes + codec.Line(r), log + [r]);
    NextPhaseIff(log, r);
    if Replay(log + [r]).Success? {
      SettledRecovery(codec, at, after, env, log + [r]);
    } else {
      RecoveryHasShape(codec, at, after, env);
    }
  }

  lemma NextPhaseIff(log: seq<Record>, r: Record)
    requires Replay(log).Success?
    ensures Replay(log + [r]).Success? <==> InOrder(Phases(log, r.id) + [PhaseOf(r)])
  {
    AcceptedIffEachOperationInOrder(log);
    AcceptedWhenNextPhase(Replay(log).value, r);
    ReplaySnoc(START, log, r);
  }

  // ----- A run with an operation that recurs before its commit is compacted away

  const GOOD := Environment(true, true, "0", [], Created, Created, Replaced)

  /** A directory that holds nothing but the records `log`. */
  function Holding(codec: Codec, at: Layout, log: seq<Record>): Files {
    if log == [] then map[] else map[at.journal := codec.Frame(log)]
  }

  lemma GoodRecovery(codec: Codec, at: Layout, log: seq<Record>)
    requires codec.Valid() && at.Valid() && Replay(log).Success?
    ensures RecoverOn(codec, at, Holding(codec, at, log), GOOD) == (Holding(codec, at, log), Recovered(log))
  {
    FrameDenotes(codec, log);
    VerdictOnDenoted(codec, codec.Frame(log), log);
    SettledRecovery(codec, at, Holding(codec, at, log), GOOD, log);
  }

  lemma CorruptRecovery(codec: Codec, at: Layout, log: seq<Record>)
    requires codec.Valid() && at.Valid() && Replay(log).Failure?
    ensures RecoverOn(codec, at, Holding(codec, at, log), GOOD).1 == CorruptJournal(InvalidPhaseSequence)
  {
    FrameDenotes(codec, log);
    VerdictOnDenoted(codec, codec.Frame(log), log);
    var files := Holding(codec, at, log);
    assert at.quarantine("0", 0) !in files;
    assert FreeName(files, at, "0", 0) == Some(at.quarantine("0", 0));
  }

  lemma GoodAppend(codec: Codec, at: Layout, log: seq<Record>, r: Record)
    requires at.Valid()
    ensures AppendOn(codec, at, Holding(codec, at, log), r, true, Flushed) == (Holding(codec, at, log + [r]), true)
  {
    assert (log + [r])[..|log|] == log;
    var files := Holding(codec, at, log);
    assert JournalOf(files, at) == codec.Frame(log);
    assert files[at.journal := codec.Frame(log + [r])] == Holding(codec, at, log + [r]);
  }

  lemma RunSnoc(codec: Codec, at: Layout, states: seq<Files>, events: seq<Event>, clients: seq<Client>,
                e: Event, after: Files)
    requires ClientRun(codec, at, states, events, clients)
    requires Allowed(clients[|events|], e) && Step(codec, at, states[|events|], e, after)
    ensures ClientRun(codec, at, states + [after], events + [e], clients + [After(clients[|events|], e)])
  {
  }

  datatype Trace = Trace(states: seq<Files>, events: seq<Event>, clients: seq<Client>)

  ghost predicate TraceOf(codec: Codec, at: Layout, t: Trace, files: Files, c: Client) {
    && ClientRun(codec, at, t.states, t.events, t.clients)
    && t.states[|t.events|] == files && t.clients[|t.events|] == c
  }

  lemma Extended(codec: Codec, at: Layout, t: Trace, files: Files, c: Client, e: Event, after: Files)
    returns (next: Trace)
    requires TraceOf(codec, at, t, files, c) && Allowed(c, e) && Step(codec, at, files, e, after)
    ensures TraceOf(codec, at, next, after, After(c, e))
    ensures next.events == t.events + [e] && next.states[0] == t.states[0]
  {
    RunSnoc(codec, at, t.states, t.events, t.clients, e, after);
    next := Trace(t.states + [after], t.events + [e], t.clients + [After(c, e)]);
  }

  lemma RecoveredTrace(codec: Codec, at: Layout, t: Trace, log: seq<Record>, c: Client) returns (next: Trace, d: Client)
    requires codec.Valid() && at.Valid() && TraceOf(codec, at, t, Holding(codec, at, log), c) && Replay(log).Success?
    ensures d == Client(Replay(log).value.pending, None, Some(log), false)
    ensures TraceOf(codec, at, next, Holding(codec, at, log), d)
    ensures next.events == t.events + [Recovery(GOOD, Recovered(log))] && next.states[0] == t.states[0]
  {
    GoodRecovery(codec, at, log);
    var e := Recovery(GOOD, Recovered(log));
    next := Extended(codec, at, t, Holding(codec, at, log), c, e, Holding(codec, at, log));
    d := After(c, e);
  }

  lemma AppendedTrace(codec: Codec, at: Layout, t: Trace, log: seq<Record>, c: Client, r: Record)
    returns (next: Trace, d: Client)
    requires at.Valid() && TraceOf(codec, at, t, Holding(codec, at, log), c) && c.view == Some(log)
    ensures d.view == Some(log + [r])
    ensures TraceOf(codec, at, next, Holding(codec, at, log + [r]), d)
    ensures next.events == t.events + [Appending(r, true, Flushed, true)] && next.states[0] == t.states[0]
  {
    GoodAppend(codec, at, log, r);
    var e := Appending(r, true, Flushed, true);
    next := Extended(codec, at, t, Holding(codec, at, log), c, e, Holding(codec, at, log + [r]));
    d := After(c, e);
  }

  /** The whole life of one operation. */
  function Life(operation: Json): seq<Record> {
    [Prepared("x", operation), OutcomeObserved("x", "applied", None), StateCommitted("x")]
  }

  lemma LifeReplays(operation: Json)
    ensures Replay(Life(operation)) == Success(State([], {"x"}))
    ensures Replay(Life(operation) + [Prepared("x", operation)]) == Failure(PreparedAfterCommit("x"))
  {
    var observed := Pending("x", operation, Some("applied"), None);
    var init := [Prepared("x", operation), OutcomeObserved("x", "applied", None)];
    assert Compacted([observed]) == init by {
      assert [observed][..0] == [];
    }
    ReplayCompacted([observed]);
    WithoutShape([observed], 0);
    assert {} + {"x"} == {"x"};
    ReplaySnoc(START, init, StateCommitted("x"));
    assert init + [StateCommitted("x")] == Life(operation);
    ReplaySnoc(START, Life(operation), Prepared("x", operation));
  }

  /** A client recovers an empty directory. */
  lemma FirstRecovery(codec: Codec, at: Layout) returns (t: Trace, c: Client)
    requires codec.Valid() && at.Valid()
    ensures TraceOf(codec, at, t, Holding(codec, at, []), c) && c.view == Some([])
    ensures t.states[0] == map[] && t.events == [Recovery(GOOD, Recovered([]))]
  {
    c := Client([], None, None, false);
    EmptyDirectoryStarts(codec, at, map[]);
    t := Trace([map[]], [], [c]);
    t, c := RecoveredTrace(codec, at, t, [], c);
  }

  /** It appends three records. */
  lemma ThreeAppended(codec: Codec, at: Layout, a: Record, b: Record, d: Record) returns (t: Trace, c: Client)
    requires codec.Valid() && at.Valid()
    ensures TraceOf(codec, at, t, Holding(codec, at, [a, b, d]), c) && t.states[0] == map[]
    ensures t.events == [Recovery(GOOD, Recovered([]))] + [Appending(a, true, Flushed, true)]
                        + [Appending(b, true, Flushed, true)] + [Appending(d, true, Flushed, true)]
  {
    t, c := FirstRecovery(codec, at);
    assert [] + [a] == [a] && [a] + [b] == [a, b] && [a, b] + [d] == [a, b, d];
    t, c := AppendedTrace(codec, at, t, [], c, a);
    t, c := AppendedTrace(codec, at, t, [a], c, b);
    t, c := AppendedTrace(codec, at, t, [a, b], c, d);
  }

  /** Its compaction fails, and a later recovery finds nothing pending. */
  lemma UncompactedTrace(codec: Codec, at: Layout, operation: Json, t: Trace, c: Client)
    returns (next: Trace, d: Client)
    requires codec.Valid() && at.Valid() && TraceOf(codec, at, t, Holding(codec, at, Life(operation)), c)
    ensures TraceOf(codec, at, next, Holding(codec, at, Life(operation)), d)
    ensures d == Client([], None, Some(Life(operation)), false) && next.states[0] == t.states[0]
    ensures next.events == t.events + [Recovery(GOOD, Recovered(Life(operation))),
                                       Compacting(Life(operation), true, NotReplaced, false),
                                       Recovery(GOOD, Recovered(Life(operation)))]
  {
    var life := Life(operation);
    LifeReplays(operation);
    next, d := RecoveredTrace(codec, at, t, life, c);
    var failed := Compacting(life, true, NotReplaced, false);
    next := Extended(codec, at, next, Holding(codec, at, life), d, failed, Holding(codec, at, life));
    next, d := RecoveredTrace(codec, at, next, life, After(d, failed));
  }

  /** An operation that was prepared, observed and committed, whose compaction failed, and that is
      prepared again: every event is one of a client that recovers before it writes, and the next
      recovery finds the journal corrupt. */
  lemma RecurringOperationRuins(codec: Codec, journal: string, operation: Json) returns (t: Trace, c: Client)
    requires codec.Valid()
    ensures var at, life, again := LayoutOf(journal), Life(operation), Prepared("x", operation);
            && TraceOf(codec, at, t, Holding(codec, at, life + [again]), c) && t.states[0] == map[]
            && t.events == [Recovery(GOOD, Recovered([]))]
                           + [Appending(life[0], true, Flushed, true)]
                           + [Appending(life[1], true, Flushed, true)]
                           + [Appending(life[2], true, Flushed, true)]
                           + [Recovery(GOOD, Recovered(life)),
                              Compacting(life, true, NotReplaced, false),
                              Recovery(GOOD, Recovered(life))]
                           + [Appending(again, true, Flushed, true)]
            && Ruined(codec, at, Holding(codec, at, life + [again]), c)
            && RecoverOn(codec, at, Holding(codec, at, life + [again]), GOOD).1 == CorruptJournal(InvalidPhaseSequence)
  {
    var at, life, again := LayoutOf(journal), Life(operation), Prepared("x", operation);
    LifeReplays(operation);
    t, c := ThreeAppended(codec, at, life[0], life[1], life[2]);
    t, c := UncompactedTrace(codec, at, operation, t, c);
    t, c := AppendedTrace(codec, at, t, life, c, again);
    CorruptRecovery(codec, at, life + [again]);
    RuinedHolding(codec, at, life + [again], c);
  }

  lemma RuinedHolding(codec: Codec, at: Layout, log: seq<Record>, c: Client)
    requires codec.Valid() && at.Valid() && Replay(log).Failure? && c.view == Some(log)
    ensures Ruined(codec, at, Holding(codec, at, log), c)
  {
    FrameDenotes(codec, log);
    VerdictOnDenoted(codec, codec.Frame(log), log);
  }
}
