/** Recovery, append and compaction of the journal on disk, with a fault at any point. */
module JournalDirectory {
  import opened Wrappers
  import opened Bytes
  import opened OperationLog
  import opened Compaction
  import opened JournalBytes

  // ----- Names

  const MARKER_SUFFIX := ".recovery-blocked"
  const QUARANTINE_PREFIX := ".quarantine-"
  const QUARANTINE_ATTEMPTS: nat := 64

  function Hex(n: nat, width: nat): string {
    if width == 0 then "" else Hex(n / 16, width - 1) + ["0123456789abcdef"[n % 16]]
  }

  /** The names used in the journal's directory. */
  datatype Layout = Layout(journal: string, marker: string, quarantine: (string, nat) -> string) {
    ghost predicate Valid() {
      && journal != marker
      && forall stamp, nonce :: quarantine(stamp, nonce) != journal && quarantine(stamp, nonce) != marker
    }
  }

  /** The names beside a journal; `stamp` is the time and the digest of the quarantined bytes. */
  function LayoutOf(journal: string): (at: Layout)
    ensures at.Valid() && at.journal == journal
  {
    var quarantine := (stamp: string, nonce: nat) =>
      journal + QUARANTINE_PREFIX + stamp + if nonce == 0 then "" else "-" + Hex(nonce, 16);
    var at := Layout(journal, journal + MARKER_SUFFIX, quarantine);
    assert at.marker[|journal| + 1] == 'r';
    assert forall stamp, nonce :: at.quarantine(stamp, nonce)[|journal| + 1] == 'q';
    at
  }

  // ----- The environment's choices

  /** How creating a new file ended; a torn write leaves the bytes written so far. A crash
      during an operation is the fault at that point, with nobody left to see the outcome. */
  datatype CreateFault = Created | Refused | Torn(kept: nat)

  /** How replacing the journal ended. A directory that cannot be flushed fails after the replacement. */
  datatype ReplaceFault = Replaced | ReplacedUnflushed | NotReplaced

  datatype Environment = Environment(
    markerReadable: bool,
    journalReadable: bool,
    stamp: string,
    markerBody: seq<byte>,
    quarantine: CreateFault,
    marker: CreateFault,
    replace: ReplaceFault)

  /** How far an append came before it failed, or that it was flushed. */
  datatype AppendFault = Flushed | NotOpened | CutAfter(written: nat)

  datatype PreservationFailure = QuarantineWrite | MarkerWrite | Replacement

  datatype Outcome =
    | Recovered(records: seq<Record>)
    | NeedsOperator(reason: RecoveryReason, evidence: seq<string>, validated: nat)
    | PreservationFailed(failure: PreservationFailure)
    | CorruptJournal(reason: RecoveryReason)
    | ReadFailed

  /** The settings that a remote operation depends on. */
  datatype RemoteIdentity = RemoteIdentity(url: string, checkoutStatus: nat, checkinStatus: nat)

  type Files = map<string, seq<byte>>

  function JournalOf(files: Files, at: Layout): seq<byte> {
    if at.journal in files then files[at.journal] else []
  }

  // ----- Effects on the directory

  function Min(a: nat, b: nat): nat {
    if a < b then a else b
  }

  /** Exclusive creation of a file that does not exist yet. */
  function CreateNew(files: Files, name: string, bytes: seq<byte>, fault: CreateFault): Files {
    match fault
    case Created => files[name := bytes]
    case Refused => files
    case Torn(kept) => files[name := bytes[..Min(kept, |bytes|)]]
  }

  /** The first unused quarantine name from `nonce` on. */
  function FreeName(files: Files, at: Layout, stamp: string, nonce: nat): (name: Option<string>)
    ensures name.Some? ==> name.value !in files
    ensures name.Some? && at.Valid() ==> name.value != at.journal && name.value != at.marker
    decreases QUARANTINE_ATTEMPTS - nonce
  {
    if nonce >= QUARANTINE_ATTEMPTS then None
    else if at.quarantine(stamp, nonce) !in files then Some(at.quarantine(stamp, nonce))
    else FreeName(files, at, stamp, nonce + 1)
  }

  function Quarantined(files: Files, at: Layout, bytes: seq<byte>, env: Environment): (Files, Option<string>) {
    match FreeName(files, at, env.stamp, 0)
    case None => (files, None)
    case Some(name) =>
      (CreateNew(files, name, bytes, env.quarantine), if env.quarantine.Created? then Some(name) else None)
  }

  function Replacing(files: Files, journal: string, bytes: seq<byte>, fault: ReplaceFault): Files {
    if fault.NotReplaced? then files else files[journal := bytes]
  }

  /** The directory and the outcome once the bytes of the journal are read and judged. */
  function HandleBytes(at: Layout, files: Files, bytes: seq<byte>, verdict: Verdict, normalize: bool, env: Environment)
    : (Files, Outcome)
  {
    var (kept, quarantine) := Quarantined(files, at, bytes, env);
    match verdict
    case Clean(records) =>
      if !normalize then (files, Recovered(records))
      else if quarantine.None? then (kept, PreservationFailed(QuarantineWrite))
      else
        (Replacing(kept, at.journal, bytes + [NEWLINE], env.replace),
         if env.replace.Replaced? then Recovered(records) else PreservationFailed(Replacement))
    case Incomplete(validated) =>
      if quarantine.None? then (kept, PreservationFailed(QuarantineWrite))
      else
        (CreateNew(kept, at.marker, env.markerBody, env.marker),
         if env.marker.Created? then
           NeedsOperator(IncompleteUnterminatedSuffix, [quarantine.value, at.marker], validated)
         else PreservationFailed(MarkerWrite))
    case Corrupt(reason) =>
      (kept, if quarantine.None? then PreservationFailed(QuarantineWrite) else CorruptJournal(reason))
  }

  /** The directory and the outcome after a recovery. */
  function RecoverOn(codec: Codec, at: Layout, files: Files, env: Environment): (Files, Outcome) {
    if !env.markerReadable then (files, ReadFailed)
    else if at.marker in files then (files, NeedsOperator(BlockedMarkerPresent, [at.marker], 0))
    else if at.journal !in files then (files, Recovered([]))
    else if !env.journalReadable then (files, ReadFailed)
    else
      var bytes := files[at.journal];
      HandleBytes(at, files, bytes, VerdictOn(codec, bytes), NeedsNewline(codec, bytes), env)
  }

  /** The directory after an append, and whether it succeeded. */
  function AppendOn(codec: Codec, at: Layout, files: Files, r: Record, markerReadable: bool, fault: AppendFault)
    : (Files, bool)
  {
    if !markerReadable || at.marker in files then (files, false)
    else
      var held := JournalOf(files, at);
      match fault
      case Flushed => (files[at.journal := held + codec.Line(r)], true)
      case NotOpened => (files, false)
      case CutAfter(written) =>
        (files[at.journal := held + codec.Line(r)[..Min(written, |codec.Line(r)|)]], false)
  }

  /** The directory after a compaction of `records`, and whether it succeeded. */
  function CompactOn(codec: Codec, at: Layout, files: Files, records: seq<Record>, markerReadable: bool,
                     fault: ReplaceFault): (Files, bool)
  {
    if !markerReadable || at.marker in files || Replay(records).Failure? then (files, false)
    else
      (Replacing(files, at.journal, codec.Frame(Compacted(Replay(records).value.pending)), fault), fault.Replaced?)
  }

  // ----- The operations themselves

  class Journal {
    const codec: Codec
    const at: Layout
    var files: Files

    constructor (codec: Codec, journal: string, files: Files)
      ensures this.codec == codec && at == LayoutOf(journal) && this.files == files
    {
      this.codec := codec;
      at := LayoutOf(journal);
      this.files := files;
    }

    method WriteQuarantine(bytes: seq<byte>, env: Environment) returns (path: Option<string>)
      modifies this
      ensures (files, path) == Quarantined(old(files), at, bytes, env)
    {
      var nonce := 0;
      while nonce < QUARANTINE_ATTEMPTS
        invariant 0 <= nonce <= QUARANTINE_ATTEMPTS
        invariant files == old(files)
        invariant FreeName(files, at, env.stamp, 0) == FreeName(files, at, env.stamp, nonce)
      {
        var candidate := at.quarantine(env.stamp, nonce);
        if candidate !in files {
          files := CreateNew(files, candidate, bytes, env.quarantine);
          return if env.quarantine.Created? then Some(candidate) else None;
        }
        nonce := nonce + 1;
      }
      path := None;
    }

    method PreserveNonClean(bytes: seq<byte>, verdict: Verdict, env: Environment) returns (outcome: Outcome)
      requires at.journal in files && at.marker !in files && env.markerReadable && env.journalReadable
      requires files[at.journal] == bytes && VerdictOn(codec, bytes) == verdict && !verdict.Clean?
      modifies this
      ensures (files, outcome) == RecoverOn(codec, at, old(files), env)
    {
      var quarantine := WriteQuarantine(bytes, env);
      if quarantine.None? {
        return PreservationFailed(QuarantineWrite);
      }
      if verdict.Incomplete? {
        files := CreateNew(files, at.marker, env.markerBody, env.marker);
        if !env.marker.Created? {
          return PreservationFailed(MarkerWrite);
        }
        return NeedsOperator(IncompleteUnterminatedSuffix, [quarantine.value, at.marker], verdict.validated);
      }
      outcome := CorruptJournal(verdict.reason);
    }

    method Recover(env: Environment) returns (outcome: Outcome)
      modifies this
      ensures (files, outcome) == RecoverOn(codec, at, old(files), env)
    {
      if !env.markerReadable {
        return ReadFailed;
      }
      if at.marker in files {
        return NeedsOperator(BlockedMarkerPresent, [at.marker], 0);
      }
      if at.journal !in files {
        return Recovered([]);
      }
      if !env.journalReadable {
        return ReadFailed;
      }
      var bytes := files[at.journal];
      var verdict, normalize := ClassifyBytes(codec, bytes);
      if !verdict.Clean? {
        outcome := PreserveNonClean(bytes, verdict, env);
        return;
      }
      if !normalize {
        return Recovered(verdict.records);
      }
      var quarantine := WriteQuarantine(bytes, env);
      if quarantine.None? {
        return PreservationFailed(QuarantineWrite);
      }
      var normalized := bytes + [NEWLINE];
      files := Replacing(files, at.journal, normalized, env.replace);
      if !env.replace.Replaced? {
        return PreservationFailed(Replacement);
      }
      NormalizingSettles(codec, bytes);
      var again, _ := ClassifyBytes(codec, normalized);
      outcome := if again.Clean? then Recovered(again.records) else PreservationFailed(Replacement);
    }

    method Append(r: Record, markerReadable: bool, fault: AppendFault) returns (ok: bool)
      modifies this
      ensures (files, ok) == AppendOn(codec, at, old(files), r, markerReadable, fault)
    {
      if !markerReadable || at.marker in files || fault.NotOpened? {
        return false;
      }
      var line := codec.encode(r) + [NEWLINE];
      var written := if fault.CutAfter? then Min(fault.written, |line|) else |line|;
      assert line[..|line|] == line;
      files := files[at.journal := JournalOf(files, at) + line[..written]];
      ok := fault.Flushed?;
    }

    method CompactedBytes(pending: seq<Pending>) returns (bytes: seq<byte>)
      ensures bytes == codec.Frame(Compacted(pending))
    {
      bytes := [];
      for n := 0 to |pending|
        invariant bytes == codec.Frame(Compacted(pending[..n]))
      {
        var p := pending[n];
        assert pending[..n + 1][..n] == pending[..n];
        FrameEvidence(codec, Compacted(pending[..n]), p);
        bytes := bytes + codec.Line(Prepared(p.id, p.operation));
        if p.outcome.Some? {
          bytes := bytes + codec.Line(OutcomeObserved(p.id, p.outcome.value, p.candidate));
        }
      }
      assert pending[..|pending|] == pending;
    }

    method Compact(records: seq<Record>, markerReadable: bool, fault: ReplaceFault) returns (ok: bool)
      modifies this
      ensures (files, ok) == CompactOn(codec, at, old(files), records, markerReadable, fault)
    {
      if !markerReadable || at.marker in files {
        return false;
      }
      var pending := PendingWithEvidence(records);
      if pending.Failure? {
        return false;
      }
      var bytes := CompactedBytes(pending.value);
      files := Replacing(files, at.journal, bytes, fault);
      ok := fault.Replaced?;
    }

    /** Lets the settings that identify remote operations change only when nothing is pending. */
    method GuardRemoteIdentityChange(current: RemoteIdentity, candidate: RemoteIdentity, env: Environment)
      returns (allowed: bool)
      modifies this
      ensures current == candidate ==> allowed && files == old(files)
      ensures current != candidate ==>
                var (after, outcome) := RecoverOn(codec, at, old(files), env);
                && files == after
                && (allowed <==> outcome.Recovered? && PendingResult(Replay(outcome.records)) == Success([]))
    {
      if current == candidate {
        return true;
      }
      var outcome := Recover(env);
      if !outcome.Recovered? {
        return false;
      }
      var pending := PendingWithEvidence(outcome.records);
      allowed := pending.Success? && pending.value == [];
    }
  }

  lemma FrameEvidence(codec: Codec, records: seq<Record>, p: Pending)
    ensures codec.Frame(records + EvidenceRecords(p)) ==
            if p.outcome.None? then codec.Frame(records) + codec.Line(Prepared(p.id, p.operation))
            else codec.Frame(records) + codec.Line(Prepared(p.id, p.operation))
                 + codec.Line(OutcomeObserved(p.id, p.outcome.value, p.candidate))
  {
    var prepared := records + [Prepared(p.id, p.operation)];
    assert prepared[..|records|] == records;
    var whole := records + EvidenceRecords(p);
    if p.outcome.Some? {
      assert whole[..|whole| - 1] == prepared;
    } else {
      assert whole == prepared;
    }
  }
}
