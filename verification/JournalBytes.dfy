/** The journal as newline-terminated lines of bytes, and the verdict on arbitrary bytes. */
module JournalBytes {
  import opened Wrappers
  import opened Bytes
  import opened OperationLog

  const NEWLINE: byte := 10

  datatype Decoded = Parsed(record: Record) | UnexpectedEnd | Malformed

  /** The record codec. Its implementation is not part of this model; what is used of it is `Valid`. */
  datatype Codec = Codec(encode: Record -> seq<byte>, decode: seq<byte> -> Decoded) {

    /** An encoding is not empty and holds no newline (section 7 of RFC 8259), decoding undoes
        encoding, and a record cut short is recognised as such. */
    ghost predicate Valid() {
      && (forall r :: encode(r) != [] && NEWLINE !in encode(r) && decode(encode(r)) == Parsed(r))
      && (forall r, k :: 0 < k < |encode(r)| ==> decode(encode(r)[..k]) == UnexpectedEnd)
    }

    function Line(r: Record): seq<byte> {
      encode(r) + [NEWLINE]
    }

    /** The bytes of a journal written record by record. */
    function Frame(records: seq<Record>): seq<byte> {
      if records == [] then []
      else Frame(records[..|records| - 1]) + Line(records[|records| - 1])
    }
  }

  datatype RecoveryReason =
    | IncompleteUnterminatedSuffix
    | MalformedFinalRecord
    | MalformedMiddleRecord
    | InvalidPhaseSequence
    | BlockedMarkerPresent
    | UnreadableJournal

  datatype Verdict =
    | Clean(records: seq<Record>)
    | Incomplete(validated: nat)
    | Corrupt(reason: RecoveryReason)

  // ----- The verdict

  predicate Terminated(bytes: seq<byte>) {
    bytes != [] && bytes[|bytes| - 1] == NEWLINE
  }

  /** The lines that must hold records: all of them, but not the empty one after a final newline. */
  function RecordLines(bytes: seq<byte>): seq<seq<byte>> {
    var lines := Split(bytes, NEWLINE);
    if Terminated(bytes) then lines[..|lines| - 1] else lines
  }

  /** The records on the lines before the first line that does not decode. */
  function Readable(codec: Codec, lines: seq<seq<byte>>): (records: seq<Record>)
    ensures |records| <= |lines|
    ensures forall i :: 0 <= i < |records| ==> codec.decode(lines[i]) == Parsed(records[i])
    ensures |records| < |lines| ==> !codec.decode(lines[|records|]).Parsed?
  {
    if lines == [] then []
    else
      match codec.decode(lines[0])
      case Parsed(r) => [r] + Readable(codec, lines[1..])
      case _ => []
  }

  function PhaseVerdict(records: seq<Record>): Verdict {
    if Replay(records).Success? then Clean(records) else Corrupt(InvalidPhaseSequence)
  }

  function VerdictOn(codec: Codec, bytes: seq<byte>): Verdict {
    var lines := RecordLines(bytes);
    var records := Readable(codec, lines);
    if bytes == [] then Clean([])
    else if |records| == |lines| then PhaseVerdict(records)
    else if |records| + 1 < |lines| then Corrupt(MalformedMiddleRecord)
    else if !Terminated(bytes) && codec.decode(lines[|records|]).UnexpectedEnd? then Incomplete(|records|)
    else Corrupt(MalformedFinalRecord)
  }

  /** A clean journal without its last newline gets one. */
  predicate NeedsNewline(codec: Codec, bytes: seq<byte>) {
    VerdictOn(codec, bytes).Clean? && bytes != [] && !Terminated(bytes)
  }

  lemma {:induction false} ReadableFromDecodes(codec: Codec, lines: seq<seq<byte>>, records: seq<Record>)
    requires |records| <= |lines|
    requires forall i :: 0 <= i < |records| ==> codec.decode(lines[i]) == Parsed(records[i])
    requires |records| < |lines| ==> !codec.decode(lines[|records|]).Parsed?
    ensures Readable(codec, lines) == records
  {
    if records == [] {
    } else {
      assert codec.decode(lines[0]) == Parsed(records[0]);
      assert forall i :: 0 <= i < |records| - 1 ==> codec.decode(lines[1..][i]) == Parsed(records[1..][i]);
      ReadableFromDecodes(codec, lines[1..], records[1..]);
    }
  }

  method ClassifyBytes(codec: Codec, bytes: seq<byte>) returns (verdict: Verdict, normalize: bool)
    ensures verdict == VerdictOn(codec, bytes)
    ensures normalize <==> NeedsNewline(codec, bytes)
  {
    if bytes == [] {
      return Clean([]), false;
    }
    var terminated := bytes[|bytes| - 1] == NEWLINE;
    var lines := Split(bytes, NEWLINE);
    if terminated {
      lines := lines[..|lines| - 1];
    }
    var records: seq<Record> := [];
    for index := 0 to |lines|
      invariant |records| == index
      invariant forall i :: 0 <= i < index ==> codec.decode(lines[i]) == Parsed(records[i])
    {
      var decoded := codec.decode(lines[index]);
      if decoded.Parsed? {
        records := records + [decoded.record];
      } else {
        ReadableFromDecodes(codec, lines, records);
        if !terminated && index + 1 == |lines| && decoded.UnexpectedEnd? {
          return Incomplete(|records|), false;
        } else if index + 1 == |lines| {
          return Corrupt(MalformedFinalRecord), false;
        } else {
          return Corrupt(MalformedMiddleRecord), false;
        }
      }
    }
    ReadableFromDecodes(codec, lines, records);
    var pending := PendingWithEvidence(records);
    if pending.Failure? {
      return Corrupt(InvalidPhaseSequence), false;
    }
    return Clean(records), !terminated;
  }

  // ----- Journals that hold whole records

  /** `bytes` is a newline-terminated journal whose lines decode to `records`. */
  ghost predicate Denotes(codec: Codec, bytes: seq<byte>, records: seq<Record>) {
    if bytes == [] then records == []
    else
      var lines := RecordLines(bytes);
      && Terminated(bytes)
      && |lines| == |records|
      && forall i :: 0 <= i < |lines| ==> codec.decode(lines[i]) == Parsed(records[i])
  }

  /** The lines of a terminated journal followed by a last line `t`. */
  lemma LinesWithTail(codec: Codec, bytes: seq<byte>, records: seq<Record>, t: seq<byte>)
    requires Denotes(codec, bytes, records) && NEWLINE !in t
    ensures var lines := if bytes == [] then [] else RecordLines(bytes);
            Split(bytes + t, NEWLINE) == lines + [t]
  {
    SplitUnseparated(t, NEWLINE);
    if bytes == [] {
      assert bytes + t == t;
    } else {
      var init := bytes[..|bytes| - 1];
      assert bytes == init + [NEWLINE] + [];
      SplitAround(init, NEWLINE, []);
      assert bytes + t == init + [NEWLINE] + t;
      SplitAround(init, NEWLINE, t);
      assert RecordLines(bytes) == Split(init, NEWLINE);
    }
  }

  lemma LinesWhenTerminated(bytes: seq<byte>)
    ensures RecordLines(bytes + [NEWLINE]) == Split(bytes, NEWLINE)
  {
    SplitAround(bytes, NEWLINE, []);
    assert bytes + [NEWLINE] + [] == bytes + [NEWLINE];
  }

  lemma VerdictOnDenoted(codec: Codec, bytes: seq<byte>, records: seq<Record>)
    requires Denotes(codec, bytes, records)
    ensures VerdictOn(codec, bytes) == PhaseVerdict(records)
    ensures !NeedsNewline(codec, bytes)
  {
    if bytes != [] {
      ReadableFromDecodes(codec, RecordLines(bytes), records);
    }
  }

  /** Writing one more line adds its record. */
  lemma AppendDenotes(codec: Codec, bytes: seq<byte>, records: seq<Record>, r: Record)
    requires codec.Valid() && Denotes(codec, bytes, records)
    ensures Denotes(codec, bytes + codec.Line(r), records + [r])
  {
    var encoded := codec.encode(r);
    LinesWithTail(codec, bytes, records, encoded);
    LinesWhenTerminated(bytes + encoded);
    assert bytes + codec.Line(r) == bytes + encoded + [NEWLINE];
  }

  lemma {:induction false} FrameDenotes(codec: Codec, records: seq<Record>)
    requires codec.Valid()
    ensures Denotes(codec, codec.Frame(records), records)
  {
    if records != [] {
      FrameDenotes(codec, records[..|records| - 1]);
      AppendDenotes(codec, codec.Frame(records[..|records| - 1]), records[..|records| - 1], records[|records| - 1]);
      assert records[..|records| - 1] + [records[|records| - 1]] == records;
    }
  }

  // ----- An unterminated suffix

  /** `bytes` is a journal of the records `records`, followed by the beginning of one more line. */
  ghost predicate UnterminatedSuffix(codec: Codec, bytes: seq<byte>,
                                     base: seq<byte>, records: seq<Record>, tail: seq<byte>)
  {
    && bytes == base + tail
    && Denotes(codec, base, records)
    && tail != [] && NEWLINE !in tail
    && codec.decode(tail).UnexpectedEnd?
  }

  /** The lines before the suffix hold the counted records. */
  lemma SuffixOfIncomplete(codec: Codec, bytes: seq<byte>)
    returns (base: seq<byte>, records: seq<Record>, tail: seq<byte>)
    requires VerdictOn(codec, bytes).Incomplete?
    ensures UnterminatedSuffix(codec, bytes, base, records, tail)
    ensures |records| == VerdictOn(codec, bytes).validated
  {
    var lines := RecordLines(bytes);
    records := Readable(codec, lines);
    base, tail := SplitLast(bytes, NEWLINE);
    assert lines[|records|] == tail;
    assert tail == [] ==> bytes == base;
    if base == [] {
      assert Split(base, NEWLINE) == [[]];
    } else {
      assert RecordLines(base) == lines[..|records|];
    }
  }

  lemma LastLineCutShort(codec: Codec, bytes: seq<byte>, lines: seq<seq<byte>>, records: seq<Record>, tail: seq<byte>)
    requires bytes != [] && !Terminated(bytes) && Split(bytes, NEWLINE) == lines + [tail]
    requires |records| == |lines| && forall i :: 0 <= i < |lines| ==> codec.decode(lines[i]) == Parsed(records[i])
    requires codec.decode(tail).UnexpectedEnd?
    ensures VerdictOn(codec, bytes) == Incomplete(|records|)
  {
    ReadableFromDecodes(codec, lines + [tail], records);
  }

  lemma SuffixIsIncomplete(codec: Codec, bytes: seq<byte>, base: seq<byte>, records: seq<Record>, tail: seq<byte>)
    requires UnterminatedSuffix(codec, bytes, base, records, tail)
    ensures VerdictOn(codec, bytes) == Incomplete(|records|)
  {
    assert bytes[|bytes| - 1] == tail[|tail| - 1];
    LinesWithTail(codec, base, records, tail);
    LastLineCutShort(codec, bytes, if base == [] then [] else RecordLines(base), records, tail);
  }

  /** The verdict of an incomplete suffix means, in both directions, that whole lines of that many
      records are followed by a beginning of a line, and it says nothing about their phases. */
  lemma IncompleteMeansSuffix(codec: Codec, bytes: seq<byte>, n: nat)
    ensures VerdictOn(codec, bytes) == Incomplete(n) <==>
            exists base: seq<byte>, records: seq<Record>, tail: seq<byte> ::
              UnterminatedSuffix(codec, bytes, base, records, tail) && |records| == n
  {
    if VerdictOn(codec, bytes) == Incomplete(n) {
      var base, records, tail := SuffixOfIncomplete(codec, bytes);
    }
    if base: seq<byte>, records: seq<Record>, tail: seq<byte> :|
        UnterminatedSuffix(codec, bytes, base, records, tail) && |records| == n {
      SuffixIsIncomplete(codec, bytes, base, records, tail);
    }
  }

  /** The prefix in front of an incomplete suffix is a clean journal exactly if each operation's
      records in it are in order; otherwise it would have been found corrupt without the suffix. */
  lemma PrefixIsValidIffInOrder(codec: Codec, bytes: seq<byte>,
                                base: seq<byte>, records: seq<Record>, tail: seq<byte>)
    requires UnterminatedSuffix(codec, bytes, base, records, tail)
    ensures VerdictOn(codec, bytes) == Incomplete(|records|)
    ensures VerdictOn(codec, base) == Clean(records) <==> AllInOrder(records)
    ensures VerdictOn(codec, base) == Corrupt(InvalidPhaseSequence) <==> !AllInOrder(records)
  {
    SuffixIsIncomplete(codec, bytes, base, records, tail);
    VerdictOnDenoted(codec, base, records);
    AcceptedIffEachOperationInOrder(records);
  }

  /** Hence any journal of records out of order counts as an incomplete one as soon as the
      beginning of a further record follows it. */
  lemma SuffixHidesPhases(codec: Codec, records: seq<Record>, r: Record, cut: nat)
    requires codec.Valid() && Replay(records).Failure? && 0 < cut < |codec.encode(r)|
    ensures VerdictOn(codec, codec.Frame(records)) == Corrupt(InvalidPhaseSequence)
    ensures VerdictOn(codec, codec.Frame(records) + codec.encode(r)[..cut]) == Incomplete(|records|)
  {
    var base, tail := codec.Frame(records), codec.encode(r)[..cut];
    FrameDenotes(codec, records);
    AcceptedIffEachOperationInOrder(records);
    PrefixIsValidIffInOrder(codec, base + tail, base, records, tail);
  }

  // ----- An append cut at any byte

  /** The verdict after the write of `r` behind `records` stopped after `cut` bytes. */
  function VerdictAfterCut(codec: Codec, records: seq<Record>, r: Record, cut: nat): Verdict {
    if cut == 0 then PhaseVerdict(records)
    else if cut < |codec.encode(r)| then Incomplete(|records|)
    else PhaseVerdict(records + [r])
  }

  /** Stopping an append at any byte leaves the old journal, the new one, the new one short of
      its newline, or an unterminated suffix behind exactly the old records. No cut is taken
      for a malformed record. */
  lemma CutAppend(codec: Codec, bytes: seq<byte>, records: seq<Record>, r: Record, cut: nat)
    requires codec.Valid() && Denotes(codec, bytes, records) && cut <= |codec.Line(r)|
    ensures var after := bytes + codec.Line(r)[..cut];
            && VerdictOn(codec, after) == VerdictAfterCut(codec, records, r, cut)
            && (NeedsNewline(codec, after) <==> cut == |codec.encode(r)| && Replay(records + [r]).Success?)
  {
    if cut == 0 {
      assert bytes + codec.Line(r)[..0] == bytes;
      VerdictOnDenoted(codec, bytes, records);
    } else if cut < |codec.encode(r)| {
      CutInside(codec, bytes, records, r, cut);
    } else if cut == |codec.encode(r)| {
      CutBeforeNewline(codec, bytes, records, r);
    } else {
      assert codec.Line(r)[..cut] == codec.Line(r);
      AppendDenotes(codec, bytes, records, r);
      VerdictOnDenoted(codec, bytes + codec.Line(r), records + [r]);
    }
  }

  lemma CutInside(codec: Codec, bytes: seq<byte>, records: seq<Record>, r: Record, cut: nat)
    requires codec.Valid() && Denotes(codec, bytes, records) && 0 < cut < |codec.encode(r)|
    ensures VerdictOn(codec, bytes + codec.Line(r)[..cut]) == Incomplete(|records|)
  {
    var tail := codec.encode(r)[..cut];
    assert codec.Line(r)[..cut] == tail;
    SuffixIsIncomplete(codec, bytes + tail, bytes, records, tail);
  }

  lemma CutBeforeNewline(codec: Codec, bytes: seq<byte>, records: seq<Record>, r: Record)
    requires codec.Valid() && Denotes(codec, bytes, records)
    ensures var after := bytes + codec.Line(r)[..|codec.encode(r)|];
            && VerdictOn(codec, after) == PhaseVerdict(records + [r])
            && (NeedsNewline(codec, after) <==> Replay(records + [r]).Success?)
  {
    var tail := codec.encode(r);
    var after := bytes + tail;
    assert codec.Line(r)[..|tail|] == tail;
    LinesWithTail(codec, bytes, records, tail);
    assert !Terminated(after) by {
      assert after[|after| - 1] == tail[|tail| - 1];
    }
    ReadableFromDecodes(codec, RecordLines(after), records + [r]);
  }

  /** Adding the missing newline, to whatever bytes were judged clean without it, keeps the
      verdict and asks for nothing more. */
  lemma NormalizingSettles(codec: Codec, bytes: seq<byte>)
    requires NeedsNewline(codec, bytes)
    ensures var records := VerdictOn(codec, bytes).records;
            && Denotes(codec, bytes + [NEWLINE], records)
            && VerdictOn(codec, bytes + [NEWLINE]) == Clean(records)
            && !NeedsNewline(codec, bytes + [NEWLINE])
  {
    LinesWhenTerminated(bytes);
    VerdictOnDenoted(codec, bytes + [NEWLINE], VerdictOn(codec, bytes).records);
  }

  /** A clean verdict means that the bytes, with the newline they may lack, hold exactly those
      records and that their phases are in order. */
  lemma CleanMeansDenoted(codec: Codec, bytes: seq<byte>, records: seq<Record>)
    ensures VerdictOn(codec, bytes) == Clean(records) <==>
            && Replay(records).Success?
            && Denotes(codec, if bytes == [] || Terminated(bytes) then bytes else bytes + [NEWLINE], records)
  {
    if bytes == [] || Terminated(bytes) {
      if Denotes(codec, bytes, records) {
        VerdictOnDenoted(codec, bytes, records);
      }
    } else {
      LinesWhenTerminated(bytes);
      if Denotes(codec, bytes + [NEWLINE], records) {
        ReadableFromDecodes(codec, RecordLines(bytes), records);
      }
    }
  }
}
