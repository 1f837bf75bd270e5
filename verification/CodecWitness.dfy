/** A record codec that meets the assumptions of the byte layer, so those can be met. */
module CodecWitness {
  import opened Wrappers
  import opened Bytes
  import opened OperationLog
  import opened JournalBytes

  function Digits(n: nat): seq<byte> {
    if n == 0 then [2] else [1] + Digits(n - 1)
  }

  function Text(s: string): seq<byte> {
    if s == [] then [3] else Digits(s[0] as int) + Text(s[1..])
  }

  function Fields(fields: seq<string>): seq<byte> {
    if fields == [] then [4] else Text(fields[0]) + Fields(fields[1..])
  }

  function FieldsOf(r: Record): seq<string> {
    match r
    case Prepared(id, operation) => ["prepared", id, operation]
    case OutcomeObserved(id, outcome, None) => ["outcome", id, outcome]
    case OutcomeObserved(id, outcome, Some(candidate)) => ["candidate", id, outcome, candidate]
    case StateCommitted(id) => ["committed", id]
    case Confirmed(id) => ["confirmed", id]
  }

  function Encode(r: Record): seq<byte> {
    Fields(FieldsOf(r))
  }

  ghost function Decode(bytes: seq<byte>): Decoded {
    if exists r :: Encode(r) == bytes then
      var r :| Encode(r) == bytes;
      Parsed(r)
    else if exists r :: CutFrom(bytes, r) then UnexpectedEnd
    else Malformed
  }

  predicate CutFrom(bytes: seq<byte>, r: Record) {
    bytes != [] && bytes < Encode(r)
  }

  // ----- Every encoding can be told from what follows it

  lemma Unnested(a: seq<byte>, b: seq<byte>, c: seq<byte>)
    ensures a + b + c == a + (b + c)
  {
  }

  lemma {:induction false} DigitsEnd(n: nat, x: seq<byte>, m: nat, y: seq<byte>)
    requires Digits(n) + x == Digits(m) + y
    ensures n == m && x == y
  {
    assert (Digits(n) + x)[0] == (Digits(m) + y)[0];
    if n == 0 || m == 0 {
      assert ([2] + x)[1..] == x && ([2] + y)[1..] == y;
    } else {
      Unnested([1], Digits(n - 1), x);
      Unnested([1], Digits(m - 1), y);
      assert ([1] + (Digits(n - 1) + x))[1..] == Digits(n - 1) + x;
      assert ([1] + (Digits(m - 1) + y))[1..] == Digits(m - 1) + y;
      DigitsEnd(n - 1, x, m - 1, y);
    }
  }

  lemma DigitsStart(n: nat)
    ensures Digits(n)[0] in {1, 2}
  {
  }

  lemma {:induction false} TextEnds(s: string, x: seq<byte>, t: string, y: seq<byte>)
    requires Text(s) + x == Text(t) + y
    ensures s == t && x == y
  {
    assert (Text(s) + x)[0] == (Text(t) + y)[0];
    if s == [] || t == [] {
      assert ([3] + x)[1..] == x && ([3] + y)[1..] == y;
      if s != [] {
        DigitsStart(s[0] as int);
      }
      if t != [] {
        DigitsStart(t[0] as int);
      }
    } else {
      Unnested(Digits(s[0] as int), Text(s[1..]), x);
      Unnested(Digits(t[0] as int), Text(t[1..]), y);
      DigitsEnd(s[0] as int, Text(s[1..]) + x, t[0] as int, Text(t[1..]) + y);
      TextEnds(s[1..], x, t[1..], y);
      assert s == [s[0]] + s[1..] && t == [t[0]] + t[1..];
    }
  }

  lemma TextStart(s: string)
    ensures Text(s)[0] in {1, 2, 3}
  {
    if s != [] {
      DigitsStart(s[0] as int);
    }
  }

  lemma {:induction false} FieldsEnd(a: seq<string>, x: seq<byte>, b: seq<string>, y: seq<byte>)
    requires Fields(a) + x == Fields(b) + y
    ensures a == b && x == y
  {
    assert (Fields(a) + x)[0] == (Fields(b) + y)[0];
    if a == [] || b == [] {
      assert ([4] + x)[1..] == x && ([4] + y)[1..] == y;
      if a != [] {
        TextStart(a[0]);
      }
      if b != [] {
        TextStart(b[0]);
      }
    } else {
      Unnested(Text(a[0]), Fields(a[1..]), x);
      Unnested(Text(b[0]), Fields(b[1..]), y);
      TextEnds(a[0], Fields(a[1..]) + x, b[0], Fields(b[1..]) + y);
      FieldsEnd(a[1..], x, b[1..], y);
      assert a == [a[0]] + a[1..] && b == [b[0]] + b[1..];
    }
  }

  lemma SameFields(r: Record, s: Record)
    requires FieldsOf(r) == FieldsOf(s)
    ensures r == s
  {
    assert FieldsOf(r)[0] == FieldsOf(s)[0] && FieldsOf(r)[1] == FieldsOf(s)[1];
    if |FieldsOf(r)| > 2 {
      assert FieldsOf(r)[2] == FieldsOf(s)[2];
    }
    if |FieldsOf(r)| > 3 {
      assert FieldsOf(r)[3] == FieldsOf(s)[3];
    }
  }

  lemma FieldsPrefixFree(a: seq<string>, b: seq<string>)
    requires Fields(a) <= Fields(b)
    ensures a == b
  {
    var rest := Fields(b)[|Fields(a)|..];
    assert Fields(b) + [] == Fields(a) + rest;
    FieldsEnd(b, [], a, rest);
  }

  /** No encoding begins with another one. */
  lemma PrefixFree(r: Record, s: Record)
    requires Encode(r) <= Encode(s)
    ensures r == s
  {
    FieldsPrefixFree(FieldsOf(r), FieldsOf(s));
    SameFields(r, s);
  }

  lemma {:induction false} NoNewlineInDigits(n: nat)
    ensures NEWLINE !in Digits(n)
  {
    if n > 0 {
      NoNewlineInDigits(n - 1);
    }
  }

  lemma {:induction false} NoNewlineInText(s: string)
    ensures NEWLINE !in Text(s)
  {
    if s != [] {
      NoNewlineInDigits(s[0] as int);
      NoNewlineInText(s[1..]);
    }
  }

  lemma {:induction false} NoNewlineInFields(fields: seq<string>)
    ensures NEWLINE !in Fields(fields)
  {
    if fields != [] {
      NoNewlineInText(fields[0]);
      NoNewlineInFields(fields[1..]);
    }
  }

  lemma FieldsAreLong(fields: seq<string>)
    requires fields != []
    ensures |Fields(fields)| > 1
  {
    TextStart(fields[0]);
  }

  lemma FieldsAreNotEmpty(r: Record)
    ensures FieldsOf(r) != []
  {
  }

  lemma EncodingIsLong(r: Record)
    ensures |Encode(r)| > 1
  {
    FieldsAreNotEmpty(r);
    FieldsAreLong(FieldsOf(r));
  }

  lemma DecodeOfOnly(bytes: seq<byte>, r: Record)
    requires Encode(r) == bytes && forall s :: Encode(s) == bytes ==> s == r
    ensures Decode(bytes) == Parsed(r)
  {
  }

  lemma DecodesBack(r: Record)
    ensures Encode(r) != [] && NEWLINE !in Encode(r) && Decode(Encode(r)) == Parsed(r)
  {
    NoNewlineInFields(FieldsOf(r));
    EncodingIsLong(r);
    forall s | Encode(s) == Encode(r)
      ensures s == r
    {
      PrefixFree(s, r);
    }
    DecodeOfOnly(Encode(r), r);
  }

  lemma DecodeOfCut(bytes: seq<byte>, r: Record)
    requires CutFrom(bytes, r) && forall s :: Encode(s) != bytes
    ensures Decode(bytes) == UnexpectedEnd
  {
  }

  lemma CutIsRecognised(r: Record, k: nat)
    requires 0 < k < |Encode(r)|
    ensures Decode(Encode(r)[..k]) == UnexpectedEnd
  {
    forall s
      ensures Encode(s) != Encode(r)[..k]
    {
      if Encode(s) <= Encode(r) {
        PrefixFree(s, r);
      }
    }
    DecodeOfCut(Encode(r)[..k], r);
  }

  /** What the byte layer assumes of the record codec can be had. */
  lemma CodecExists() returns (codec: Codec)
    ensures codec.Valid()
    ensures forall r :: |codec.encode(r)| > 1
  {
    codec := Codec(Encode, Decode);
    forall r
      ensures Encode(r) != [] && NEWLINE !in Encode(r) && Decode(Encode(r)) == Parsed(r)
    {
      DecodesBack(r);
    }
    forall r, k | 0 < k < |Encode(r)|
      ensures Decode(Encode(r)[..k]) == UnexpectedEnd
    {
      CutIsRecognised(r, k);
    }
    forall r
      ensures |Encode(r)| > 1
    {
      EncodingIsLong(r);
    }
  }

  /** One byte behind a commit without preparation turns a corrupt journal into an incomplete one. */
  lemma IncompleteBehindBadPhases() returns (codec: Codec, base: seq<byte>, tail: seq<byte>)
    ensures codec.Valid()
    ensures VerdictOn(codec, base) == Corrupt(InvalidPhaseSequence)
    ensures |tail| == 1 && VerdictOn(codec, base + tail) == Incomplete(1)
    ensures Denotes(codec, base, [StateCommitted("x")])
    ensures Replay([StateCommitted("x")]) == Failure(CommitBeforePrepared("x"))
  {
    codec := CodecExists();
    var records := [StateCommitted("x")];
    assert records[..0] == [];
    assert Replay(records) == Apply(START, records[0]);
    base, tail := codec.Frame(records), codec.encode(records[0])[..1];
    FrameDenotes(codec, records);
    SuffixHidesPhases(codec, records, records[0], 1);
  }
}
