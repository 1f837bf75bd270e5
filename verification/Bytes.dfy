/** Byte strings. */
module Bytes {
  type byte = b: int | 0 <= b < 0x100

  /** Splits around every separator: as many pieces as separators, plus one. */
  function Split(bytes: seq<byte>, separator: byte): (pieces: seq<seq<byte>>)
    ensures pieces != []
  {
    if bytes == [] then [[]]
    else Extend(Split(bytes[..|bytes| - 1], separator), bytes[|bytes| - 1], separator)
  }

  lemma {:induction false} SplitUnseparated(bytes: seq<byte>, separator: byte)
    requires separator !in bytes
    ensures Split(bytes, separator) == [bytes]
  {
    if bytes != [] {
      var init := bytes[..|bytes| - 1];
      SplitUnseparated(init, separator);
      assert bytes == init + [bytes[|bytes| - 1]];
    }
  }

  lemma SplitSnoc(bytes: seq<byte>, b: byte, separator: byte)
    ensures Split(bytes + [b], separator) == Extend(Split(bytes, separator), b, separator)
  {
    assert (bytes + [b])[..|bytes|] == bytes;
  }

  /** A separator in the middle splits both sides independently. */
  lemma {:induction false} SplitAround(a: seq<byte>, separator: byte, b: seq<byte>)
    ensures Split(a + [separator] + b, separator) == Split(a, separator) + Split(b, separator)
  {
    var joined := a + [separator];
    if b == [] {
      assert joined + b == joined;
      SplitSnoc(a, separator, separator);
    } else {
      var init, last := b[..|b| - 1], b[|b| - 1];
      SplitAround(a, separator, init);
      assert joined + b == joined + init + [last];
      SplitSnoc(joined + init, last, separator);
      ExtendAfter(Split(a, separator), Split(init, separator), last, separator);
    }
  }

  /** What follows the last separator is the last piece; what comes before it ends with that separator. */
  lemma {:induction false} SplitLast(bytes: seq<byte>, separator: byte) returns (base: seq<byte>, tail: seq<byte>)
    ensures bytes == base + tail && separator !in tail
    ensures base == [] || base[|base| - 1] == separator
    ensures Split(bytes, separator) == Split(base, separator)[..|Split(base, separator)| - 1] + [tail]
  {
    if bytes == [] {
      base, tail := [], [];
    } else {
      var init, last := bytes[..|bytes| - 1], bytes[|bytes| - 1];
      assert bytes == init + [last];
      base, tail := SplitLast(init, separator);
      if last == separator {
        base, tail := bytes, [];
      } else {
        tail := tail + [last];
        assert base + tail == bytes;
      }
    }
  }

  function Extend(pieces: seq<seq<byte>>, b: byte, separator: byte): seq<seq<byte>>
    requires pieces != []
  {
    if b == separator then pieces + [[]] else pieces[..|pieces| - 1] + [pieces[|pieces| - 1] + [b]]
  }

  lemma ExtendAfter(left: seq<seq<byte>>, right: seq<seq<byte>>, b: byte, separator: byte)
    requires right != []
    ensures Extend(left + right, b, separator) == left + Extend(right, b, separator)
  {
    assert (left + right)[..|left + right| - 1] == left + right[..|right| - 1];
  }
}
