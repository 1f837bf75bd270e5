/** Names of temporary files and of their ownership sidecars (spotter-svc/src/atomic_file.rs). */
module TempNames {
  import opened Wrappers
  import opened Decimal

  type Name = string

  const MARK: string := ".tmp."
  const OWNER: string := ".owner"

  datatype Identity = Identity(pid: nat, nonce: nat)

  predicate InRange(id: Identity) {
    id.pid <= U32_MAX && id.nonce <= U64_MAX
  }

  function Suffix(id: Identity): string {
    Print(id.pid) + ['.'] + Print(id.nonce)
  }

  function TemporaryName(destination: Name, id: Identity): Name {
    destination + MARK + Suffix(id)
  }

  function OwnerName(temporary: Name): Name {
    temporary + OWNER
  }

  // ----- Parsing

  predicate MarkAt(name: Name, i: nat) {
    i + |MARK| <= |name| && name[i..i + |MARK|] == MARK
  }

  /** What follows the last mark that starts before `i`. */
  function AfterLastMark(name: Name, i: nat): Option<string>
    requires i <= |name|
  {
    if i == 0 then None
    else if MarkAt(name, i - 1) then Some(name[i - 1 + |MARK|..])
    else AfterLastMark(name, i - 1)
  }

  /** Splits at every dot. */
  function Parts(s: string): (parts: seq<string>)
    ensures parts != []
  {
    if s == [] then [""]
    else
      var rest := Parts(s[1..]);
      if s[0] == '.' then [""] + rest else [[s[0]] + rest[0]] + rest[1..]
  }

  function ParseSuffix(suffix: string): Option<Identity> {
    var parts := Parts(suffix);
    if |parts| != 2 then None
    else
      var pid, nonce := Parse(parts[0], U32_MAX), Parse(parts[1], U64_MAX);
      if pid.Some? && nonce.Some? then Some(Identity(pid.value, nonce.value)) else None
  }

  /** The identity in the name of a temporary file. */
  function TemporaryIdentity(name: Name): Option<Identity> {
    var suffix := AfterLastMark(name, |name|);
    if suffix.None? then None else ParseSuffix(suffix.value)
  }

  function StripOwner(name: Name): Option<Name> {
    if |OWNER| <= |name| && name[|name| - |OWNER|..] == OWNER then Some(name[..|name| - |OWNER|]) else None
  }

  /** The temporary file that a sidecar belongs to. */
  function OrphanTemporary(name: Name): Option<Name> {
    var temporary := StripOwner(name);
    if temporary.Some? && TemporaryIdentity(temporary.value).Some? then temporary else None
  }

  predicate IsTemporary(name: Name) {
    TemporaryIdentity(name).Some?
  }

  predicate IsSidecar(name: Name) {
    OrphanTemporary(name).Some?
  }

  // ----- Printing and parsing

  lemma {:induction false} OnePart(s: string)
    requires '.' !in s
    ensures Parts(s) == [s]
  {
    if s != [] {
      OnePart(s[1..]);
      assert s == [s[0]] + s[1..];
    }
  }

  lemma {:induction false} FirstPart(a: string, b: string)
    requires '.' !in a
    ensures Parts(a + ['.'] + b) == [a] + Parts(b)
  {
    var whole := a + ['.'] + b;
    if a == [] {
      assert whole[0] == '.' && whole[1..] == b;
    } else {
      assert whole[1..] == a[1..] + ['.'] + b;
      FirstPart(a[1..], b);
      assert a == [a[0]] + a[1..];
      assert ([a[1..]] + Parts(b))[1..] == Parts(b);
    }
  }

  lemma SuffixParses(id: Identity)
    requires InRange(id)
    ensures ParseSuffix(Suffix(id)) == Some(id)
  {
    PrintHasNo(id.pid, '.');
    PrintHasNo(id.nonce, '.');
    FirstPart(Print(id.pid), Print(id.nonce));
    OnePart(Print(id.nonce));
    PrintParses(id.pid, U32_MAX);
    PrintParses(id.nonce, U64_MAX);
  }

  lemma NoTLater(destination: Name, suffix: string, j: nat)
    requires 't' !in suffix && |destination| + 2 <= j < |destination + MARK + suffix|
    ensures (destination + MARK + suffix)[j] != 't'
  {
    var k := j - |destination|;
    assert (destination + MARK + suffix)[j] == if k < |MARK| then MARK[k] else suffix[k - |MARK|];
  }

  /** Nothing without the letter holds the mark, and none begins inside the mark before it. */
  lemma NoLaterMark(destination: Name, suffix: string, i: nat)
    requires 't' !in suffix && |destination| < i
    ensures !MarkAt(destination + MARK + suffix, i)
  {
    var name := destination + MARK + suffix;
    if i + |MARK| <= |name| {
      NoTLater(destination, suffix, i + 1);
      assert name[i..i + |MARK|][1] == name[i + 1] && MARK[1] == 't';
    }
  }

  lemma {:induction false} LastMarkFound(destination: Name, suffix: string, i: nat)
    requires 't' !in suffix && |destination| < i <= |destination + MARK + suffix|
    ensures AfterLastMark(destination + MARK + suffix, i) == Some(suffix)
  {
    var name := destination + MARK + suffix;
    if i - 1 > |destination| {
      NoLaterMark(destination, suffix, i - 1);
      LastMarkFound(destination, suffix, i - 1);
    } else {
      assert name[|destination|..|destination| + |MARK|] == MARK;
      assert name[|destination| + |MARK|..] == suffix;
    }
  }

  lemma SuffixHasNoT(id: Identity)
    ensures 't' !in Suffix(id)
  {
    PrintHasNo(id.pid, 't');
    PrintHasNo(id.nonce, 't');
  }

  /** Printing and parsing are inverse for every destination name, also for one that holds the mark itself. */
  lemma TemporaryNameParses(destination: Name, id: Identity)
    requires InRange(id)
    ensures TemporaryIdentity(TemporaryName(destination, id)) == Some(id)
  {
    SuffixHasNoT(id);
    var name := TemporaryName(destination, id);
    LastMarkFound(destination, Suffix(id), |name|);
    SuffixParses(id);
  }

  /** A temporary name belongs to one destination and one identity. */
  lemma TemporaryNameIsInjective(d: Name, a: Identity, e: Name, b: Identity)
    requires InRange(a) && InRange(b) && TemporaryName(d, a) == TemporaryName(e, b)
    ensures d == e && a == b
  {
    TemporaryNameParses(d, a);
    TemporaryNameParses(e, b);
    SameTail(d + MARK, e + MARK, Suffix(a));
    SameTail(d, e, MARK);
  }

  lemma SameTail(d: string, e: string, tail: string)
    requires d + tail == e + tail
    ensures d == e
  {
    assert |d| == |e|;
    assert (d + tail)[..|d|] == d && (e + tail)[..|e|] == e;
  }

  /** Dropping the suffix of a sidecar gives back its temporary file. */
  lemma OwnerStrips(temporary: Name)
    ensures StripOwner(OwnerName(temporary)) == Some(temporary)
  {
    var name := OwnerName(temporary);
    assert name[|name| - |OWNER|..] == OWNER && name[..|name| - |OWNER|] == temporary;
  }

  lemma SidecarOfTemporary(temporary: Name)
    ensures OrphanTemporary(OwnerName(temporary)) == if IsTemporary(temporary) then Some(temporary) else None
  {
    OwnerStrips(temporary);
  }

  lemma {:induction false} LastPart(s: string)
    requires s != [] && s[|s| - 1] != '.'
    ensures var parts := Parts(s); var last := parts[|parts| - 1]; last != [] && last[|last| - 1] == s[|s| - 1]
  {
    if |s| > 1 {
      LastPart(s[1..]);
    } else {
      assert s[1..] == [];
    }
  }

  lemma {:induction false} MarkLeavesRest(name: Name, i: nat)
    requires i <= |name|
    ensures AfterLastMark(name, i).Some? ==>
              exists k: nat ::
                k + |MARK| <= |name| && MarkAt(name, k) && AfterLastMark(name, i).value == name[k + |MARK|..]
  {
    if i > 0 && !MarkAt(name, i - 1) {
      MarkLeavesRest(name, i - 1);
    }
  }

  /** A name that ends in a letter is no temporary name. */
  lemma LetterEndsNoTemporary(name: Name)
    requires name != [] && name[|name| - 1] != '.' && !('0' <= name[|name| - 1] <= '9') && name[|name| - 1] != '+'
    ensures !IsTemporary(name)
  {
    var suffix := AfterLastMark(name, |name|);
    if suffix.Some? {
      MarkLeavesRest(name, |name|);
      var k: nat :| k + |MARK| <= |name| && MarkAt(name, k) && suffix.value == name[k + |MARK|..];
      assert name[k..k + |MARK|][|MARK| - 1] == '.';
      assert suffix.value != [] && suffix.value[|suffix.value| - 1] == name[|name| - 1];
      LastPart(suffix.value);
      var parts := Parts(suffix.value);
      LetterIsNoNumber(parts[|parts| - 1], U64_MAX);
    }
  }

  lemma LetterIsNoNumber(s: string, max: nat)
    requires s != [] && !('0' <= s[|s| - 1] <= '9') && s[|s| - 1] != '+'
    ensures Parse(s, max) == None
  {
    var digits := if s[0] == '+' then s[1..] else s;
    assert digits[|digits| - 1] == s[|s| - 1];
  }

  /** No name is both a temporary file and a sidecar. */
  lemma NeverBoth(name: Name)
    ensures !(IsTemporary(name) && IsSidecar(name))
  {
    if IsSidecar(name) {
      assert name[|name| - |OWNER|..][|OWNER| - 1] == 'r';
      LetterEndsNoTemporary(name);
    }
  }
}
