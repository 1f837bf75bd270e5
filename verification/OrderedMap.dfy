/** The order of serial numbers. */
module SerialOrder {

  /** Lexicographic order of strings, as the ordered collections use it. */
  predicate Less(a: string, b: string) {
    b != [] && (a == [] || a[0] < b[0] || (a[0] == b[0] && Less(a[1..], b[1..])))
  }

  lemma {:induction false} LessIsStrict(a: string)
    ensures !Less(a, a)
  {
    if a != [] {
      LessIsStrict(a[1..]);
    }
  }

  lemma {:induction false} LessIsTotal(a: string, b: string)
    ensures a == b || Less(a, b) || Less(b, a)
  {
    if a != [] && b != [] && a[0] == b[0] {
      LessIsTotal(a[1..], b[1..]);
      assert a == [a[0]] + a[1..] && b == [b[0]] + b[1..];
    }
  }

  lemma {:induction false} LessIsTransitive(a: string, b: string, c: string)
    requires Less(a, b) && Less(b, c)
    ensures Less(a, c)
  {
    if a != [] && a[0] == b[0] && b[0] == c[0] {
      LessIsTransitive(a[1..], b[1..], c[1..]);
    }
  }
}

/** Ordered maps keyed by serial number: the list of their values in ascending order of key. */
module OrderedMap {
  import opened Wrappers
  import opened SerialOrder

  ghost predicate Ascending<V(!new)>(key: V -> string, s: seq<V>) {
    forall i, j :: 0 <= i < j < |s| ==> Less(key(s[i]), key(s[j]))
  }

  /** The first value with this key. */
  function Find<V>(key: V -> string, s: seq<V>, k: string): (found: Option<V>)
    ensures found.Some? ==> key(found.value) == k && found.value in s
  {
    if s == [] then None
    else if key(s[0]) == k then Some(s[0])
    else Find(key, s[1..], k)
  }

  /** Inserts a value or replaces the one with the same key. */
  function Put<V>(key: V -> string, s: seq<V>, v: V): seq<V> {
    if s == [] then [v]
    else if key(s[0]) == key(v) then [v] + s[1..]
    else if Less(key(v), key(s[0])) then [v] + s
    else [s[0]] + Put(key, s[1..], v)
  }

  lemma {:induction false} FindInPrepended<V>(key: V -> string, v: V, s: seq<V>, k: string)
    ensures Find(key, [v] + s, k) == if key(v) == k then Some(v) else Find(key, s, k)
  {
    assert ([v] + s)[1..] == s;
  }

  lemma {:induction false} FindInConcat<V>(key: V -> string, a: seq<V>, b: seq<V>, k: string)
    ensures Find(key, a + b, k) == if Find(key, a, k).Some? then Find(key, a, k) else Find(key, b, k)
  {
    if a == [] {
      assert a + b == b;
    } else {
      assert (a + b)[1..] == a[1..] + b;
      FindInConcat(key, a[1..], b, k);
    }
  }

  /** No key below the first one occurs. */
  lemma {:induction false} BelowIsAbsent<V(!new)>(key: V -> string, s: seq<V>, k: string)
    requires Ascending(key, s) && (s == [] || Less(k, key(s[0])))
    ensures Find(key, s, k) == None
  {
    if s != [] {
      LessIsStrict(k);
      if |s| > 1 {
        LessIsTransitive(k, key(s[0]), key(s[1]));
      }
      BelowIsAbsent(key, s[1..], k);
    }
  }

  lemma {:induction false} PutIsPut<V(!new)>(key: V -> string, s: seq<V>, v: V, k: string)
    requires Ascending(key, s)
    ensures Find(key, Put(key, s, v), k) == if k == key(v) then Some(v) else Find(key, s, k)
  {
    if s == [] {
      assert Put(key, s, v)[1..] == [];
    } else if key(s[0]) == key(v) {
      FindInPrepended(key, v, s[1..], k);
    } else if Less(key(v), key(s[0])) {
      FindInPrepended(key, v, s, k);
    } else {
      PutIsPut(key, s[1..], v, k);
      FindInPrepended(key, s[0], Put(key, s[1..], v), k);
    }
  }

  lemma {:induction false} PutAscends<V(!new)>(key: V -> string, s: seq<V>, v: V)
    requires Ascending(key, s)
    ensures Ascending(key, Put(key, s, v))
    ensures Put(key, s, v) != []
    ensures key(Put(key, s, v)[0]) == key(v) || (s != [] && key(Put(key, s, v)[0]) == key(s[0]))
  {
    if s != [] {
      if key(s[0]) == key(v) {
      } else if Less(key(v), key(s[0])) {
        PrependAscends(key, v, s);
      } else {
        PutAscends(key, s[1..], v);
        LessIsTotal(key(v), key(s[0]));
        PrependAscends(key, s[0], Put(key, s[1..], v));
      }
    }
  }

  lemma PrependAscends<V(!new)>(key: V -> string, v: V, s: seq<V>)
    requires Ascending(key, s) && s != [] && Less(key(v), key(s[0]))
    ensures Ascending(key, [v] + s)
  {
    var whole := [v] + s;
    forall i, j | 0 <= i < j < |whole|
      ensures Less(key(whole[i]), key(whole[j]))
    {
      if i == 0 && j > 1 {
        LessIsTransitive(key(v), key(s[0]), key(s[j - 1]));
      }
    }
  }

  lemma AppendAscends<V(!new)>(key: V -> string, s: seq<V>, v: V)
    requires Ascending(key, s) && forall i :: 0 <= i < |s| ==> Less(key(s[i]), key(v))
    ensures Ascending(key, s + [v])
  {
  }

  /** A value in an ordered map is the one that its key finds. */
  lemma {:induction false} FindAt<V(!new)>(key: V -> string, s: seq<V>, i: nat)
    requires Ascending(key, s) && i < |s|
    ensures Find(key, s, key(s[i])) == Some(s[i])
  {
    if i > 0 {
      LessIsStrict(key(s[0]));
      FindAt(key, s[1..], i - 1);
    }
  }

  /** Two ordered maps with the same lookups are the same list. */
  lemma {:induction false} SameLookupsSameList<V(!new)>(key: V -> string, a: seq<V>, b: seq<V>)
    requires Ascending(key, a) && Ascending(key, b)
    requires forall k :: Find(key, a, k) == Find(key, b, k)
    ensures a == b
  {
    if a == [] {
      if b != [] {
        FindAt(key, b, 0);
      }
    } else if b == [] {
      FindAt(key, a, 0);
    } else {
      SameFirst(key, a, b);
      forall k
        ensures Find(key, a[1..], k) == Find(key, b[1..], k)
      {
        if k == key(a[0]) {
          FirstOnlyOnce(key, a);
          FirstOnlyOnce(key, b);
        } else {
          assert Find(key, a, k) == Find(key, b, k);
        }
      }
      SameLookupsSameList(key, a[1..], b[1..]);
      assert a == [a[0]] + a[1..] && b == [b[0]] + b[1..];
    }
  }

  lemma FirstOnlyOnce<V(!new)>(key: V -> string, s: seq<V>)
    requires Ascending(key, s) && s != []
    ensures Find(key, s[1..], key(s[0])) == None
  {
    BelowIsAbsent(key, s[1..], key(s[0]));
  }

  lemma SameFirst<V(!new)>(key: V -> string, a: seq<V>, b: seq<V>)
    requires Ascending(key, a) && Ascending(key, b) && a != [] && b != []
    requires forall k :: Find(key, a, k) == Find(key, b, k)
    ensures a[0] == b[0]
  {
    FindAt(key, a, 0);
    FindAt(key, b, 0);
    assert Find(key, b, key(a[0])) == Some(a[0]) && Find(key, a, key(b[0])) == Some(b[0]);
    LessIsTotal(key(a[0]), key(b[0]));
    if Less(key(a[0]), key(b[0])) {
      BelowIsAbsent(key, b, key(a[0]));
    } else if Less(key(b[0]), key(a[0])) {
      BelowIsAbsent(key, a, key(b[0]));
    }
  }

  // ----- Sorting

  /** Stable insertion behind everything that is not greater. */
  function Insert<V>(before: (V, V) -> bool, s: seq<V>, v: V): seq<V> {
    if s == [] then [v]
    else if before(v, s[0]) then [v] + s
    else [s[0]] + Insert(before, s[1..], v)
  }

  function Sorted<V>(before: (V, V) -> bool, s: seq<V>): seq<V> {
    if s == [] then [] else Insert(before, Sorted(before, s[..|s| - 1]), s[|s| - 1])
  }

  method SortBy<V>(before: (V, V) -> bool, s: seq<V>) returns (sorted: seq<V>)
    ensures sorted == Sorted(before, s)
  {
    sorted := [];
    for n := 0 to |s|
      invariant sorted == Sorted(before, s[..n])
    {
      assert s[..n + 1][..n] == s[..n];
      sorted := Insert(before, sorted, s[n]);
    }
    assert s[..|s|] == s;
  }

  /** With a key that is not there yet, sorting in is inserting into the map. */
  lemma {:induction false} InsertIsPut<V(!new)>(key: V -> string, before: (V, V) -> bool, s: seq<V>, v: V)
    requires forall a, b :: before(a, b) == Less(key(a), key(b))
    requires Find(key, s, key(v)) == None
    ensures Insert(before, s, v) == Put(key, s, v)
  {
    if s != [] {
      InsertIsPut(key, before, s[1..], v);
    }
  }

  /** No key occurs twice. */
  ghost predicate DistinctKeys<V>(key: V -> string, s: seq<V>) {
    forall i, j :: 0 <= i < j < |s| ==> key(s[i]) != key(s[j])
  }

  lemma {:induction false} AbsentKey<V>(key: V -> string, s: seq<V>, k: string)
    requires forall i :: 0 <= i < |s| ==> key(s[i]) != k
    ensures Find(key, s, k) == None
  {
    if s != [] {
      AbsentKey(key, s[1..], k);
    }
  }

  /** Sorting values with distinct keys makes an ordered map of the same values. */
  lemma {:induction false} SortedIsMap<V(!new)>(key: V -> string, before: (V, V) -> bool, s: seq<V>)
    requires forall a, b :: before(a, b) == Less(key(a), key(b))
    requires DistinctKeys(key, s)
    ensures Ascending(key, Sorted(before, s))
    ensures forall k :: Find(key, Sorted(before, s), k) == Find(key, s, k)
  {
    if s != [] {
      var init, last := s[..|s| - 1], s[|s| - 1];
      SortedIsMap(key, before, init);
      var sorted := Sorted(before, init);
      AbsentKey(key, init, key(last));
      assert Find(key, sorted, key(last)) == Find(key, init, key(last));
      InsertIsPut(key, before, sorted, last);
      PutAscends(key, sorted, last);
      assert s == init + [last];
      forall k
        ensures Find(key, Put(key, sorted, last), k) == Find(key, s, k)
      {
        assert Find(key, sorted, k) == Find(key, init, k);
        PutLikeAppend(key, sorted, init, last, k);
      }
    }
  }

  /** Putting a new key finds what appending it finds. */
  lemma PutLikeAppend<V(!new)>(key: V -> string, sorted: seq<V>, init: seq<V>, last: V, k: string)
    requires Ascending(key, sorted) && Find(key, init, key(last)).None?
    requires Find(key, sorted, k) == Find(key, init, k)
    ensures Find(key, Put(key, sorted, last), k) == Find(key, init + [last], k)
  {
    PutIsPut(key, sorted, last, k);
    FindInConcat(key, init, [last], k);
  }

  // ----- Collecting into a map

  /** From the back, so that the first value with a key stays. */
  function KeepFirst<V>(key: V -> string, s: seq<V>): seq<V> {
    if s == [] then [] else Put(key, KeepFirst(key, s[1..]), s[0])
  }

  lemma {:induction false} KeepFirstIsMap<V(!new)>(key: V -> string, s: seq<V>)
    ensures Ascending(key, KeepFirst(key, s))
    ensures forall k :: Find(key, KeepFirst(key, s), k) == Find(key, s, k)
  {
    if s != [] {
      KeepFirstIsMap(key, s[1..]);
      var rest := KeepFirst(key, s[1..]);
      PutAscends(key, rest, s[0]);
      forall k
        ensures Find(key, KeepFirst(key, s), k) == Find(key, s, k)
      {
        PutIsPut(key, rest, s[0], k);
        assert Find(key, rest, k) == Find(key, s[1..], k);
      }
    }
  }

  /** From the front, so that the last value with a key stays. */
  function KeepLast<V>(key: V -> string, s: seq<V>): seq<V> {
    if s == [] then [] else Put(key, KeepLast(key, s[..|s| - 1]), s[|s| - 1])
  }

  function FindLast<V>(key: V -> string, s: seq<V>, k: string): (found: Option<V>)
    ensures found.Some? ==> key(found.value) == k && found.value in s
  {
    if s == [] then None
    else if key(s[|s| - 1]) == k then Some(s[|s| - 1])
    else FindLast(key, s[..|s| - 1], k)
  }

  lemma {:induction false} KeepLastIsMap<V(!new)>(key: V -> string, s: seq<V>)
    ensures Ascending(key, KeepLast(key, s))
    ensures forall k :: Find(key, KeepLast(key, s), k) == FindLast(key, s, k)
  {
    if s != [] {
      var init := s[..|s| - 1];
      KeepLastIsMap(key, init);
      PutAscends(key, KeepLast(key, init), s[|s| - 1]);
      forall k
        ensures Find(key, KeepLast(key, s), k) == FindLast(key, s, k)
      {
        PutIsPut(key, KeepLast(key, init), s[|s| - 1], k);
        assert Find(key, KeepLast(key, init), k) == FindLast(key, init, k);
      }
    }
  }

  /** In an ordered map the last value with a key is the first. */
  lemma {:induction false} FindLastInMap<V(!new)>(key: V -> string, s: seq<V>, k: string)
    requires DistinctKeys(key, s)
    ensures FindLast(key, s, k) == Find(key, s, k)
  {
    if s != [] {
      var init, last := s[..|s| - 1], s[|s| - 1];
      FindLastInMap(key, init, k);
      assert s == init + [last];
      FindInConcat(key, init, [last], k);
      if key(last) == k {
        AbsentKey(key, init, k);
      }
    }
  }

  lemma AscendingIsDistinct<V(!new)>(key: V -> string, s: seq<V>)
    requires Ascending(key, s)
    ensures DistinctKeys(key, s)
  {
    forall i, j | 0 <= i < j < |s|
      ensures key(s[i]) != key(s[j])
    {
      LessIsStrict(key(s[i]));
      assert Less(key(s[i]), key(s[j]));
    }
  }
}
