/** One process's own view of the directory: the atomic write without interference, and the
    recovery sweep (spotter-svc/src/atomic_file.rs). */
module AtomicFolder {
  import opened Wrappers
  import opened Bytes
  import opened Decimal
  import opened TempNames
  import opened Whitespace
  import AtomicWriters

  datatype File = File(content: seq<byte>, regular: bool, age: nat)

  type Directory = map<Name, File>

  /** Where a write first fails, if anywhere. */
  datatype Point =
    | Never
    | Start
    | Creation
    | Securing
    | SidecarCreation
    | SidecarWriting
    | Filling(written: nat)
    | Replacing
    | Late

  /** The environment of one write: the nonces that it draws (none when drawing fails), where it fails, and
      which names resist removal. */
  datatype Faults = Faults(nonces: seq<Option<nat>>, failAt: Point, stuck: set<Name>) {
    predicate Valid() {
      |nonces| == TRIES && forall i :: 0 <= i < |nonces| && nonces[i].Some? ==> nonces[i].value <= U64_MAX
    }
  }

  const TRIES: nat := 16
  const EMPTY: File := File([], true, 0)

  function AsciiBytes(s: string): seq<byte> {
    seq(|s|, i requires 0 <= i < |s| => if s[i] as int < 0x100 then s[i] as int as byte else 0)
  }

  function OwnerFile(id: Identity): File {
    File(AsciiBytes(OwnerText(id)), true, 0)
  }

  datatype Attempt = Taken | GivenUp | Made

  predicate Extra(before: Directory, name: Name) {
    name !in before && (IsTemporary(name) || IsSidecar(name))
  }

  /** Everything is as before, except for additional temporary files and sidecars. */
  ghost predicate Littered(before: Directory, after: Directory, destination: Name) {
    && (forall name :: name in before ==> name in after && after[name] == before[name])
    && (forall name :: name in after && name !in before ==> Extra(before, name) && name != destination)
  }

  /** The destination holds the payload, and everything else is as before, except for additional
      temporary files and sidecars. */
  ghost predicate Replaced(before: Directory, after: Directory, destination: Name, payload: seq<byte>) {
    && destination in after && after[destination] == File(payload, true, 0)
    && (forall name :: name in before && name != destination ==> name in after && after[name] == before[name])
    && (forall name :: name in after && name !in before && name != destination ==> Extra(before, name))
  }

  predicate Free(d: Directory, destination: Name, id: Identity) {
    TemporaryName(destination, id) !in d && OwnerName(TemporaryName(destination, id)) !in d
  }

  function WithIdentity(d: Directory, destination: Name, id: Identity): Directory {
    d[TemporaryName(destination, id) := EMPTY][OwnerName(TemporaryName(destination, id)) := OwnerFile(id)]
  }

  lemma NamesApart(destination: Name, id: Identity)
    requires InRange(id)
    ensures var temporary := TemporaryName(destination, id); var sidecar := OwnerName(temporary);
            && IsTemporary(temporary) && IsSidecar(sidecar)
            && temporary != sidecar && temporary != destination && sidecar != destination
  {
    var temporary := TemporaryName(destination, id);
    TemporaryNameParses(destination, id);
    SidecarOfTemporary(temporary);
    assert |OwnerName(temporary)| > |temporary| > |destination|;
  }

  /** Without these two names the directory is `rest`. */
  predicate Besides(rest: Directory, d: Directory, temporary: Name, sidecar: Name) {
    d - {temporary} - {sidecar} == rest
  }

  lemma BesidesIsLitter(before: Directory, after: Directory, destination: Name, id: Identity)
    requires InRange(id) && Free(before, destination, id)
    requires Besides(before, after, TemporaryName(destination, id), OwnerName(TemporaryName(destination, id)))
    ensures Littered(before, after, destination)
  {
    NamesApart(destination, id);
    var temporary := TemporaryName(destination, id);
    var sidecar := OwnerName(temporary);
    forall name | name in before
      ensures name in after && after[name] == before[name]
    {
      assert name in after - {temporary} - {sidecar};
    }
    forall name | name in after && name !in before
      ensures Extra(before, name) && name != destination
    {
      assert name !in after - {temporary} - {sidecar};
    }
  }

  lemma OnlyTemporaryLeft(before: Directory, after: Directory, destination: Name, id: Identity)
    requires InRange(id) && TemporaryName(destination, id) !in before
    requires after - {TemporaryName(destination, id)} == before
    ensures Littered(before, after, destination)
  {
    NamesApart(destination, id);
    var temporary := TemporaryName(destination, id);
    forall name | name in before
      ensures name in after && after[name] == before[name]
    {
      assert name in after - {temporary};
    }
    forall name | name in after && name !in before
      ensures Extra(before, name) && name != destination
    {
      assert name !in after - {temporary};
    }
  }

  lemma FilledBesides(before: Directory, destination: Name, id: Identity, content: seq<byte>)
    requires InRange(id) && Free(before, destination, id)
    ensures var temporary := TemporaryName(destination, id);
            Besides(before, WithIdentity(before, destination, id)[temporary := File(content, true, 0)],
                    temporary, OwnerName(temporary))
  {
    NamesApart(destination, id);
  }

  lemma ReplacedBesides(before: Directory, destination: Name, payload: seq<byte>, id: Identity)
    requires InRange(id) && Free(before, destination, id)
    ensures var temporary := TemporaryName(destination, id);
            var file := File(payload, true, 0);
            var filled := WithIdentity(before, destination, id)[temporary := file];
            var after, whole := (filled - {temporary})[destination := file], before[destination := file];
            Besides(whole, after, temporary, OwnerName(temporary)) && after - {OwnerName(temporary)} == whole
  {
    NamesApart(destination, id);
  }

  lemma BesidesIsReplaced(before: Directory, after: Directory, destination: Name, payload: seq<byte>, id: Identity)
    requires InRange(id) && Free(before, destination, id)
    requires Besides(before[destination := File(payload, true, 0)], after,
                     TemporaryName(destination, id), OwnerName(TemporaryName(destination, id)))
    ensures Replaced(before, after, destination, payload)
  {
    NamesApart(destination, id);
    var whole := before[destination := File(payload, true, 0)];
    BesidesIsLitter(whole, after, destination, id);
    forall name | name in before && name != destination
      ensures name in after && after[name] == before[name]
    {
      assert name in whole;
    }
  }

  lemma LitterThenReplaced(before: Directory, middle: Directory, after: Directory,
                           destination: Name, payload: seq<byte>)
    requires Littered(before, middle, destination) && Replaced(middle, after, destination, payload)
    ensures Replaced(before, after, destination, payload)
  {
  }

  lemma LitterThenLittered(before: Directory, middle: Directory, after: Directory, destination: Name)
    requires Littered(before, middle, destination) && Littered(middle, after, destination)
    ensures Littered(before, after, destination)
  {
  }

  lemma LitterAddsUp(before: Directory, middle: Directory, after: Directory, destination: Name, payload: seq<byte>)
    requires Littered(before, middle, destination)
    ensures Replaced(middle, after, destination, payload) ==> Replaced(before, after, destination, payload)
    ensures Littered(middle, after, destination) ==> Littered(before, after, destination)
  {
    if Replaced(middle, after, destination, payload) {
      LitterThenReplaced(before, middle, after, destination, payload);
    }
    if Littered(middle, after, destination) {
      LitterThenLittered(before, middle, after, destination);
    }
  }

  /** What a sweep knows: its own process, the least age, which processes are dead, how text is
      read, and which names resist removal. */
  datatype Sweeper = Sweeper(
    pid: nat,
    minimumAge: nat,
    dead: set<nat>,
    decode: seq<byte> -> Option<string>,
    stuck: set<Name>)

  function OwnerText(id: Identity): string {
    Print(id.pid) + [':'] + Print(id.nonce)
  }

  predicate Matches(who: Sweeper, content: seq<byte>, id: Identity) {
    var text := who.decode(content);
    text.Some? && Trim(text.value) == OwnerText(id)
  }

  predicate OwnerGone(who: Sweeper, id: Identity) {
    id.pid != who.pid && id.pid in who.dead
  }

  /** A sidecar whose temporary file is absent, with a dead foreign owner, old enough, and consistent. */
  predicate StaleSidecar(who: Sweeper, d: Directory, name: Name) {
    && name in d && d[name].regular
    && OrphanTemporary(name).Some? && OrphanTemporary(name).value !in d
    && var id := TemporaryIdentity(OrphanTemporary(name).value).value;
       OwnerGone(who, id) && d[name].age >= who.minimumAge && Matches(who, d[name].content, id)
  }

  /** A temporary file with a dead foreign owner, old enough, and with a sidecar that matches its name. */
  predicate StaleTemporary(who: Sweeper, d: Directory, name: Name) {
    && name in d && d[name].regular
    && TemporaryIdentity(name).Some?
    && var id := TemporaryIdentity(name).value;
       OwnerGone(who, id) && d[name].age >= who.minimumAge
       && OwnerName(name) in d && Matches(who, d[OwnerName(name)].content, id)
  }

  function StaleSidecars(who: Sweeper, d: Directory): set<Name> {
    set name | name in d && StaleSidecar(who, d, name)
  }

  function StaleTemporaries(who: Sweeper, d: Directory): set<Name> {
    set name | name in d && StaleTemporary(who, d, name)
  }

  function SidecarsOf(temporaries: set<Name>): set<Name> {
    set name | name in temporaries :: OwnerName(name)
  }

  /** Everything that a sweep may remove. */
  function Stale(who: Sweeper, d: Directory): set<Name> {
    StaleSidecars(who, d) + StaleTemporaries(who, d) + SidecarsOf(StaleTemporaries(who, d))
  }

  /** The names of a directory, each once, in any order. */
  ghost predicate Lists(entries: seq<Name>, d: Directory) {
    && (forall i :: 0 <= i < |entries| ==> entries[i] in d)
    && (forall name :: name in d ==> name in entries)
    && (forall i, j :: 0 <= i < j < |entries| ==> entries[i] != entries[j])
  }

  /** Of the first `n` entries exactly the stale ones are gone, and nothing else. */
  ghost predicate GoneSoFar(entries: seq<Name>, n: nat, stale: set<Name>, gone: set<Name>) {
    && gone <= stale
    && forall i :: 0 <= i < |entries| ==> (entries[i] in gone <==> i < n && entries[i] in stale)
  }

  lemma GoneNext(entries: seq<Name>, n: nat, stale: set<Name>, gone: set<Name>)
    requires n < |entries| && GoneSoFar(entries, n, stale, gone)
    requires forall i, j :: 0 <= i < j < |entries| ==> entries[i] != entries[j]
    ensures entries[n] !in gone
    ensures GoneSoFar(entries, n + 1, stale, if entries[n] in stale then gone + {entries[n]} else gone)
  {
  }

  lemma AllGone(entries: seq<Name>, d: Directory, stale: set<Name>, gone: set<Name>)
    requires Lists(entries, d) && stale <= d.Keys && GoneSoFar(entries, |entries|, stale, gone)
    ensures gone == stale
  {
    forall name | name in stale
      ensures name in gone
    {
      var i: nat :| i < |entries| && entries[i] == name;
    }
  }

  lemma OneLess(d: Directory, gone: set<Name>, name: Name)
    ensures d - gone - {name} == d - (gone + {name})
  {
  }

  /** What is left in the middle of the second pass. */
  function Left(before: Directory, first: set<Name>, gone: set<Name>): Directory {
    before - (first + gone + SidecarsOf(gone))
  }

  lemma LeftNext(before: Directory, first: set<Name>, gone: set<Name>, name: Name)
    ensures Left(before, first, gone) - {name} == before - (first + gone + SidecarsOf(gone) + {name})
    ensures Left(before, first, gone) - {name} - {OwnerName(name)} == Left(before, first, gone + {name})
  {
    assert SidecarsOf(gone + {name}) == SidecarsOf(gone) + {OwnerName(name)};
    assert first + (gone + {name}) + SidecarsOf(gone + {name}) ==
           first + gone + SidecarsOf(gone) + {name} + {OwnerName(name)};
  }

  // ----- What a sweep never touches in between

  lemma TemporaryStays(who: Sweeper, before: Directory, gone: set<Name>, temporary: Name)
    requires gone <= StaleSidecars(who, before) && IsTemporary(temporary)
    ensures temporary in before - gone <==> temporary in before
  {
    NeverBoth(temporary);
  }

  lemma TemporariesStay(who: Sweeper, before: Directory, gone: set<Name>)
    requires gone <= StaleSidecars(who, before)
    ensures forall temporary :: IsTemporary(temporary) ==> (temporary in before - gone <==> temporary in before)
  {
    forall temporary | IsTemporary(temporary)
      ensures temporary in before - gone <==> temporary in before
    {
      TemporaryStays(who, before, gone, temporary);
    }
  }

  lemma StrippedBack(name: Name, temporary: Name)
    requires StripOwner(name) == Some(temporary)
    ensures name == OwnerName(temporary)
  {
    assert name == name[..|name| - |OWNER|] + name[|name| - |OWNER|..];
  }

  /** The sidecar of a temporary file that is still there is still there. */
  lemma SidecarStays(who: Sweeper, before: Directory, gone: set<Name>, name: Name)
    requires gone <= StaleTemporaries(who, before) && name in before && name !in gone && IsTemporary(name)
    ensures var left := Left(before, StaleSidecars(who, before), gone);
            name in left && (OwnerName(name) in left <==> OwnerName(name) in before)
  {
    NeverBoth(name);
    SidecarOfTemporary(name);
    NeverBoth(OwnerName(name));
    forall temporary | temporary in gone
      ensures OwnerName(temporary) != OwnerName(name) && OwnerName(temporary) != name
    {
      OwnerStrips(temporary);
      OwnerStrips(name);
      SidecarOfTemporary(temporary);
    }
  }

  // ----- The sweep

  class Folder {
    var files: Directory

    constructor (files: Directory)
      ensures this.files == files
    {
      this.files := files;
    }

    /** Removal whose failure is ignored. */
    method RemoveIgnoring(name: Name, stuck: set<Name>)
      modifies this
      ensures files == if name in stuck then old(files) else old(files) - {name}
    {
      if name !in stuck {
        files := files - {name};
      }
    }

    /** The cleanup after an error: both files go, as far as they can be removed. */
    method CleanUp(temporary: Name, sidecar: Name, stuck: set<Name>, ghost rest: Directory)
      requires Besides(rest, files, temporary, sidecar)
      modifies this
      ensures Besides(rest, files, temporary, sidecar) && (stuck == {} ==> files == rest)
    {
      RemoveIgnoring(temporary, stuck);
      RemoveIgnoring(sidecar, stuck);
    }

    /** One attempt to create a temporary file and its sidecar. */
    method TryIdentity(destination: Name, id: Identity, faults: Faults) returns (attempt: Attempt)
      requires InRange(id)
      modifies this
      ensures Littered(old(files), files, destination)
      ensures attempt != Made && faults.stuck == {} ==> files == old(files)
      ensures attempt == Made ==> files == WithIdentity(old(files), destination, id)
      ensures attempt == Made ==> Free(old(files), destination, id)
    {
      var temporary := TemporaryName(destination, id);
      var sidecar := OwnerName(temporary);
      if temporary in files {
        return Taken;
      }
      if faults.failAt == Creation {
        return GivenUp;
      }
      ghost var before := files;
      files := files[temporary := EMPTY];
      if faults.failAt == Securing || sidecar in files {
        attempt := if faults.failAt == Securing then GivenUp else Taken;
        RemoveIgnoring(temporary, faults.stuck);
        OnlyTemporaryLeft(before, files, destination, id);
        return;
      }
      assert Besides(before, files, temporary, sidecar);
      if faults.failAt == SidecarCreation || faults.failAt == SidecarWriting {
        if faults.failAt == SidecarWriting {
          files := files[sidecar := EMPTY];
        }
        CleanUp(temporary, sidecar, faults.stuck, before);
        BesidesIsLitter(before, files, destination, id);
        return GivenUp;
      }
      files := files[sidecar := OwnerFile(id)];
      BesidesIsLitter(before, files, destination, id);
      attempt := Made;
    }

    /** Up to sixteen nonces, until a temporary file and its sidecar can both be created. */
    method CreateTemporaryIdentity(destination: Name, pid: nat, faults: Faults)
      returns (id: Option<Identity>, ghost before: Directory)
      requires faults.Valid() && pid <= U32_MAX
      modifies this
      ensures Littered(old(files), before, destination) && (faults.stuck == {} ==> before == old(files))
      ensures id.None? ==> files == before
      ensures id.Some? ==> InRange(id.value) && id.value.pid == pid && Free(before, destination, id.value)
      ensures id.Some? ==> files == WithIdentity(before, destination, id.value)
    {
      before := files;
      for attempt := 0 to TRIES
        invariant Littered(old(files), files, destination) && (faults.stuck == {} ==> files == old(files))
        invariant before == files
      {
        var nonce := faults.nonces[attempt];
        if nonce.None? {
          return None, before;
        }
        var identity := Identity(pid, nonce.value);
        var made := TryIdentity(destination, identity, faults);
        if made == Made {
          return Some(identity), before;
        }
        before := files;
        if made == GivenUp {
          return None, before;
        }
      }
      id := None;
    }

    /** From the created temporary file to the replaced destination, with the cleanup on failure. */
    method FillAndReplace(destination: Name, payload: seq<byte>, id: Identity, faults: Faults, ghost before: Directory)
      returns (ok: bool)
      requires InRange(id) && Free(before, destination, id) && files == WithIdentity(before, destination, id)
      modifies this
      ensures ok ==> files == before[destination := File(payload, true, 0)]
      ensures !ok ==> Replaced(before, files, destination, payload) || Littered(before, files, destination)
      ensures !ok && faults.stuck == {} ==> files == before || files == before[destination := File(payload, true, 0)]
    {
      var temporary := TemporaryName(destination, id);
      var sidecar := OwnerName(temporary);
      if faults.failAt.Filling? || faults.failAt == Replacing {
        var written := if faults.failAt.Filling? && faults.failAt.written <= |payload|
                       then payload[..faults.failAt.written] else payload;
        files := files[temporary := File(written, true, 0)];
        FilledBesides(before, destination, id, written);
        CleanUp(temporary, sidecar, faults.stuck, before);
        BesidesIsLitter(before, files, destination, id);
        return false;
      }
      files := files[temporary := File(payload, true, 0)];
      files := (files - {temporary})[destination := files[temporary]];
      ghost var whole := before[destination := File(payload, true, 0)];
      ReplacedBesides(before, destination, payload, id);
      if faults.failAt == Late {
        CleanUp(temporary, sidecar, faults.stuck, whole);
        BesidesIsReplaced(before, files, destination, payload, id);
        return false;
      }
      BesidesIsReplaced(before, files, destination, payload, id);
      if sidecar in faults.stuck {
        return false;
      }
      files := files - {sidecar};
      ok := true;
    }

    /** One write with no other writer about. Nothing but the destination changes; it keeps its file or
        gets the whole payload; and when removals succeed nothing is left behind. */
    method Write(destination: Name, payload: seq<byte>, pid: nat, faults: Faults) returns (ok: bool)
      requires faults.Valid() && pid <= U32_MAX
      modifies this
      ensures Replaced(old(files), files, destination, payload) || (!ok && Littered(old(files), files, destination))
      ensures faults.stuck == {} ==>
                files == old(files)[destination := File(payload, true, 0)] || (!ok && files == old(files))
    {
      if faults.failAt == Start {
        return false;
      }
      var id;
      ghost var before;
      id, before := CreateTemporaryIdentity(destination, pid, faults);
      if id.None? {
        return false;
      }
      ok := FillAndReplace(destination, payload, id.value, faults, before);
      LitterAddsUp(old(files), before, files, destination, payload);
    }

    /** The checks of the first pass on one entry of the listing. */
    method OrphanIsStale(who: Sweeper, before: Directory, name: Name) returns (stale: bool)
      requires name in before && name in files && files[name] == before[name]
      requires forall temporary :: IsTemporary(temporary) ==> (temporary in files <==> temporary in before)
      ensures stale == StaleSidecar(who, before, name)
    {
      var file := before[name];
      if !file.regular {
        return false;
      }
      var temporary := OrphanTemporary(name);
      if temporary.None? {
        return false;
      }
      if temporary.value in files {
        return false;
      }
      var id := TemporaryIdentity(temporary.value).value;
      if id.pid == who.pid || id.pid !in who.dead {
        return false;
      }
      if file.age < who.minimumAge {
        return false;
      }
      var text := who.decode(files[name].content);
      stale := text.Some? && Trim(text.value) == OwnerText(id);
    }

    /** First pass: sidecars without a temporary file. */
    method SweepSidecars(who: Sweeper, entries: seq<Name>) returns (removed: nat, failed: bool)
      requires Lists(entries, files)
      modifies this
      ensures failed ==> exists gone :: gone <= StaleSidecars(who, old(files)) && files == old(files) - gone
      ensures !failed ==> files == old(files) - StaleSidecars(who, old(files))
      ensures !failed ==> removed == |StaleSidecars(who, old(files))|
    {
      removed, failed := 0, false;
      ghost var stale := StaleSidecars(who, files);
      var listing := files;
      ghost var gone: set<Name> := {};
      for n := 0 to |entries|
        invariant GoneSoFar(entries, n, stale, gone)
        invariant files == listing - gone && removed == |gone| && !failed
      {
        GoneNext(entries, n, stale, gone);
        TemporariesStay(who, listing, gone);
        var isStale := OrphanIsStale(who, listing, entries[n]);
        if isStale {
          if entries[n] in who.stuck {
            failed := true;
            return;
          }
          OneLess(listing, gone, entries[n]);
          files := files - {entries[n]};
          gone := gone + {entries[n]};
          removed := removed + 1;
        }
      }
      AllGone(entries, listing, stale, gone);
    }

    /** The checks of the second pass on one entry of the listing. */
    method TemporaryIsStale(who: Sweeper, before: Directory, name: Name) returns (stale: bool)
      requires name in before
      requires IsTemporary(name) ==>
                 (OwnerName(name) in files <==> OwnerName(name) in before)
                 && (OwnerName(name) in files ==> files[OwnerName(name)] == before[OwnerName(name)])
      ensures stale == StaleTemporary(who, before, name)
    {
      var id := TemporaryIdentity(name);
      if id.None? {
        return false;
      }
      if !before[name].regular {
        return false;
      }
      if id.value.pid == who.pid || id.value.pid !in who.dead {
        return false;
      }
      if before[name].age < who.minimumAge {
        return false;
      }
      if OwnerName(name) !in files {
        return false;
      }
      var text := who.decode(files[OwnerName(name)].content);
      stale := text.Some? && Trim(text.value) == OwnerText(id.value);
    }

    /** Second pass: temporary files together with their sidecars. */
    method SweepTemporaries(who: Sweeper, entries: seq<Name>, before: Directory) returns (removed: nat, failed: bool)
      requires Lists(entries, before) && files == before - StaleSidecars(who, before)
      modifies this
      ensures failed ==> exists gone :: gone <= Stale(who, before) && files == before - gone
      ensures !failed ==> files == before - Stale(who, before) && removed == |StaleTemporaries(who, before)|
    {
      removed, failed := 0, false;
      ghost var first, stale := StaleSidecars(who, before), StaleTemporaries(who, before);
      ghost var gone: set<Name> := {};
      assert first + gone + SidecarsOf(gone) == first;
      for n := 0 to |entries|
        invariant GoneSoFar(entries, n, stale, gone)
        invariant files == Left(before, first, gone) && removed == |gone| && !failed
      {
        GoneNext(entries, n, stale, gone);
        var name := entries[n];
        if IsTemporary(name) {
          SidecarStays(who, before, gone, name);
        }
        var isStale := TemporaryIsStale(who, before, name);
        if isStale {
          PartlySwept(who, before, gone, name);
          LeftNext(before, first, gone, name);
          if name in who.stuck {
            failed := true;
            return;
          }
          files := files - {name};
          if OwnerName(name) in who.stuck {
            failed := true;
            return;
          }
          files := files - {OwnerName(name)};
          gone := gone + {name};
          removed := removed + 1;
        }
      }
      AllGone(entries, before, stale, gone);
    }

    /** The whole sweep over a listing of the directory: exactly the stale names go. If a removal
        fails the sweep stops, and still nothing but stale names is gone. */
    method RecoverStaleTemporaryFiles(who: Sweeper, entries: seq<Name>) returns (result: Result<nat, ()>)
      requires Lists(entries, files)
      modifies this
      ensures result.Success? ==>
                && files == old(files) - Stale(who, old(files))
                && result.value == |StaleSidecars(who, old(files))| + |StaleTemporaries(who, old(files))|
      ensures result.Failure? ==> exists gone :: gone <= Stale(who, old(files)) && files == old(files) - gone
    {
      var before := files;
      var orphans, failed := SweepSidecars(who, entries);
      if failed {
        return Failure(());
      }
      var temporaries;
      temporaries, failed := SweepTemporaries(who, entries, before);
      if failed {
        return Failure(());
      }
      result := Success(orphans + temporaries);
    }
  }

  /** What is gone in the middle of the second pass is stale. */
  lemma PartlySwept(who: Sweeper, before: Directory, gone: set<Name>, name: Name)
    requires gone <= StaleTemporaries(who, before) && name in StaleTemporaries(who, before)
    ensures StaleSidecars(who, before) + gone + SidecarsOf(gone) <= Stale(who, before)
    ensures StaleSidecars(who, before) + gone + SidecarsOf(gone) + {name} <= Stale(who, before)
  {
  }

  // ----- What a sweep achieves

  /** The name belongs to a temporary file of a dead foreign process, with sufficient age and with a
      sidecar that matches the name. */
  predicate Abandoned(who: Sweeper, d: Directory, name: Name) {
    var temporary := if IsSidecar(name) then OrphanTemporary(name).value else name;
    && name in d && IsTemporary(temporary)
    && OwnerGone(who, TemporaryIdentity(temporary).value)
    && d[if temporary in d then temporary else name].age >= who.minimumAge
    && OwnerName(temporary) in d
    && Matches(who, d[OwnerName(temporary)].content, TemporaryIdentity(temporary).value)
  }

  /** Only files of dead foreign processes go, and only with a sidecar that names them. */
  lemma StaleIsAbandoned(who: Sweeper, d: Directory)
    ensures forall name :: name in Stale(who, d) ==> Abandoned(who, d, name)
  {
    forall name | name in Stale(who, d)
      ensures Abandoned(who, d, name)
    {
      if name in StaleSidecars(who, d) {
        StrippedBack(name, OrphanTemporary(name).value);
      } else if name in StaleTemporaries(who, d) {
        NeverBoth(name);
      } else {
        var temporary :| temporary in StaleTemporaries(who, d) && name == OwnerName(temporary);
        SidecarOfTemporary(temporary);
      }
    }
  }

  /** Whatever a sweep removes is a name that the step relation of many writers lets a sweep take. */
  lemma SweepIsAStep(who: Sweeper, d: Directory, s: AtomicWriters.State)
    requires who.dead <= s.dead
    ensures forall name :: name in Stale(who, d) ==> AtomicWriters.OwnerDead(s, name)
  {
    StaleIsAbandoned(who, d);
    forall name | Abandoned(who, d, name)
      ensures AtomicWriters.OwnerDead(s, name)
    {
    }
  }

  /** A sidecar goes together with its temporary file. */
  lemma SidecarGoesToo(who: Sweeper, d: Directory, name: Name)
    requires IsSidecar(name)
    ensures OrphanTemporary(name).value in Stale(who, d) ==> name in Stale(who, d)
  {
    var temporary := OrphanTemporary(name).value;
    StrippedBack(name, temporary);
    StaleTemporaryIsTemporary(who, d, temporary);
    if temporary in Stale(who, d) {
      assert OwnerName(temporary) in SidecarsOf(StaleTemporaries(who, d));
    }
  }

  lemma StaleTemporaryIsTemporary(who: Sweeper, d: Directory, temporary: Name)
    requires IsTemporary(temporary)
    ensures temporary in Stale(who, d) ==> temporary in StaleTemporaries(who, d)
  {
    NeverBoth(temporary);
    forall other | other in StaleTemporaries(who, d)
      ensures OwnerName(other) != temporary
    {
      SidecarOfTemporary(other);
    }
  }

  /** A second sweep right after a successful one finds nothing. */
  lemma SweptIsClean(who: Sweeper, d: Directory)
    ensures Stale(who, d - Stale(who, d)) == {}
  {
    var left := d - Stale(who, d);
    forall name | name in left
      ensures !StaleTemporary(who, left, name) && !StaleSidecar(who, left, name)
    {
      assert name !in StaleTemporaries(who, d) && name !in StaleSidecars(who, d);
      if IsSidecar(name) {
        SidecarGoesToo(who, d, name);
      }
    }
  }
}
