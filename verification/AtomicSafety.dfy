/** What every interleaving of atomic writers keeps: destinations hold complete payloads, and a
    temporary file and its sidecar belong to one active writer. */
module AtomicSafety {
  import opened Wrappers
  import opened Bytes
  import opened Decimal
  import opened TempNames
  import opened AtomicWriters

  // ----- The invariant

  ghost predicate FilesKnown(s: State) {
    && (forall n :: n in s.names ==> s.names[n] in s.files)
    && (forall i :: i in s.files ==> i < s.next)
  }

  ghost predicate OnlyName(s: State, file: Inode, name: Name) {
    forall n :: n in s.names && s.names[n] == file ==> n == name
  }

  /** What the writer's own temporary file holds at each stage. */
  predicate FilledSoFar(writer: Writer, content: seq<byte>) {
    match writer.stage
    case Writing(_, file, _, handle, written) =>
      handle == file && written <= |writer.payload| && content == writer.payload[..written]
    case Flushed(_, _, _) => content == writer.payload
    case Failing(_, _, _) => true
    case _ => content == []
  }

  /** The temporary name still leads to the file that the writer made, no other name does,
      and only this writer has filled it. */
  ghost predicate HoldsTemporary(s: State, writer: Writer) {
    OwnFile(writer.stage).Some? ==>
      var file, name := OwnFile(writer.stage).value, NameOf(writer).value;
      && name in s.names && s.names[name] == file && file in s.files
      && OnlyName(s, file, name)
      && FilledSoFar(writer, s.files[file])
  }

  /** A sidecar that is about to be written has no name but its own. */
  ghost predicate HoldsMark(s: State, writer: Writer) {
    writer.stage.Marking? ==>
      writer.stage.side in s.files && OnlyName(s, writer.stage.side, OwnerName(NameOf(writer).value))
  }

  predicate Named(writer: Writer) {
    && writer.pid <= U32_MAX && Ordinary(writer.destination)
    && (NonceOf(writer.stage).Some? ==> NonceOf(writer.stage).value <= U64_MAX)
  }

  ghost predicate WriterOk(s: State, w: WriterId) {
    Active(s, w) ==> Named(s.writers[w]) && HoldsTemporary(s, s.writers[w]) && HoldsMark(s, s.writers[w])
  }

  /** No two active writers own temporary files of the same name. */
  ghost predicate Apart(s: State, v: WriterId, w: WriterId) {
    (v != w && Active(s, v) && Active(s, w) && OwnFile(s.writers[v].stage).Some? && OwnFile(s.writers[w].stage).Some?)
    ==> NameOf(s.writers[v]) != NameOf(s.writers[w])
  }

  /** The name holds what it held at the start, or the complete payload of one writer to it. */
  ghost predicate Complete(start: State, s: State, name: Name)
    requires name in s.names
  {
    && s.names[name] in s.files
    && (|| (name in start.names && start.names[name] in start.files
            && s.files[s.names[name]] == start.files[start.names[name]])
        || exists w :: w in s.writers && WroteAll(s.writers[w], name, s.files[s.names[name]]))
  }

  predicate WroteAll(writer: Writer, name: Name, content: seq<byte>) {
    writer.destination == name && writer.payload == content
  }

  ghost predicate DestinationOk(start: State, s: State, name: Name) {
    && (name in start.names ==> name in s.names)
    && (name in s.names ==> Complete(start, s, name))
  }

  ghost predicate Safe(start: State, s: State) {
    && FilesKnown(s)
    && (forall w :: WriterOk(s, w))
    && (forall v, w :: Apart(s, v, w))
    && (forall name :: Ordinary(name) ==> DestinationOk(start, s, name))
  }

  // ----- Names

  lemma TemporaryOf(writer: Writer)
    requires Named(writer) && NameOf(writer).Some?
    ensures IsTemporary(NameOf(writer).value) && !IsSidecar(NameOf(writer).value)
    ensures TemporaryIdentity(NameOf(writer).value) == Some(Identity(writer.pid, NonceOf(writer.stage).value))
    ensures IsSidecar(OwnerName(NameOf(writer).value)) && !IsTemporary(OwnerName(NameOf(writer).value))
    ensures OrphanTemporary(OwnerName(NameOf(writer).value)) == NameOf(writer)
  {
    var id, name := Identity(writer.pid, NonceOf(writer.stage).value), NameOf(writer).value;
    TemporaryNameParses(writer.destination, id);
    SidecarOfTemporary(name);
    NeverBoth(name);
    NeverBoth(OwnerName(name));
  }

  // ----- Elementary changes

  /** The writer's own files are as the stage says that it moves to. */
  ghost predicate MayMove(s: State, w: WriterId, stage: Stage)
    requires w in s.writers
  {
    var moved := s.writers[w].(stage := stage);
    && Named(moved) && HoldsTemporary(s, moved) && HoldsMark(s, moved)
    && (OwnFile(stage).Some? ==> OwnFile(s.writers[w].stage).Some? && NameOf(moved) == NameOf(s.writers[w]))
  }

  /** A stage change after which the writer's own files are as its new stage says. */
  lemma MovedKeeps(start: State, s: State, w: WriterId, stage: Stage)
    requires Safe(start, s) && Active(s, w) && MayMove(s, w, stage)
    ensures Safe(start, Moved(s, w, stage))
  {
    var t := Moved(s, w, stage);
    forall v
      ensures WriterOk(t, v)
    {
      assert WriterOk(s, v);
    }
    forall v, u
      ensures Apart(t, v, u)
    {
      assert Apart(s, v, u);
    }
    forall name | Ordinary(name)
      ensures DestinationOk(start, t, name)
    {
      assert DestinationOk(start, s, name);
      WritersStay(start, s, t, name);
    }
  }

  /** Payloads and destinations of writers never change, so what was complete stays complete. */
  lemma WritersStay(start: State, s: State, t: State, name: Name)
    requires DestinationOk(start, s, name)
    requires name in s.names ==> name in t.names && t.names[name] == s.names[name]
    requires name !in s.names ==> name !in t.names
    requires name in s.names ==> s.names[name] in t.files && t.files[s.names[name]] == s.files[s.names[name]]
    requires forall w :: w in s.writers ==> w in t.writers && t.writers[w].destination == s.writers[w].destination
                                            && t.writers[w].payload == s.writers[w].payload
    ensures DestinationOk(start, t, name)
  {
    if name in s.names {
      var content := s.files[s.names[name]];
      if exists w :: w in s.writers && WroteAll(s.writers[w], name, content) {
        var w :| w in s.writers && WroteAll(s.writers[w], name, content);
        assert WroteAll(t.writers[w], name, content);
      }
    }
  }

  lemma MadeKeeps(start: State, s: State, name: Name)
    requires Safe(start, s) && name !in s.names && !Ordinary(name)
    ensures Safe(start, Made(s, name))
  {
    var t := Made(s, name);
    forall v
      ensures WriterOk(t, v)
    {
      assert WriterOk(s, v);
    }
    forall v, u
      ensures Apart(t, v, u)
    {
      assert Apart(s, v, u);
    }
    forall n | Ordinary(n)
      ensures DestinationOk(start, t, n)
    {
      assert DestinationOk(start, s, n);
      WritersStay(start, s, t, n);
    }
  }

  lemma RemovedKeeps(start: State, s: State, name: Name)
    requires Safe(start, s) && !Ordinary(name)
    requires forall v :: !OwnsTemporary(s, v, Some(name))
    ensures Safe(start, Removed(s, name))
  {
    var t := Removed(s, name);
    forall v
      ensures WriterOk(t, v)
    {
      assert WriterOk(s, v) && !OwnsTemporary(s, v, Some(name));
    }
    forall v, u
      ensures Apart(t, v, u)
    {
      assert Apart(s, v, u);
    }
    forall n | Ordinary(n)
      ensures DestinationOk(start, t, n)
    {
      assert DestinationOk(start, s, n);
      WritersStay(start, s, t, n);
    }
  }

  /** Only this writer owns the file, and no ordinary name leads to it. */
  ghost predicate Private(s: State, w: WriterId, file: Inode) {
    && file in s.files
    && (forall v :: v != w && Active(s, v) ==> OwnFile(s.writers[v].stage) != Some(file))
    && (forall n :: n in s.names && Ordinary(n) ==> s.names[n] != file)
  }

  lemma FilledKeeps(start: State, s: State, w: WriterId, file: Inode, content: seq<byte>, stage: Stage)
    requires Safe(start, s) && Active(s, w) && Private(s, w, file)
    requires var moved := s.writers[w].(stage := stage);
             && Named(moved) && HoldsTemporary(Filled(s, file, content), moved) && !stage.Marking?
             && OwnFile(s.writers[w].stage).Some? && NameOf(moved) == NameOf(s.writers[w])
    ensures Safe(start, Moved(Filled(s, file, content), w, stage))
  {
    var t := Moved(Filled(s, file, content), w, stage);
    forall v
      ensures WriterOk(t, v)
    {
      assert WriterOk(s, v);
    }
    forall v, u
      ensures Apart(t, v, u)
    {
      assert Apart(s, v, u);
    }
    forall n | Ordinary(n)
      ensures DestinationOk(start, t, n)
    {
      assert DestinationOk(start, s, n);
      WritersStay(start, s, t, n);
    }
  }

  /** A temporary file that a writer owns is private to it. */
  lemma OwnFileIsPrivate(start: State, s: State, w: WriterId)
    requires Safe(start, s) && Active(s, w) && OwnFile(s.writers[w].stage).Some?
    ensures Private(s, w, OwnFile(s.writers[w].stage).value)
  {
    var file := OwnFile(s.writers[w].stage).value;
    assert WriterOk(s, w);
    TemporaryOf(s.writers[w]);
    forall v | v != w && Active(s, v)
      ensures OwnFile(s.writers[v].stage) != Some(file)
    {
      assert WriterOk(s, v) && Apart(s, v, w);
    }
  }

  lemma MarkIsPrivate(start: State, s: State, w: WriterId)
    requires Safe(start, s) && Active(s, w) && s.writers[w].stage.Marking?
    ensures Private(s, w, s.writers[w].stage.side) && s.writers[w].stage.side != s.writers[w].stage.file
  {
    var side := s.writers[w].stage.side;
    assert WriterOk(s, w);
    TemporaryOf(s.writers[w]);
    forall v | Active(s, v) && OwnFile(s.writers[v].stage).Some?
      ensures OwnFile(s.writers[v].stage) != Some(side)
    {
      assert WriterOk(s, v);
      TemporaryOf(s.writers[v]);
    }
  }

  function AfterReplace(s: State, w: WriterId): State
    requires w in s.writers && s.writers[w].stage.Flushed? && NameOf(s.writers[w]).value in s.names
  {
    var me := s.writers[w];
    Moved(Renamed(s, NameOf(me).value, me.destination), w, Replaced(me.stage.nonce, me.stage.side))
  }

  /** The rename takes away the writer's own name and gives its file an ordinary one; another writer's
      files have neither of these names. */
  lemma ReplaceKeepsOther(s: State, w: WriterId, v: WriterId)
    requires Active(s, w) && s.writers[w].stage.Flushed? && WriterOk(s, w)
    requires Active(s, v) && v != w && WriterOk(s, v) && Apart(s, v, w)
    ensures WriterOk(AfterReplace(s, w), v)
  {
    TemporaryOf(s.writers[w]);
    if NameOf(s.writers[v]).Some? {
      TemporaryOf(s.writers[v]);
      ReplaceKeepsTemporary(s, w, v);
      ReplaceKeepsMark(s, w, v);
    }
  }

  lemma ReplaceKeepsTemporary(s: State, w: WriterId, v: WriterId)
    requires Active(s, w) && s.writers[w].stage.Flushed? && HoldsTemporary(s, s.writers[w])
    requires Active(s, v) && v != w && HoldsTemporary(s, s.writers[v]) && Apart(s, v, w)
    requires NameOf(s.writers[v]).Some? && NameOf(s.writers[v]).value != s.writers[w].destination
    ensures HoldsTemporary(AfterReplace(s, w), s.writers[v])
  {
  }

  lemma ReplaceKeepsMark(s: State, w: WriterId, v: WriterId)
    requires Active(s, w) && s.writers[w].stage.Flushed? && HoldsTemporary(s, s.writers[w])
    requires Active(s, v) && v != w && HoldsMark(s, s.writers[v])
    requires NameOf(s.writers[v]).Some? && OwnerName(NameOf(s.writers[v]).value) != NameOf(s.writers[w]).value
    ensures HoldsMark(AfterReplace(s, w), s.writers[v])
  {
  }

  lemma ReplaceKeepsWriter(start: State, s: State, w: WriterId, v: WriterId)
    requires Safe(start, s) && Active(s, w) && s.writers[w].stage.Flushed? && NameOf(s.writers[w]).value in s.names
    ensures WriterOk(AfterReplace(s, w), v)
  {
    assert WriterOk(s, w);
    if Active(s, v) && v != w {
      assert WriterOk(s, v) && Apart(s, v, w);
      ReplaceKeepsOther(s, w, v);
    }
  }

  lemma ReplaceKeepsDestination(start: State, s: State, w: WriterId, name: Name)
    requires Safe(start, s) && Active(s, w) && s.writers[w].stage.Flushed? && NameOf(s.writers[w]).value in s.names
    requires Ordinary(name)
    ensures DestinationOk(start, AfterReplace(s, w), name)
  {
    var t := AfterReplace(s, w);
    assert WriterOk(s, w) && DestinationOk(start, s, name);
    TemporaryOf(s.writers[w]);
    if name == s.writers[w].destination {
      assert WroteAll(t.writers[w], name, t.files[t.names[name]]);
    } else {
      WritersStay(start, s, t, name);
    }
  }

  lemma RenamedKeeps(start: State, s: State, w: WriterId)
    requires Safe(start, s) && Active(s, w) && s.writers[w].stage.Flushed?
    ensures NameOf(s.writers[w]).value in s.names
    ensures Safe(start, AfterReplace(s, w))
  {
    assert WriterOk(s, w);
    var t := AfterReplace(s, w);
    forall v
      ensures WriterOk(t, v)
    {
      ReplaceKeepsWriter(start, s, w, v);
    }
    forall v, u
      ensures Apart(t, v, u)
    {
      assert Apart(s, v, u);
    }
    forall n | Ordinary(n)
      ensures DestinationOk(start, t, n)
    {
      ReplaceKeepsDestination(start, s, w, n);
    }
  }

  // ----- Every step

  lemma StartKeeps(start: State, s: State, step: Step)
    requires Safe(start, s) && step.Start?
    ensures Safe(start, Next(s, step))
  {
    var t := Next(s, step);
    forall v
      ensures WriterOk(t, v)
    {
      assert WriterOk(s, v);
    }
    forall v, u
      ensures Apart(t, v, u)
    {
      assert Apart(s, v, u);
    }
    forall n | Ordinary(n)
      ensures DestinationOk(start, t, n)
    {
      assert DestinationOk(start, s, n);
      WritersStay(start, s, t, n);
    }
  }

  lemma CrashKeeps(start: State, s: State, step: Step)
    requires Safe(start, s) && step.Crash?
    ensures Safe(start, Next(s, step))
  {
    var t := Next(s, step);
    forall v
      ensures WriterOk(t, v)
    {
      assert WriterOk(s, v);
    }
    forall v, u
      ensures Apart(t, v, u)
    {
      assert Apart(s, v, u);
    }
    forall n | Ordinary(n)
      ensures DestinationOk(start, t, n)
    {
      assert DestinationOk(start, s, n);
      WritersStay(start, s, t, n);
    }
  }

  lemma SweepKeeps(start: State, s: State, step: Step)
    requires Safe(start, s) && step.Sweep?
    ensures Safe(start, Next(s, step))
  {
    if OwnerDead(s, step.name) {
      forall v
        ensures !OwnsTemporary(s, v, Some(step.name))
      {
        assert WriterOk(s, v);
        if Active(s, v) && NameOf(s.writers[v]).Some? {
          TemporaryOf(s.writers[v]);
        }
      }
      RemovedKeeps(start, s, step.name);
    }
  }

  lemma CreateTemporaryKeeps(start: State, s: State, w: WriterId, nonce: nat)
    requires Safe(start, s) && Active(s, w)
    ensures Safe(start, WriterNext(s, w, CreateTemporary(w, nonce)))
  {
    var me := s.writers[w];
    assert WriterOk(s, w);
    if me.stage.Choosing? && me.stage.tries < TRIES && nonce <= U64_MAX {
      var temporary := TemporaryName(me.destination, Identity(me.pid, nonce));
      if temporary in s.names {
        MovedKeeps(start, s, w, Choosing(me.stage.tries + 1));
      } else {
        TemporaryOf(me.(stage := Created(me.stage.tries, nonce, s.next)));
        MadeKeeps(start, s, temporary);
        CreatedKeeps(start, s, w, temporary, nonce);
      }
    }
  }

  /** The writer that made a new file owns it, and no other active writer owns one of that name. */
  lemma CreatedKeeps(start: State, s: State, w: WriterId, temporary: Name, nonce: nat)
    requires Safe(start, s) && Active(s, w) && s.writers[w].stage.Choosing? && nonce <= U64_MAX
    requires temporary == TemporaryName(s.writers[w].destination, Identity(s.writers[w].pid, nonce))
    requires temporary !in s.names && Safe(start, Made(s, temporary))
    ensures Safe(start, Moved(Made(s, temporary), w, Created(s.writers[w].stage.tries, nonce, s.next)))
  {
    var made := Made(s, temporary);
    var t := Moved(made, w, Created(s.writers[w].stage.tries, nonce, s.next));
    forall v
      ensures WriterOk(t, v)
    {
      assert WriterOk(made, v);
    }
    forall v, u
      ensures Apart(t, v, u)
    {
      assert Apart(s, v, u) && WriterOk(s, v) && WriterOk(s, u);
    }
    forall n | Ordinary(n)
      ensures DestinationOk(start, t, n)
    {
      assert DestinationOk(start, made, n);
      WritersStay(start, made, t, n);
    }
  }

  lemma CreateSidecarKeeps(start: State, s: State, w: WriterId)
    requires Safe(start, s) && Active(s, w)
    ensures Safe(start, WriterNext(s, w, CreateSidecar(w)))
  {
    var me := s.writers[w];
    assert WriterOk(s, w);
    if me.stage.Created? {
      TemporaryOf(me);
      var sidecar := OwnerName(NameOf(me).value);
      if sidecar in s.names {
        MovedKeeps(start, s, w, Withdrawing(me.stage.tries, me.stage.nonce, me.stage.file, true));
      } else {
        MadeKeeps(start, s, sidecar);
        assert WriterOk(Made(s, sidecar), w);
        MovedKeeps(start, Made(s, sidecar), w, Marking(me.stage.nonce, me.stage.file, s.next));
      }
    }
  }

  lemma MarkSidecarKeeps(start: State, s: State, w: WriterId, text: seq<byte>)
    requires Safe(start, s) && Active(s, w)
    ensures Safe(start, WriterNext(s, w, MarkSidecar(w, text)))
  {
    var me := s.writers[w];
    assert WriterOk(s, w);
    if me.stage.Marking? {
      MarkIsPrivate(start, s, w);
      FilledKeeps(start, s, w, me.stage.side, text, Held(me.stage.nonce, me.stage.file, me.stage.side));
    }
  }

  lemma OverlaidPayload(payload: seq<byte>, at: nat, count: nat)
    requires at <= |payload|
    ensures var chunk := Chunk(payload, at, count);
            at + |chunk| <= |payload| && Overlaid(payload[..at], at, chunk) == payload[..at + |chunk|]
  {
  }

  lemma WriteKeeps(start: State, s: State, w: WriterId, count: nat)
    requires Safe(start, s) && Active(s, w)
    ensures Safe(start, WriterNext(s, w, Write(w, count)))
  {
    var me := s.writers[w];
    assert WriterOk(s, w);
    if me.stage.Writing? {
      OwnFileIsPrivate(start, s, w);
      var at := me.stage.written;
      var chunk := Chunk(me.payload, at, count);
      OverlaidPayload(me.payload, at, count);
      FilledKeeps(start, s, w, me.stage.file, me.payload[..at + |chunk|], me.stage.(written := at + |chunk|));
    }
  }

  lemma ReplaceKeeps(start: State, s: State, w: WriterId)
    requires Safe(start, s) && Active(s, w)
    ensures Safe(start, WriterNext(s, w, Replace(w)))
  {
    if s.writers[w].stage.Flushed? {
      RenamedKeeps(start, s, w);
    }
  }

  /** Where a writer goes once it has removed its temporary file. */
  function AfterRemoval(stage: Stage): Stage
    requires stage.Withdrawing? || stage.Failing?
  {
    if stage.Failing? then Releasing(stage.nonce, stage.held, false)
    else if stage.again then Choosing(stage.tries + 1) else Finished(false)
  }

  lemma AfterRemovalMoves(s: State, w: WriterId)
    requires Active(s, w) && WriterOk(s, w) && (s.writers[w].stage.Withdrawing? || s.writers[w].stage.Failing?)
    ensures MayMove(s, w, AfterRemoval(s.writers[w].stage))
  {
  }

  /** Once the writer has given its temporary file up, nobody active owns that name. */
  lemma NobodyOwns(start: State, s: State, w: WriterId, succeeds: bool)
    requires Safe(start, s) && Active(s, w) && succeeds
    requires s.writers[w].stage.Withdrawing? || s.writers[w].stage.Failing?
    requires !ClobbersTemporary(s, RemoveTemporary(w, succeeds))
    ensures forall v :: !OwnsTemporary(Moved(s, w, AfterRemoval(s.writers[w].stage)), v, NameOf(s.writers[w]))
  {
    var me := s.writers[w];
    var moved := Moved(s, w, AfterRemoval(me.stage));
    forall v
      ensures !OwnsTemporary(moved, v, NameOf(me))
    {
      assert Apart(s, v, w);
      assert v != w && me.stage.Failing? && me.stage.own.None? ==> !OwnsTemporary(s, v, NameOf(me));
    }
  }

  lemma TemporaryIsNotOrdinary(writer: Writer)
    requires Named(writer) && NameOf(writer).Some?
    ensures !Ordinary(NameOf(writer).value)
  {
    TemporaryOf(writer);
  }

  lemma TemporaryRemovedKeeps(start: State, s: State, w: WriterId)
    requires Safe(start, s) && Active(s, w) && (s.writers[w].stage.Withdrawing? || s.writers[w].stage.Failing?)
    requires !ClobbersTemporary(s, RemoveTemporary(w, true))
    requires Safe(start, Moved(s, w, AfterRemoval(s.writers[w].stage)))
    ensures Safe(start, Removed(Moved(s, w, AfterRemoval(s.writers[w].stage)), NameOf(s.writers[w]).value))
  {
    assert WriterOk(s, w);
    TemporaryIsNotOrdinary(s.writers[w]);
    NobodyOwns(start, s, w, true);
    RemovedKeeps(start, Moved(s, w, AfterRemoval(s.writers[w].stage)), NameOf(s.writers[w]).value);
  }

  lemma RemovalMovedKeeps(start: State, s: State, w: WriterId)
    requires Safe(start, s) && Active(s, w) && (s.writers[w].stage.Withdrawing? || s.writers[w].stage.Failing?)
    ensures Safe(start, Moved(s, w, AfterRemoval(s.writers[w].stage)))
  {
    assert WriterOk(s, w);
    AfterRemovalMoves(s, w);
    MovedKeeps(start, s, w, AfterRemoval(s.writers[w].stage));
  }

  lemma RemoveTemporaryKeeps(start: State, s: State, w: WriterId, succeeds: bool)
    requires Safe(start, s) && Active(s, w)
    requires !ClobbersTemporary(s, RemoveTemporary(w, succeeds))
    ensures Safe(start, WriterNext(s, w, RemoveTemporary(w, succeeds)))
  {
    var stage, t := s.writers[w].stage, WriterNext(s, w, RemoveTemporary(w, succeeds));
    if stage.Withdrawing? || stage.Failing? {
      RemovalMovedKeeps(start, s, w);
      if succeeds {
        TemporaryRemovedKeeps(start, s, w);
        assert t == Removed(Moved(s, w, AfterRemoval(stage)), NameOf(s.writers[w]).value);
      } else {
        assert t == Moved(s, w, AfterRemoval(stage));
      }
    } else {
      assert t == s;
    }
  }

  lemma SidecarIsNoTemporary(start: State, s: State, writer: Writer)
    requires Safe(start, s) && Named(writer) && NameOf(writer).Some?
    ensures !Ordinary(OwnerName(NameOf(writer).value))
    ensures forall v :: !OwnsTemporary(s, v, Some(OwnerName(NameOf(writer).value)))
  {
    TemporaryOf(writer);
    forall v
      ensures !OwnsTemporary(s, v, Some(OwnerName(NameOf(writer).value)))
    {
      assert WriterOk(s, v);
      if Active(s, v) && NameOf(s.writers[v]).Some? {
        TemporaryOf(s.writers[v]);
      }
    }
  }

  lemma FinishedMoves(s: State, w: WriterId, ok: bool)
    requires Active(s, w) && WriterOk(s, w)
    ensures MayMove(s, w, Finished(ok))
  {
  }

  lemma SidecarRemovedKeeps(start: State, s: State, writer: Writer)
    requires Safe(start, s) && Named(writer) && NameOf(writer).Some?
    ensures Safe(start, Removed(s, OwnerName(NameOf(writer).value)))
  {
    SidecarIsNoTemporary(start, s, writer);
    RemovedKeeps(start, s, OwnerName(NameOf(writer).value));
  }

  lemma RemoveSidecarKeeps(start: State, s: State, w: WriterId, succeeds: bool)
    requires Safe(start, s) && Active(s, w)
    ensures Safe(start, WriterNext(s, w, RemoveSidecar(w, succeeds)))
  {
    var me := s.writers[w];
    if me.stage.Releasing? {
      assert WriterOk(s, w);
      var after := Finished(me.stage.ok && succeeds && OwnerName(NameOf(me).value) in s.names);
      FinishedMoves(s, w, after.ok);
      MovedKeeps(start, s, w, after);
      if succeeds {
        SidecarRemovedKeeps(start, Moved(s, w, after), me);
      }
    }
  }

  /** The steps that only move the writer on. */
  predicate OnlyMoves(step: Step) {
    || step.CreationFails? || step.SecureFails? || step.SidecarFails?
    || step.Open? || step.Flush? || step.Settle? || step.Fail?
  }

  lemma OpenMoves(s: State, w: WriterId) returns (stage: Stage)
    requires Active(s, w) && WriterOk(s, w) && s.writers[w].stage.Held?
    ensures WriterNext(s, w, Open(w)) == Moved(s, w, stage) && MayMove(s, w, stage)
  {
    var me := s.writers[w];
    stage := Writing(me.stage.nonce, me.stage.file, me.stage.side, me.stage.file, 0);
    assert me.payload[..0] == [];
  }

  lemma FlushMoves(s: State, w: WriterId) returns (stage: Stage)
    requires Active(s, w) && WriterOk(s, w)
    requires s.writers[w].stage.Writing? && s.writers[w].stage.written >= |s.writers[w].payload|
    ensures WriterNext(s, w, Flush(w)) == Moved(s, w, stage) && MayMove(s, w, stage)
  {
    var me := s.writers[w];
    stage := Flushed(me.stage.nonce, me.stage.file, me.stage.side);
    assert me.payload[..me.stage.written] == me.payload;
  }

  lemma OpenKeeps(start: State, s: State, w: WriterId)
    requires Safe(start, s) && Active(s, w)
    ensures Safe(start, WriterNext(s, w, Open(w)))
  {
    assert WriterOk(s, w);
    if s.writers[w].stage.Held? {
      var stage := OpenMoves(s, w);
      MovedKeeps(start, s, w, stage);
    }
  }

  lemma FlushKeeps(start: State, s: State, w: WriterId)
    requires Safe(start, s) && Active(s, w)
    ensures Safe(start, WriterNext(s, w, Flush(w)))
  {
    assert WriterOk(s, w);
    if s.writers[w].stage.Writing? && s.writers[w].stage.written >= |s.writers[w].payload| {
      var stage := FlushMoves(s, w);
      MovedKeeps(start, s, w, stage);
    }
  }

  lemma FailMoves(s: State, w: WriterId) returns (stage: Stage)
    requires Active(s, w) && WriterOk(s, w)
    ensures WriterNext(s, w, Fail(w)) == s || (WriterNext(s, w, Fail(w)) == Moved(s, w, stage) && MayMove(s, w, stage))
  {
    stage := WriterNext(s, w, Fail(w)).writers[w].stage;
  }

  lemma FailKeeps(start: State, s: State, w: WriterId)
    requires Safe(start, s) && Active(s, w)
    ensures Safe(start, WriterNext(s, w, Fail(w)))
  {
    assert WriterOk(s, w);
    var stage := FailMoves(s, w);
    if WriterNext(s, w, Fail(w)) != s {
      MovedKeeps(start, s, w, stage);
    }
  }

  /** The other such steps keep the file as it is or give it up. */
  lemma PlainMoves(s: State, w: WriterId, step: Step) returns (stage: Stage)
    requires Active(s, w) && WriterOk(s, w) && OnlyMoves(step) && !step.Open? && !step.Flush? && !step.Fail?
    ensures WriterNext(s, w, step) == s || (WriterNext(s, w, step) == Moved(s, w, stage) && MayMove(s, w, stage))
  {
    var t := WriterNext(s, w, step);
    stage := t.writers[w].stage;
  }

  lemma MovesKeep(start: State, s: State, w: WriterId, step: Step)
    requires Safe(start, s) && Active(s, w) && OnlyMoves(step) && step.w == w
    ensures Safe(start, WriterNext(s, w, step))
  {
    assert WriterOk(s, w);
    if step.Open? {
      OpenKeeps(start, s, w);
    } else if step.Flush? {
      FlushKeeps(start, s, w);
    } else if step.Fail? {
      FailKeeps(start, s, w);
    } else {
      var stage := PlainMoves(s, w, step);
      if WriterNext(s, w, step) != s {
        MovedKeeps(start, s, w, stage);
      }
    }
  }

  lemma StepKeeps(start: State, s: State, step: Step)
    requires Safe(start, s) && !ClobbersTemporary(s, step)
    ensures Safe(start, Next(s, step))
  {
    if step.Crash? {
      CrashKeeps(start, s, step);
    } else if step.Sweep? {
      SweepKeeps(start, s, step);
    } else if step.Start? {
      StartKeeps(start, s, step);
    } else if Active(s, step.w) {
      WriterStepKeeps(start, s, step);
    }
  }

  lemma WriterStepKeeps(start: State, s: State, step: Step)
    requires Safe(start, s) && !ClobbersTemporary(s, step)
    requires !step.Crash? && !step.Sweep? && !step.Start? && Active(s, step.w)
    ensures Safe(start, WriterNext(s, step.w, step))
  {
    var w := step.w;
    if step.CreateTemporary? {
      CreateTemporaryKeeps(start, s, w, step.nonce);
    } else if step.CreateSidecar? {
      CreateSidecarKeeps(start, s, w);
    } else if step.MarkSidecar? {
      MarkSidecarKeeps(start, s, w, step.text);
    } else if step.Write? {
      WriteKeeps(start, s, w, step.count);
    } else if step.Replace? {
      ReplaceKeeps(start, s, w);
    } else if step.RemoveTemporary? {
      RemoveTemporaryKeeps(start, s, w, step.succeeds);
    } else if step.RemoveSidecar? {
      RemoveSidecarKeeps(start, s, w, step.succeeds);
    } else {
      MovesKeep(start, s, w, step);
    }
  }

  // ----- Every run

  /** No cleanup of the run removes by name the temporary file of another active writer. */
  ghost predicate NeverClobbersTemporary(states: seq<State>, steps: seq<Step>)
    requires |states| > |steps|
  {
    forall i :: 0 <= i < |steps| ==> !ClobbersTemporary(states[i], steps[i])
  }

  lemma InitialIsSafe(start: State)
    requires Initial(start)
    ensures Safe(start, start)
  {
  }

  lemma {:induction false} RunIsSafe(states: seq<State>, steps: seq<Step>, n: nat)
    requires Run(states, steps) && NeverClobbersTemporary(states, steps) && n < |states|
    ensures Safe(states[0], states[n])
  {
    if n == 0 {
      InitialIsSafe(states[0]);
    } else {
      RunIsSafe(states, steps, n - 1);
      assert StepAt(states, steps, n - 1);
      StepKeeps(states[0], states[n - 1], steps[n - 1]);
    }
  }

  /** In every interleaving, with crashes and sweeps anywhere, an ordinary name holds its initial bytes or
      the complete payload of one writer to it, and never disappears. */
  lemma DestinationsAreWhole(states: seq<State>, steps: seq<Step>, n: nat, name: Name)
    requires Run(states, steps) && NeverClobbersTemporary(states, steps) && n < |states| && Ordinary(name)
    ensures name in states[0].names ==> name in states[n].names
    ensures name in states[n].names ==> Complete(states[0], states[n], name)
  {
    RunIsSafe(states, steps, n);
    assert DestinationOk(states[0], states[n], name);
  }

  /** Only the writer that made a temporary file writes to it: an open handle is its own file. */
  lemma OnlyOwnerFills(states: seq<State>, steps: seq<Step>, n: nat, v: WriterId, w: WriterId)
    requires Run(states, steps) && NeverClobbersTemporary(states, steps) && n < |states|
    requires Active(states[n], w) && states[n].writers[w].stage.Writing?
    ensures states[n].writers[w].stage.handle == states[n].writers[w].stage.file
    ensures v != w && Active(states[n], v) ==>
              OwnFile(states[n].writers[v].stage) != Some(states[n].writers[w].stage.handle)
  {
    RunIsSafe(states, steps, n);
    assert WriterOk(states[n], w);
    OwnFileIsPrivate(states[0], states[n], w);
  }
}
