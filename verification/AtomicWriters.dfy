/** Many atomic writers, crashes and recovery sweeps over one directory, as a step relation
    (spotter-svc/src/atomic_file.rs). Every system call is one step, and any step of any writer
    may come next. */
module AtomicWriters {
  import opened Wrappers
  import opened Bytes
  import opened Decimal
  import opened TempNames

  type Inode = nat
  type WriterId = nat

  /** Where one write stands. `file` and `side` are the files that the writer itself created,
      as long as it has not given them up. */
  datatype Stage =
    | Choosing(tries: nat)
    | Created(tries: nat, nonce: nat, file: Inode)
    | Withdrawing(tries: nat, nonce: nat, file: Inode, again: bool)
    | Marking(nonce: nat, file: Inode, side: Inode)
    | Held(nonce: nat, file: Inode, side: Inode)
    | Writing(nonce: nat, file: Inode, side: Inode, handle: Inode, written: nat)
    | Flushed(nonce: nat, file: Inode, side: Inode)
    | Replaced(nonce: nat, side: Inode)
    | Failing(nonce: nat, own: Option<Inode>, held: Option<Inode>)
    | Releasing(nonce: nat, held: Option<Inode>, ok: bool)
    | Finished(ok: bool)

  datatype Writer = Writer(pid: nat, destination: Name, payload: seq<byte>, stage: Stage)

  datatype State = State(names: map<Name, Inode>, files: map<Inode, seq<byte>>, next: Inode,
                         writers: map<WriterId, Writer>, dead: set<nat>)

  datatype Step =
    | Start(w: WriterId, pid: nat, destination: Name, payload: seq<byte>)
    | CreateTemporary(w: WriterId, nonce: nat)
    | CreationFails(w: WriterId)
    | SecureFails(w: WriterId)
    | CreateSidecar(w: WriterId)
    | SidecarFails(w: WriterId)
    | MarkSidecar(w: WriterId, text: seq<byte>)
    | Open(w: WriterId)
    | Write(w: WriterId, count: nat)
    | Flush(w: WriterId)
    | Replace(w: WriterId)
    | Settle(w: WriterId)
    | Fail(w: WriterId)
    | RemoveTemporary(w: WriterId, succeeds: bool)
    | RemoveSidecar(w: WriterId, succeeds: bool)
    | Crash(pid: nat)
    | Sweep(name: Name)

  const TRIES: nat := 16

  // ----- What a stage holds

  function NonceOf(stage: Stage): Option<nat> {
    if stage.Choosing? || stage.Finished? then None else Some(stage.nonce)
  }

  /** The temporary file that the writer created and has neither renamed nor removed. */
  function OwnFile(stage: Stage): Option<Inode> {
    match stage
    case Created(_, _, file) => Some(file)
    case Withdrawing(_, _, file, _) => Some(file)
    case Marking(_, file, _) => Some(file)
    case Held(_, file, _) => Some(file)
    case Writing(_, file, _, _, _) => Some(file)
    case Flushed(_, file, _) => Some(file)
    case Failing(_, own, _) => own
    case _ => None
  }

  /** The sidecar that the writer created and has not removed. */
  function OwnSide(stage: Stage): Option<Inode> {
    match stage
    case Marking(_, _, side) => Some(side)
    case Held(_, _, side) => Some(side)
    case Writing(_, _, side, _, _) => Some(side)
    case Flushed(_, _, side) => Some(side)
    case Replaced(_, side) => Some(side)
    case Failing(_, _, held) => held
    case Releasing(_, held, _) => held
    case _ => None
  }

  function NameOf(writer: Writer): Option<Name> {
    match NonceOf(writer.stage)
    case None => None
    case Some(nonce) => Some(TemporaryName(writer.destination, Identity(writer.pid, nonce)))
  }

  /** Names that are no temporary files and no sidecars; destinations are such names. */
  predicate Ordinary(name: Name) {
    !IsTemporary(name) && !IsSidecar(name)
  }

  predicate Active(s: State, w: WriterId) {
    w in s.writers && s.writers[w].pid !in s.dead
  }

  /** A sweep takes a name only when its owner is dead. */
  predicate OwnerDead(s: State, name: Name) {
    var temporary := if IsSidecar(name) then OrphanTemporary(name).value else name;
    match TemporaryIdentity(temporary)
    case None => false
    case Some(id) => id.pid in s.dead
  }

  // ----- Steps

  function Moved(s: State, w: WriterId, stage: Stage): State
    requires w in s.writers
  {
    s.(writers := s.writers[w := s.writers[w].(stage := stage)])
  }

  /** A new empty file under a free name. */
  function Made(s: State, name: Name): State {
    s.(names := s.names[name := s.next], files := s.files[s.next := []], next := s.next + 1)
  }

  function Removed(s: State, name: Name): State {
    s.(names := s.names - {name})
  }

  function Filled(s: State, file: Inode, content: seq<byte>): State {
    s.(files := s.files[file := content])
  }

  function Renamed(s: State, source: Name, destination: Name): State
    requires source in s.names
  {
    s.(names := (s.names - {source})[destination := s.names[source]])
  }

  /** What a file holds after writing at an offset. */
  function Overlaid(content: seq<byte>, at: nat, chunk: seq<byte>): seq<byte> {
    var base := if |content| < at then content + seq(at - |content|, _ => 0) else content;
    base[..at] + chunk + if at + |chunk| < |base| then base[at + |chunk|..] else []
  }

  function Chunk(payload: seq<byte>, at: nat, count: nat): seq<byte> {
    if at >= |payload| then [] else if at + count <= |payload| then payload[at..at + count] else payload[at..]
  }

  function ContentOf(s: State, file: Inode): seq<byte> {
    if file in s.files then s.files[file] else []
  }

  /** The step of one writer. A step that the writer cannot take changes nothing. */
  function WriterNext(s: State, w: WriterId, step: Step): State
    requires Active(s, w)
  {
    var me, stage := s.writers[w], s.writers[w].stage;
    match step
    case CreateTemporary(_, nonce) =>
      if stage.Choosing? && stage.tries < TRIES && nonce <= U64_MAX then
        var temporary := TemporaryName(me.destination, Identity(me.pid, nonce));
        if temporary in s.names then Moved(s, w, Choosing(stage.tries + 1))
        else Moved(Made(s, temporary), w, Created(stage.tries, nonce, s.next))
      else s
    case CreationFails(_) =>
      if stage.Choosing? then Moved(s, w, Finished(false)) else s
    case SecureFails(_) =>
      if stage.Created? then Moved(s, w, Withdrawing(stage.tries, stage.nonce, stage.file, false)) else s
    case CreateSidecar(_) =>
      if stage.Created? then
        var sidecar := OwnerName(NameOf(me).value);
        if sidecar in s.names then Moved(s, w, Withdrawing(stage.tries, stage.nonce, stage.file, true))
        else Moved(Made(s, sidecar), w, Marking(stage.nonce, stage.file, s.next))
      else s
    case SidecarFails(_) =>
      if stage.Created? then Moved(s, w, Failing(stage.nonce, Some(stage.file), None)) else s
    case MarkSidecar(_, text) =>
      if stage.Marking? then Moved(Filled(s, stage.side, text), w, Held(stage.nonce, stage.file, stage.side)) else s
    case Open(_) =>
      if stage.Held? then
        var temporary := NameOf(me).value;
        if temporary in s.names then Moved(s, w, Writing(stage.nonce, stage.file, stage.side, s.names[temporary], 0))
        else Moved(s, w, Failing(stage.nonce, Some(stage.file), Some(stage.side)))
      else s
    case Write(_, count) =>
      if stage.Writing? then
        var chunk := Chunk(me.payload, stage.written, count);
        Moved(Filled(s, stage.handle, Overlaid(ContentOf(s, stage.handle), stage.written, chunk)), w,
              stage.(written := stage.written + |chunk|))
      else s
    case Flush(_) =>
      if stage.Writing? && stage.written >= |me.payload| then
        Moved(s, w, Flushed(stage.nonce, stage.file, stage.side))
      else s
    case Replace(_) =>
      if stage.Flushed? then
        var temporary := NameOf(me).value;
        if temporary in s.names then
          Moved(Renamed(s, temporary, me.destination), w, Replaced(stage.nonce, stage.side))
        else Moved(s, w, Failing(stage.nonce, Some(stage.file), Some(stage.side)))
      else s
    case Settle(_) =>
      if stage.Replaced? then Moved(s, w, Releasing(stage.nonce, Some(stage.side), true)) else s
    case Fail(_) =>
      if stage.Marking? || stage.Held? || stage.Writing? || stage.Flushed? then
        Moved(s, w, Failing(stage.nonce, Some(stage.file), Some(stage.side)))
      else if stage.Replaced? then Moved(s, w, Failing(stage.nonce, None, Some(stage.side)))
      else s
    case RemoveTemporary(_, succeeds) =>
      if stage.Withdrawing? || stage.Failing? then
        var temporary := NameOf(me).value;
        var after := if stage.Failing? then Releasing(stage.nonce, stage.held, false)
                     else if stage.again then Choosing(stage.tries + 1) else Finished(false);
        if succeeds then Removed(Moved(s, w, after), temporary) else Moved(s, w, after)
      else s
    case RemoveSidecar(_, succeeds) =>
      if stage.Releasing? then
        var sidecar := OwnerName(NameOf(me).value);
        var after := Moved(s, w, Finished(stage.ok && succeeds && sidecar in s.names));
        if succeeds then Removed(after, sidecar) else after
      else s
    case _ => s
  }

  function Next(s: State, step: Step): State {
    match step
    case Crash(pid) => s.(dead := s.dead + {pid})
    case Sweep(name) => if OwnerDead(s, name) then Removed(s, name) else s
    case Start(w, pid, destination, payload) =>
      if w !in s.writers && pid !in s.dead && pid <= U32_MAX && Ordinary(destination) then
        s.(writers := s.writers[w := Writer(pid, destination, payload, Choosing(0))])
      else s
    case _ => if Active(s, step.w) then WriterNext(s, step.w, step) else s
  }

  /** A directory before any of the writers starts. */
  predicate Initial(s: State) {
    && s.writers == map[]
    && (forall n :: n in s.names ==> s.names[n] in s.files)
    && (forall i :: i in s.files ==> i < s.next)
  }

  ghost predicate StepAt(states: seq<State>, steps: seq<Step>, i: nat)
    requires |states| == |steps| + 1 && i < |steps|
  {
    states[i + 1] == Next(states[i], steps[i])
  }

  ghost predicate Run(states: seq<State>, steps: seq<Step>) {
    && |states| == |steps| + 1
    && Initial(states[0])
    && forall i :: 0 <= i < |steps| ==> StepAt(states, steps, i)
  }

  // ----- The cleanup that removes by name

  /** The writer has given its temporary file up, and removes by name the one that another active writer made. */
  ghost predicate ClobbersTemporary(s: State, step: Step) {
    && step.RemoveTemporary? && step.succeeds && Active(s, step.w)
    && s.writers[step.w].stage.Failing? && s.writers[step.w].stage.own.None?
    && exists v :: v != step.w && OwnsTemporary(s, v, NameOf(s.writers[step.w]))
  }

  ghost predicate OwnsTemporary(s: State, v: WriterId, name: Option<Name>) {
    Active(s, v) && OwnFile(s.writers[v].stage).Some? && NameOf(s.writers[v]) == name
  }

  /** The writer failed to create its sidecar, and removes by name the one that another active writer made. */
  ghost predicate ClobbersSidecar(s: State, step: Step) {
    && step.RemoveSidecar? && step.succeeds && Active(s, step.w)
    && s.writers[step.w].stage.Releasing? && s.writers[step.w].stage.held.None?
    && exists v :: v != step.w && OwnsSidecar(s, v, NameOf(s.writers[step.w]))
  }

  ghost predicate OwnsSidecar(s: State, v: WriterId, name: Option<Name>) {
    Active(s, v) && OwnSide(s.writers[v].stage).Some? && NameOf(s.writers[v]) == name
  }
}
