/** Sidecar ownership among atomic writers, when cleanups stay harmless, and what goes wrong when
    one does not. */
module AtomicHolders {
  import opened Wrappers
  import opened Bytes
  import opened Decimal
  import opened TempNames
  import opened AtomicWriters
  import opened AtomicSafety

  // ----- One active holder per sidecar

  ghost predicate HoldsSidecar(s: State, writer: Writer) {
    OwnSide(writer.stage).Some? ==>
      var sidecar := OwnerName(NameOf(writer).value);
      sidecar in s.names && s.names[sidecar] == OwnSide(writer.stage).value
  }

  ghost predicate HolderOk(s: State, w: WriterId) {
    Active(s, w) ==> Named(s.writers[w]) && HoldsSidecar(s, s.writers[w])
  }

  /** No two active writers hold sidecars of the same temporary name. */
  ghost predicate HeldApart(s: State, v: WriterId, w: WriterId) {
    (v != w && Active(s, v) && Active(s, w) && OwnSide(s.writers[v].stage).Some? && OwnSide(s.writers[w].stage).Some?)
    ==> NameOf(s.writers[v]) != NameOf(s.writers[w])
  }

  ghost predicate AllHeld(s: State) {
    && (forall w :: HolderOk(s, w))
    && (forall v, w :: HeldApart(s, v, w))
  }

  /** A change of names that keeps the sidecars of the active holders. */
  lemma NamesKeepHeld(s: State, t: State)
    requires AllHeld(s)
    requires t.writers == s.writers && s.dead <= t.dead
    requires forall v :: Active(t, v) && OwnSide(s.writers[v].stage).Some? ==>
               var sidecar := OwnerName(NameOf(s.writers[v]).value);
               sidecar in s.names ==> sidecar in t.names && t.names[sidecar] == s.names[sidecar]
    ensures AllHeld(t)
  {
    forall v
      ensures HolderOk(t, v)
    {
      assert HolderOk(s, v);
    }
    forall v, u
      ensures HeldApart(t, v, u)
    {
      assert HeldApart(s, v, u);
    }
  }

  lemma MovedKeepsHeld(s: State, w: WriterId, stage: Stage)
    requires AllHeld(s) && Active(s, w)
    requires var moved := s.writers[w].(stage := stage);
             Named(moved)
             && (OwnSide(stage).Some? ==>
                   OwnSide(s.writers[w].stage) == OwnSide(stage) && NameOf(moved) == NameOf(s.writers[w]))
    ensures AllHeld(Moved(s, w, stage))
  {
    var t := Moved(s, w, stage);
    forall v
      ensures HolderOk(t, v)
    {
      assert HolderOk(s, v);
    }
    forall v, u
      ensures HeldApart(t, v, u)
    {
      assert HeldApart(s, v, u);
    }
  }

  /** Removing a name that is no active holder's sidecar. */
  lemma RemovedKeepsHeld(s: State, name: Name)
    requires AllHeld(s)
    requires forall v :: Active(s, v) && OwnSide(s.writers[v].stage).Some? ==>
               name != OwnerName(NameOf(s.writers[v]).value)
    ensures AllHeld(Removed(s, name))
  {
    NamesKeepHeld(s, Removed(s, name));
  }

  lemma NotASidecar(s: State, name: Name)
    requires AllHeld(s) && !IsSidecar(name)
    ensures forall v :: Active(s, v) && OwnSide(s.writers[v].stage).Some? ==>
              name != OwnerName(NameOf(s.writers[v]).value)
  {
    forall v | Active(s, v) && OwnSide(s.writers[v].stage).Some?
      ensures name != OwnerName(NameOf(s.writers[v]).value)
    {
      assert HolderOk(s, v);
      TemporaryOf(s.writers[v]);
    }
  }

  lemma SidecarCreatedKeepsHeld(s: State, w: WriterId)
    requires AllHeld(s) && Active(s, w) && s.writers[w].stage.Created?
    requires OwnerName(NameOf(s.writers[w]).value) !in s.names
    ensures var stage := s.writers[w].stage;
            AllHeld(Moved(Made(s, OwnerName(NameOf(s.writers[w]).value)), w, Marking(stage.nonce, stage.file, s.next)))
  {
    var me := s.writers[w];
    var t := Moved(Made(s, OwnerName(NameOf(me).value)), w, Marking(me.stage.nonce, me.stage.file, s.next));
    forall v
      ensures HolderOk(t, v)
    {
      assert HolderOk(s, v);
    }
    forall v, u
      ensures HeldApart(t, v, u)
    {
      assert HeldApart(s, v, u) && HolderOk(s, v) && HolderOk(s, u);
    }
  }

  lemma SidecarRemovedKeepsHeld(s: State, w: WriterId, succeeds: bool)
    requires AllHeld(s) && Active(s, w) && !ClobbersSidecar(s, RemoveSidecar(w, succeeds))
    ensures AllHeld(WriterNext(s, w, RemoveSidecar(w, succeeds)))
  {
    var me := s.writers[w];
    assert HolderOk(s, w);
    if me.stage.Releasing? {
      var sidecar := OwnerName(NameOf(me).value);
      var after := Finished(me.stage.ok && succeeds && sidecar in s.names);
      var moved := Moved(s, w, after);
      MovedKeepsHeld(s, w, after);
      if succeeds {
        forall v | Active(moved, v) && OwnSide(moved.writers[v].stage).Some?
          ensures sidecar != OwnerName(NameOf(moved.writers[v]).value)
        {
          assert HeldApart(s, v, w);
          assert me.stage.held.None? ==> !OwnsSidecar(s, v, NameOf(me));
          OwnerStrips(NameOf(me).value);
          OwnerStrips(NameOf(s.writers[v]).value);
        }
        RemovedKeepsHeld(moved, sidecar);
      }
    }
  }

  lemma AbandonKeepsHeld(s: State, w: WriterId)
    requires AllHeld(s) && Active(s, w) && (s.writers[w].stage.Withdrawing? || s.writers[w].stage.Failing?)
    ensures AllHeld(Moved(s, w, AfterRemoval(s.writers[w].stage)))
    ensures !IsSidecar(NameOf(s.writers[w]).value)
  {
    assert HolderOk(s, w);
    TemporaryOf(s.writers[w]);
    MovedKeepsHeld(s, w, AfterRemoval(s.writers[w].stage));
  }

  lemma TemporaryRemovedKeepsHeld(s: State, w: WriterId, succeeds: bool)
    requires AllHeld(s) && Active(s, w)
    ensures AllHeld(WriterNext(s, w, RemoveTemporary(w, succeeds)))
  {
    var me := s.writers[w];
    if me.stage.Withdrawing? || me.stage.Failing? {
      AbandonKeepsHeld(s, w);
      if succeeds {
        NotASidecar(Moved(s, w, AfterRemoval(me.stage)), NameOf(me).value);
        RemovedKeepsHeld(Moved(s, w, AfterRemoval(me.stage)), NameOf(me).value);
      }
    }
  }

  lemma TemporaryCreatedKeepsHeld(s: State, w: WriterId, nonce: nat)
    requires AllHeld(s) && Active(s, w)
    ensures AllHeld(WriterNext(s, w, CreateTemporary(w, nonce)))
  {
    var me := s.writers[w];
    assert HolderOk(s, w);
    if me.stage.Choosing? && me.stage.tries < TRIES && nonce <= U64_MAX {
      var temporary := TemporaryName(me.destination, Identity(me.pid, nonce));
      if temporary in s.names {
        MovedKeepsHeld(s, w, Choosing(me.stage.tries + 1));
      } else {
        NamesKeepHeld(s, Made(s, temporary));
        MovedKeepsHeld(Made(s, temporary), w, Created(me.stage.tries, nonce, s.next));
      }
    }
  }

  lemma ReplaceKeepsHeld(s: State, w: WriterId)
    requires AllHeld(s) && Active(s, w)
    ensures AllHeld(WriterNext(s, w, Replace(w)))
  {
    var me := s.writers[w];
    assert HolderOk(s, w);
    if me.stage.Flushed? {
      var temporary := NameOf(me).value;
      if temporary in s.names {
        TemporaryOf(me);
        NotASidecar(s, temporary);
        NotASidecar(s, me.destination);
        NamesKeepHeld(s, Renamed(s, temporary, me.destination));
        MovedKeepsHeld(Renamed(s, temporary, me.destination), w, Replaced(me.stage.nonce, me.stage.side));
      } else {
        MovedKeepsHeld(s, w, Failing(me.stage.nonce, Some(me.stage.file), Some(me.stage.side)));
      }
    }
  }

  lemma FillKeepsHeld(s: State, w: WriterId, step: Step)
    requires AllHeld(s) && Active(s, w) && (step.MarkSidecar? || step.Write?)
    ensures AllHeld(WriterNext(s, w, step))
  {
    assert HolderOk(s, w);
    var t := WriterNext(s, w, step);
    if t != s {
      var filled := s.(files := t.files);
      NamesKeepHeld(s, filled);
      MovedKeepsHeld(filled, w, t.writers[w].stage);
      assert t == Moved(filled, w, t.writers[w].stage);
    }
  }

  lemma MovesKeepHeld(s: State, w: WriterId, step: Step)
    requires AllHeld(s) && Active(s, w) && OnlyMoves(step)
    ensures AllHeld(WriterNext(s, w, step))
  {
    assert HolderOk(s, w);
    var t := WriterNext(s, w, step);
    if t != s {
      assert t == Moved(s, w, t.writers[w].stage);
      MovedKeepsHeld(s, w, t.writers[w].stage);
    }
  }

  lemma StartKeepsHeld(s: State, step: Step)
    requires AllHeld(s) && step.Start?
    ensures AllHeld(Next(s, step))
  {
    var t := Next(s, step);
    forall v
      ensures HolderOk(t, v)
    {
      assert HolderOk(s, v);
    }
    forall v, u
      ensures HeldApart(t, v, u)
    {
      assert HeldApart(s, v, u);
    }
  }

  lemma SweepKeepsHeld(s: State, name: Name)
    requires AllHeld(s)
    ensures AllHeld(Next(s, Sweep(name)))
  {
    if OwnerDead(s, name) {
      forall v | Active(s, v) && OwnSide(s.writers[v].stage).Some?
        ensures name != OwnerName(NameOf(s.writers[v]).value)
      {
        assert HolderOk(s, v);
        TemporaryOf(s.writers[v]);
      }
      RemovedKeepsHeld(s, name);
    }
  }

  lemma WriterStepKeepsHeld(s: State, step: Step)
    requires AllHeld(s) && !ClobbersSidecar(s, step)
    requires !step.Crash? && !step.Sweep? && !step.Start? && Active(s, step.w)
    ensures AllHeld(WriterNext(s, step.w, step))
  {
    var w := step.w;
    if step.CreateTemporary? {
      TemporaryCreatedKeepsHeld(s, w, step.nonce);
    } else if step.CreateSidecar? {
      var me := s.writers[w];
      assert HolderOk(s, w);
      if me.stage.Created? {
        if OwnerName(NameOf(me).value) in s.names {
          MovedKeepsHeld(s, w, Withdrawing(me.stage.tries, me.stage.nonce, me.stage.file, true));
        } else {
          SidecarCreatedKeepsHeld(s, w);
        }
      }
    } else if step.MarkSidecar? || step.Write? {
      FillKeepsHeld(s, w, step);
    } else if step.Replace? {
      ReplaceKeepsHeld(s, w);
    } else if step.RemoveTemporary? {
      TemporaryRemovedKeepsHeld(s, w, step.succeeds);
    } else if step.RemoveSidecar? {
      SidecarRemovedKeepsHeld(s, w, step.succeeds);
    } else {
      MovesKeepHeld(s, w, step);
    }
  }

  lemma StepKeepsHeld(s: State, step: Step)
    requires AllHeld(s) && !ClobbersSidecar(s, step)
    ensures AllHeld(Next(s, step))
  {
    if step.Crash? {
      NamesKeepHeld(s, Next(s, step));
    } else if step.Sweep? {
      SweepKeepsHeld(s, step.name);
    } else if step.Start? {
      StartKeepsHeld(s, step);
    } else if Active(s, step.w) {
      WriterStepKeepsHeld(s, step);
    }
  }

  /** No failed creation of the run removes by name the sidecar of another active writer. */
  ghost predicate NeverClobbersSidecar(states: seq<State>, steps: seq<Step>)
    requires |states| > |steps|
  {
    forall i :: 0 <= i < |steps| ==> !ClobbersSidecar(states[i], steps[i])
  }

  lemma {:induction false} RunHolds(states: seq<State>, steps: seq<Step>, n: nat)
    requires Run(states, steps) && NeverClobbersSidecar(states, steps) && n < |states|
    ensures AllHeld(states[n])
  {
    if n > 0 {
      RunHolds(states, steps, n - 1);
      assert StepAt(states, steps, n - 1);
      StepKeepsHeld(states[n - 1], steps[n - 1]);
    }
  }

  /** At most one active writer holds the sidecar of a given temporary file, and while it does, the
      sidecar is in place. */
  lemma HolderIsUnique(states: seq<State>, steps: seq<Step>, n: nat, name: Name, v: WriterId, w: WriterId)
    requires Run(states, steps) && NeverClobbersSidecar(states, steps) && n < |states|
    requires OwnsSidecar(states[n], v, Some(name))
    ensures OwnerName(name) in states[n].names
    ensures OwnsSidecar(states[n], w, Some(name)) ==> v == w
  {
    RunHolds(states, steps, n);
    assert HolderOk(states[n], v) && HeldApart(states[n], v, w);
  }

  // ----- The conditions are exact

  /** Every active writer finds its own temporary file under its name. */
  ghost predicate TemporariesInPlace(s: State) {
    forall w :: TemporaryInPlace(s, w)
  }

  ghost predicate TemporaryInPlace(s: State, w: WriterId) {
    Active(s, w) && OwnFile(s.writers[w].stage).Some? ==>
      NameOf(s.writers[w]).value in s.names && s.names[NameOf(s.writers[w]).value] == OwnFile(s.writers[w].stage).value
  }

  /** Every active writer finds its own sidecar in place. */
  ghost predicate SidecarsInPlace(s: State) {
    forall w :: SidecarInPlace(s, w)
  }

  ghost predicate SidecarInPlace(s: State, w: WriterId) {
    Active(s, w) ==> HoldsSidecar(s, s.writers[w])
  }

  lemma ClobberedTemporary(s: State, step: Step)
    requires ClobbersTemporary(s, step)
    ensures !TemporariesInPlace(Next(s, step))
  {
    var v :| v != step.w && OwnsTemporary(s, v, NameOf(s.writers[step.w]));
    assert !TemporaryInPlace(Next(s, step), v);
  }

  lemma ClobberedSidecar(s: State, step: Step)
    requires ClobbersSidecar(s, step)
    ensures !SidecarsInPlace(Next(s, step))
  {
    var v :| v != step.w && OwnsSidecar(s, v, NameOf(s.writers[step.w]));
    assert !SidecarInPlace(Next(s, step), v);
  }

  /** Own temporary files stay in place throughout a run if and only if no cleanup after a late failure
      removes another active writer's. */
  lemma TemporariesInPlaceIff(states: seq<State>, steps: seq<Step>)
    requires Run(states, steps)
    ensures (forall i :: 0 <= i < |states| ==> TemporariesInPlace(states[i])) <==> NeverClobbersTemporary(states, steps)
  {
    if NeverClobbersTemporary(states, steps) {
      forall i: nat | i < |states|
        ensures TemporariesInPlace(states[i])
      {
        RunIsSafe(states, steps, i);
        assert forall w :: WriterOk(states[i], w) ==> TemporaryInPlace(states[i], w);
      }
    } else {
      var i: nat :| i < |steps| && ClobbersTemporary(states[i], steps[i]);
      assert StepAt(states, steps, i);
      ClobberedTemporary(states[i], steps[i]);
      assert !TemporariesInPlace(states[i + 1]);
    }
  }

  /** Own sidecars stay in place throughout a run if and only if no failed creation removes another active writer's. */
  lemma SidecarsInPlaceIff(states: seq<State>, steps: seq<Step>)
    requires Run(states, steps)
    ensures (forall i :: 0 <= i < |states| ==> SidecarsInPlace(states[i])) <==> NeverClobbersSidecar(states, steps)
  {
    if NeverClobbersSidecar(states, steps) {
      forall i: nat | i < |states|
        ensures SidecarsInPlace(states[i])
      {
        RunHolds(states, steps, i);
        assert forall w :: HolderOk(states[i], w) ==> SidecarInPlace(states[i], w);
      }
    } else {
      var i: nat :| i < |steps| && ClobbersSidecar(states[i], steps[i]);
      assert StepAt(states, steps, i);
      ClobberedSidecar(states[i], steps[i]);
      assert !SidecarsInPlace(states[i + 1]);
    }
  }

  // ----- Distinct identities make every cleanup harmless

  /** No two active writers use the same temporary name. */
  ghost predicate NamesDistinct(s: State) {
    forall v, w :: v != w && Active(s, v) && Active(s, w) && NameOf(s.writers[v]).Some? ==>
      NameOf(s.writers[v]) != NameOf(s.writers[w])
  }

  /** As long as no two active writers share destination, process and nonce, both conditions hold. */
  lemma DistinctNamesSuffice(states: seq<State>, steps: seq<Step>)
    requires |states| > |steps| && forall i :: 0 <= i < |states| ==> NamesDistinct(states[i])
    ensures NeverClobbersTemporary(states, steps) && NeverClobbersSidecar(states, steps)
  {
    forall i: nat | i < |steps|
      ensures !ClobbersTemporary(states[i], steps[i]) && !ClobbersSidecar(states[i], steps[i])
    {
      assert NamesDistinct(states[i]);
    }
  }

  // ----- A cleanup that is not harmless

  ghost predicate RunsTo(states: seq<State>, steps: seq<Step>, start: State, s: State) {
    Run(states, steps) && states[0] == start && states[|steps|] == s
  }

  ghost predicate Reaches(start: State, s: State) {
    exists states, steps :: RunsTo(states, steps, start, s)
  }

  lemma Stays(start: State)
    requires Initial(start)
    ensures Reaches(start, start)
  {
    assert RunsTo([start], [], start, start);
  }

  lemma Steps(start: State, s: State, step: Step)
    requires Reaches(start, s)
    ensures Reaches(start, Next(s, step))
  {
    var states, steps :| RunsTo(states, steps, start, s);
    var longer := states + [Next(s, step)];
    forall i: nat | i < |steps| + 1
      ensures StepAt(longer, steps + [step], i)
    {
      if i < |steps| {
        assert StepAt(states, steps, i);
      }
    }
    assert RunsTo(longer, steps + [step], start, Next(s, step));
  }

  /** Writers of one process to one destination that draw the same nonce. */
  datatype Clash = Clash(destination: Name, id: Identity, payload: seq<byte>) {
    predicate Valid() {
      InRange(id) && Ordinary(destination) && payload != []
    }

    function Temporary(): Name {
      TemporaryName(destination, id)
    }

    function Sidecar(): Name {
      OwnerName(Temporary())
    }

    function At(stage: Stage): Writer {
      Writer(id.pid, destination, payload, stage)
    }
  }

  ghost predicate IsAt(c: Clash, s: State, w: WriterId, stage: Stage) {
    w in s.writers && s.writers[w] == c.At(stage) && c.id.pid !in s.dead
  }

  lemma NamesOf(c: Clash)
    requires c.Valid()
    ensures c.Temporary() != c.Sidecar() && c.Temporary() != c.destination && c.Sidecar() != c.destination
  {
    TemporaryNameParses(c.destination, c.id);
    SidecarOfTemporary(c.Temporary());
    NeverBoth(c.Sidecar());
  }

  function Added(c: Clash, s: State, name: Name, w: WriterId, stage: Stage): State {
    State(s.names[name := s.next], s.files[s.next := []], s.next + 1, s.writers[w := c.At(stage)], s.dead)
  }

  function Staged(c: Clash, s: State, w: WriterId, stage: Stage): State {
    s.(writers := s.writers[w := c.At(stage)])
  }

  lemma Creates(c: Clash, start: State, s: State, w: WriterId, tries: nat)
    requires c.Valid() && Reaches(start, s) && IsAt(c, s, w, Choosing(tries)) && tries < TRIES
    requires c.Temporary() !in s.names
    ensures Reaches(start, Added(c, s, c.Temporary(), w, Created(tries, c.id.nonce, s.next)))
  {
    Steps(start, s, CreateTemporary(w, c.id.nonce));
  }

  lemma Begins(c: Clash, start: State, s: State, w: WriterId)
    requires c.Valid() && Reaches(start, s) && w !in s.writers && c.id.pid !in s.dead
    requires c.Temporary() !in s.names
    ensures Reaches(start, Added(c, s, c.Temporary(), w, Created(0, c.id.nonce, s.next)))
  {
    Steps(start, s, Start(w, c.id.pid, c.destination, c.payload));
    var t := Staged(c, s, w, Choosing(0));
    assert Next(s, Start(w, c.id.pid, c.destination, c.payload)) == t;
    Creates(c, start, t, w, 0);
    assert Added(c, t, c.Temporary(), w, Created(0, c.id.nonce, s.next))
        == Added(c, s, c.Temporary(), w, Created(0, c.id.nonce, s.next));
  }

  lemma Marks(c: Clash, start: State, s: State, w: WriterId, tries: nat, file: Inode)
    requires c.Valid() && Reaches(start, s) && IsAt(c, s, w, Created(tries, c.id.nonce, file))
    requires c.Sidecar() !in s.names
    ensures Reaches(start, Added(c, s, c.Sidecar(), w, Stage.Held(c.id.nonce, file, s.next)))
  {
    Steps(start, s, CreateSidecar(w));
    var t := Added(c, s, c.Sidecar(), w, Marking(c.id.nonce, file, s.next));
    assert Next(s, CreateSidecar(w)) == t;
    Steps(start, t, MarkSidecar(w, []));
    assert t.files[s.next := []] == t.files;
    assert Next(t, MarkSidecar(w, [])) == Added(c, s, c.Sidecar(), w, Stage.Held(c.id.nonce, file, s.next));
  }

  /** Opens whatever the temporary name leads to and fills that. */
  lemma Fills(c: Clash, start: State, s: State, w: WriterId, file: Inode, side: Inode, handle: Inode)
    requires c.Valid() && Reaches(start, s) && IsAt(c, s, w, Stage.Held(c.id.nonce, file, side))
    requires c.Temporary() in s.names && s.names[c.Temporary()] == handle && handle in s.files && s.files[handle] == []
    ensures Reaches(start, Staged(c, s.(files := s.files[handle := c.payload]), w, Flushed(c.id.nonce, file, side)))
  {
    Steps(start, s, Open(w));
    var t := Staged(c, s, w, Writing(c.id.nonce, file, side, handle, 0));
    assert Next(s, Open(w)) == t;
    Steps(start, t, Write(w, |c.payload|));
    assert Overlaid([], 0, c.payload) == c.payload;
    var filled := s.(files := s.files[handle := c.payload]);
    var u := Staged(c, filled, w, Writing(c.id.nonce, file, side, handle, |c.payload|));
    assert Next(t, Write(w, |c.payload|)) == u;
    Steps(start, u, Flush(w));
    assert Next(u, Flush(w)) == Staged(c, filled, w, Flushed(c.id.nonce, file, side));
  }

  ghost predicate SamePayloads(c: Clash, s: State) {
    forall w :: w in s.writers ==> s.writers[w].payload == c.payload
  }

  lemma FirstFlushes(c: Clash, start: State, s: State) returns (t: State, file: Inode, side: Inode)
    requires c.Valid() && Reaches(start, s) && s.writers == map[] && c.id.pid !in s.dead
    requires c.Temporary() !in s.names && c.Sidecar() !in s.names
    ensures Reaches(start, t) && t.writers == map[0 := c.At(Flushed(c.id.nonce, file, side))]
    ensures t.dead == s.dead && c.Temporary() in t.names && c.Sidecar() in t.names
  {
    NamesOf(c);
    Begins(c, start, s, 0);
    file, side := s.next, s.next + 1;
    var created := Added(c, s, c.Temporary(), 0, Created(0, c.id.nonce, file));
    Marks(c, start, created, 0, 0, file);
    var held := Added(c, created, c.Sidecar(), 0, Stage.Held(c.id.nonce, file, side));
    Fills(c, start, held, 0, file, side, file);
    t := Staged(c, held.(files := held.files[file := c.payload]), 0, Flushed(c.id.nonce, file, side));
  }

  lemma FirstReplaces(c: Clash, start: State, s: State) returns (t: State, side: Inode)
    requires c.Valid() && Reaches(start, s) && s.writers == map[] && c.id.pid !in s.dead
    requires c.Temporary() !in s.names && c.Sidecar() !in s.names
    ensures Reaches(start, t) && t.writers == map[0 := c.At(Replaced(c.id.nonce, side))]
    ensures t.dead == s.dead && c.Temporary() !in t.names && c.Sidecar() in t.names
  {
    NamesOf(c);
    var flushed, file;
    flushed, file, side := FirstFlushes(c, start, s);
    Steps(start, flushed, Replace(0));
    t := Next(flushed, Replace(0));
    assert t.writers[0] == c.At(Replaced(c.id.nonce, side));
  }

  /** The first writer replaces the destination and fails afterwards. */
  lemma FirstFailsLate(c: Clash, start: State, s: State) returns (t: State, side: Inode)
    requires c.Valid() && Reaches(start, s) && s.writers == map[] && c.id.pid !in s.dead
    requires c.Temporary() !in s.names && c.Sidecar() !in s.names
    ensures Reaches(start, t) && t.writers == map[0 := c.At(Failing(c.id.nonce, None, Some(side)))]
    ensures t.dead == s.dead && c.Temporary() !in t.names && c.Sidecar() in t.names
  {
    var replaced;
    replaced, side := FirstReplaces(c, start, s);
    Steps(start, replaced, Fail(0));
    t := Next(replaced, Fail(0));
    assert t == Staged(c, replaced, 0, Failing(c.id.nonce, None, Some(side)));
  }

  /** A cleanup removes whatever bears the temporary name, and the sidecar. */
  lemma Cleans(c: Clash, start: State, s: State, w: WriterId, own: Option<Inode>, side: Option<Inode>)
    returns (t: State)
    requires c.Valid() && Reaches(start, s) && IsAt(c, s, w, Failing(c.id.nonce, own, side))
    ensures Reaches(start, t) && t.next == s.next && t.files == s.files && t.dead == s.dead
    ensures t.names == s.names - {c.Temporary()} - {c.Sidecar()}
    ensures exists ok :: t.writers == s.writers[w := c.At(Finished(ok))]
  {
    Steps(start, s, RemoveTemporary(w, true));
    var bare := Next(s, RemoveTemporary(w, true));
    assert bare == Removed(Moved(s, w, Releasing(c.id.nonce, side, false)), c.Temporary());
    Steps(start, bare, RemoveSidecar(w, true));
    t := Next(bare, RemoveSidecar(w, true));
    assert t == Removed(Moved(bare, w, Finished(false)), c.Sidecar());
    assert t.writers == s.writers[w := c.At(Finished(false))];
  }

  /** Its cleanup removes the second writer's new temporary file and makes the sidecar name free again. */
  lemma SecondLosesItsFile(c: Clash, start: State, s: State, side: Inode) returns (t: State, file: Inode, other: Inode)
    requires c.Valid() && Reaches(start, s) && s.writers == map[0 := c.At(Failing(c.id.nonce, None, Some(side)))]
    requires c.id.pid !in s.dead && c.Temporary() !in s.names
    ensures Reaches(start, t) && IsAt(c, t, 1, Stage.Held(c.id.nonce, file, other))
    ensures t.writers.Keys == {0, 1} && SamePayloads(c, t)
    ensures c.Temporary() !in t.names && c.Sidecar() in t.names
  {
    NamesOf(c);
    Begins(c, start, s, 1);
    file := s.next;
    var created := Added(c, s, c.Temporary(), 1, Created(0, c.id.nonce, file));
    var free := Cleans(c, start, created, 0, None, Some(side));
    other := free.next;
    Marks(c, start, free, 1, 0, file);
    t := Added(c, free, c.Sidecar(), 1, Stage.Held(c.id.nonce, file, other));
  }

  /** A writer that finds the sidecar taken withdraws its file and makes a new one of the same name. */
  lemma Retries(c: Clash, start: State, s: State, w: WriterId, file: Inode) returns (t: State)
    requires c.Valid() && Reaches(start, s) && IsAt(c, s, w, Created(0, c.id.nonce, file)) && c.Sidecar() in s.names
    ensures Reaches(start, t) && t == Added(c, s, c.Temporary(), w, Created(1, c.id.nonce, s.next))
  {
    Steps(start, s, CreateSidecar(w));
    var late := Next(s, CreateSidecar(w));
    assert late == Staged(c, s, w, Withdrawing(0, c.id.nonce, file, true));
    Steps(start, late, RemoveTemporary(w, true));
    var again := Next(late, RemoveTemporary(w, true));
    assert again == Removed(Staged(c, s, w, Choosing(1)), c.Temporary());
    Creates(c, start, again, w, 1);
    t := Added(c, again, c.Temporary(), w, Created(1, c.id.nonce, s.next));
    assert (s.names - {c.Temporary()})[c.Temporary() := s.next] == s.names[c.Temporary() := s.next];
  }

  /** The second writer fills the third one's file, which the third then withdraws and makes anew. */
  lemma ThirdLendsItsFile(c: Clash, start: State, s: State, file: Inode, side: Inode) returns (t: State)
    requires c.Valid() && Reaches(start, s) && IsAt(c, s, 1, Stage.Held(c.id.nonce, file, side))
    requires s.writers.Keys == {0, 1} && SamePayloads(c, s)
    requires c.Temporary() !in s.names && c.Sidecar() in s.names
    ensures Reaches(start, t) && IsAt(c, t, 1, Flushed(c.id.nonce, file, side)) && SamePayloads(c, t)
    ensures c.Temporary() in t.names && t.names[c.Temporary()] in t.files && t.files[t.names[c.Temporary()]] == []
  {
    NamesOf(c);
    Begins(c, start, s, 2);
    var lent := Added(c, s, c.Temporary(), 2, Created(0, c.id.nonce, s.next));
    Fills(c, start, lent, 1, file, side, s.next);
    var filled := Staged(c, lent.(files := lent.files[s.next := c.payload]), 1, Flushed(c.id.nonce, file, side));
    t := Retries(c, start, filled, 2, s.next);
  }

  /** Without the condition the destination can end up empty: three writers of one process that draw the
      same nonce are enough, for any destination, any initial bytes and any payload. */
  lemma ClobberEmptiesDestination(c: Clash, start: State) returns (states: seq<State>, steps: seq<Step>, s: State)
    requires c.Valid() && Initial(start) && c.id.pid !in start.dead
    requires c.destination in start.names && start.files[start.names[c.destination]] != []
    requires c.Temporary() !in start.names && c.Sidecar() !in start.names
    ensures RunsTo(states, steps, start, s) && !NeverClobbersTemporary(states, steps)
    ensures c.destination in s.names && s.names[c.destination] in s.files
    ensures s.files[s.names[c.destination]] == [] && !Complete(start, s, c.destination)
  {
    Stays(start);
    var late, side := FirstFailsLate(c, start, start);
    var bare, file, other := SecondLosesItsFile(c, start, late, side);
    var filled := ThirdLendsItsFile(c, start, bare, file, other);
    Steps(start, filled, Replace(1));
    s := Next(filled, Replace(1));
    assert s.names[c.destination] == filled.names[c.Temporary()];
    assert SamePayloads(c, s);
    states, steps :| RunsTo(states, steps, start, s);
    if NeverClobbersTemporary(states, steps) {
      DestinationsAreWhole(states, steps, |steps|, c.destination);
    }
  }

  /** The second writer fails to create its sidecar in another way than that it exists, and removes the first one's. */
  lemma SecondRemovesSidecar(c: Clash, start: State, s: State, side: Inode) returns (t: State)
    requires c.Valid() && Reaches(start, s) && s.writers == map[0 := c.At(Replaced(c.id.nonce, side))]
    requires c.id.pid !in s.dead && c.Temporary() !in s.names
    ensures Reaches(start, t) && IsAt(c, t, 0, Replaced(c.id.nonce, side)) && 2 !in t.writers
    ensures c.Temporary() !in t.names && c.Sidecar() !in t.names
  {
    Begins(c, start, s, 1);
    var created := Added(c, s, c.Temporary(), 1, Created(0, c.id.nonce, s.next));
    Steps(start, created, SidecarFails(1));
    var failing := Next(created, SidecarFails(1));
    assert failing == Staged(c, created, 1, Failing(c.id.nonce, Some(s.next), None));
    t := Cleans(c, start, failing, 1, Some(s.next), None);
  }

  /** Without the condition two active writers can hold sidecars of the same temporary name. */
  lemma ClobberSharesSidecar(c: Clash, start: State) returns (states: seq<State>, steps: seq<Step>, s: State)
    requires c.Valid() && Initial(start) && c.id.pid !in start.dead
    requires c.Temporary() !in start.names && c.Sidecar() !in start.names
    ensures RunsTo(states, steps, start, s) && !NeverClobbersSidecar(states, steps)
    ensures OwnsSidecar(s, 0, Some(c.Temporary())) && OwnsSidecar(s, 2, Some(c.Temporary()))
  {
    Stays(start);
    NamesOf(c);
    var replaced, side := FirstReplaces(c, start, start);
    var free := SecondRemovesSidecar(c, start, replaced, side);
    Begins(c, start, free, 2);
    var created := Added(c, free, c.Temporary(), 2, Created(0, c.id.nonce, free.next));
    Marks(c, start, created, 2, 0, free.next);
    s := Added(c, created, c.Sidecar(), 2, Stage.Held(c.id.nonce, free.next, created.next));
    states, steps :| RunsTo(states, steps, start, s);
    if NeverClobbersSidecar(states, steps) {
      HolderIsUnique(states, steps, |steps|, c.Temporary(), 0, 2);
    }
  }
}
