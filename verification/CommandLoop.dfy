/** The single-owner command loop: submitters, the bounded queue and the loop, interleaved
    (spotter-svc/src/fsm.rs). */
module CommandLoop {
  import opened Wrappers

  type Caller = nat

  /** A queued command; a synchronization carries the generation it was claimed for. */
  datatype Request = Request(caller: Caller, generation: Option<nat>)

  datatype CallerPhase =
    | Sending(generation: Option<nat>)             // waits for queue space; the claim guard of a sync is armed
    | Submitted(generation: Option<nat>)           // accepted by the queue; the guard is disarmed
    | Coalesced(target: nat, seen: nat)            // waits for another caller's sync; `seen` completions were out
    | Answered(generation: Option<nat>, seen: nat) // got its response after `seen` completions
    | Released(target: nat, seen: nat)             // a coalesced waiter that was let go
    | Gone                                         // dropped its future

  datatype LoopPhase =
    | Receiving
    | Handling(request: Request)
    | Cleared(request: Request)   // the claim is cleared, the completion not yet published
    | Published(request: Request) // the response is still to be sent

  datatype State = State(
    capacity: nat,
    issued: nat,
    slot: Option<nat>,
    queue: seq<Request>,
    phase: LoopPhase,
    published: seq<nat>,
    abandoned: set<nat>,
    callers: map<Caller, CallerPhase>)

  function Completed(s: State): nat {
    if s.published == [] then 0 else s.published[|s.published| - 1]
  }

  ghost predicate Initial(s: State) {
    s == State(s.capacity, 0, None, [], Receiving, [], {}, map[]) && s.capacity > 0
  }

  // ----- Steps

  datatype Event =
    | Claim(caller: Caller)
    | Coalesce(caller: Caller)
    | Command(caller: Caller)
    | Enqueue(caller: Caller)
    | DropSend(caller: Caller)
    | DropResponse(caller: Caller)
    | Receive
    | ClearClaim
    | Publish
    | Respond
    | Release(caller: Caller)

  predicate Enabled(s: State, e: Event) {
    match e
    case Claim(c) => c !in s.callers && s.slot.None?
    case Coalesce(c) => c !in s.callers && s.slot.Some?
    case Command(c) => c !in s.callers
    case Enqueue(c) => c in s.callers && s.callers[c].Sending? && |s.queue| < s.capacity
    case DropSend(c) => c in s.callers && s.callers[c].Sending?
    case DropResponse(c) => c in s.callers && s.callers[c].Submitted?
    case Receive => s.phase.Receiving? && s.queue != []
    case ClearClaim => s.phase.Handling? && s.phase.request.generation.Some?
    case Publish => s.phase.Cleared? && s.phase.request.generation.Some?
    case Respond => s.phase.Published? || (s.phase.Handling? && s.phase.request.generation.None?)
    case Release(c) => c in s.callers && s.callers[c].Coalesced? && Completed(s) >= s.callers[c].target
  }

  function Answer(s: State, r: Request): map<Caller, CallerPhase> {
    if r.caller in s.callers && s.callers[r.caller].Submitted?
    then s.callers[r.caller := Answered(r.generation, |s.published|)]
    else s.callers
  }

  function Next(s: State, e: Event): State
    requires Enabled(s, e)
  {
    match e
    case Claim(c) =>
      var g := s.issued + 1;
      s.(issued := g, slot := Some(g), callers := s.callers[c := Sending(Some(g))])
    case Coalesce(c) => s.(callers := s.callers[c := Coalesced(s.slot.value, |s.published|)])
    case Command(c) => s.(callers := s.callers[c := Sending(None)])
    case Enqueue(c) =>
      var g := s.callers[c].generation;
      s.(queue := s.queue + [Request(c, g)], callers := s.callers[c := Submitted(g)])
    case DropSend(c) =>
      var g := s.callers[c].generation;
      s.(slot := if g.Some? then None else s.slot,
         abandoned := if g.Some? then s.abandoned + {g.value} else s.abandoned,
         callers := s.callers[c := Gone])
    case DropResponse(c) => s.(callers := s.callers[c := Gone])
    case Receive => s.(queue := s.queue[1..], phase := Handling(s.queue[0]))
    case ClearClaim => s.(slot := None, phase := Cleared(s.phase.request))
    case Publish =>
      s.(published := s.published + [s.phase.request.generation.value], phase := Published(s.phase.request))
    case Respond => s.(phase := Receiving, callers := Answer(s, s.phase.request))
    case Release(c) => s.(callers := s.callers[c := Released(s.callers[c].target, s.callers[c].seen)])
  }

  ghost predicate Run(states: seq<State>, events: seq<Event>) {
    && |states| == |events| + 1
    && Initial(states[0])
    && forall i {:trigger events[i]} :: 0 <= i < |events| ==>
         Enabled(states[i], events[i]) && states[i + 1] == Next(states[i], events[i])
  }

  // ----- Who works for a generation

  datatype Owner = Guard(caller: Caller) | Queued(position: nat) | Handler

  /** `o` is an armed guard, a queued request or an unfinished handler of generation `g`. */
  predicate Owns(s: State, o: Owner, g: nat) {
    match o
    case Guard(c) => c in s.callers && s.callers[c] == Sending(Some(g))
    case Queued(i) => i < |s.queue| && s.queue[i].generation == Some(g)
    case Handler => s.phase.Handling? && s.phase.request.generation == Some(g)
  }

  ghost predicate Owned(s: State, g: nat) {
    exists o :: Owns(s, o, g)
  }

  /** At most one synchronization is being sent, queued or executed, and the claim names it. */
  ghost predicate SingleFlight(s: State) {
    && (forall o1, o2, g1, g2 :: Owns(s, o1, g1) && Owns(s, o2, g2) ==> o1 == o2 && g1 == g2)
    && (forall g: nat :: s.slot == Some(g) <==> Owned(s, g))
  }

  predicate Increasing(xs: seq<nat>) {
    forall i, j :: 0 <= i < j < |xs| ==> xs[i] < xs[j]
  }

  /** The generation whose claim is cleared and whose completion is not yet published. */
  function Finishing(s: State): Option<nat> {
    if s.phase.Cleared? then s.phase.request.generation else None
  }

  /** Completions only grow, and a claim lies above everything published or about to be. */
  ghost predicate GenerationsOrdered(s: State) {
    && Increasing(s.published)
    && (forall i :: 0 <= i < |s.published| ==> 0 < s.published[i] <= s.issued)
    && (s.slot.Some? ==> s.slot.value == s.issued && Completed(s) < s.issued)
    && (s.phase.Cleared? ==> s.phase.request.generation.Some?)
    && (Finishing(s).Some? ==>
          && Completed(s) < Finishing(s).value <= s.issued
          && (s.slot.Some? ==> Finishing(s).value < s.issued))
  }

  /** What the waiters rely on. */
  predicate CallerSound(s: State, p: CallerPhase) {
    match p
    case Coalesced(g, seen) =>
      0 < g <= s.issued && seen <= |s.published| && forall i :: 0 <= i < seen ==> s.published[i] < g
    case Answered(Some(g), seen) => seen <= |s.published| && g in s.published[..seen]
    case Released(g, seen) => exists i :: seen <= i < |s.published| && s.published[i] >= g
    case _ => true
  }

  ghost predicate CallersSound(s: State) {
    && (forall c :: c in s.callers ==> CallerSound(s, s.callers[c]))
    && (s.phase.Published? && s.phase.request.generation.Some? ==> s.phase.request.generation.value in s.published)
  }

  /** Every generation handed out is published, given up, claimed, or between clearing and
      publication, and it is only one of these. */
  predicate AccountedFor(s: State, g: nat) {
    var published, abandoned := g in s.published, g in s.abandoned;
    var claimed, finishing := s.slot == Some(g), Finishing(s) == Some(g);
    || (published && !abandoned && !claimed && !finishing)
    || (!published && abandoned && !claimed && !finishing)
    || (!published && !abandoned && claimed && !finishing)
    || (!published && !abandoned && !claimed && finishing)
  }

  ghost predicate Conserved(s: State) {
    && (forall g :: 0 < g <= s.issued ==> AccountedFor(s, g))
    && (forall g :: g in s.abandoned ==> 0 < g <= s.issued)
  }

  ghost predicate Invariant(s: State) {
    SingleFlight(s) && GenerationsOrdered(s) && CallersSound(s) && Conserved(s)
  }

  // ----- Every step keeps the invariant

  lemma SingleFlightStep(s: State, e: Event)
    requires SingleFlight(s) && Enabled(s, e)
    ensures SingleFlight(Next(s, e))
  {
    var t := Next(s, e);
    forall o1, o2, g1, g2 | Owns(t, o1, g1) && Owns(t, o2, g2)
      ensures o1 == o2 && g1 == g2
    {
      OneOwnerAfter(s, e, o1, g1, o2, g2);
    }
    forall g: nat
      ensures t.slot == Some(g) <==> Owned(t, g)
    {
      ClaimOwnedAfter(s, e, g);
    }
  }

  /** Where the owner after a step comes from. */
  function Before(s: State, e: Event, o: Owner): Owner {
    if e.Enqueue? && o == Queued(|s.queue|) then Guard(e.caller)
    else if e.Receive? && o.Queued? then Queued(o.position + 1)
    else if e.Receive? && o.Handler? then Queued(0)
    else o
  }

  lemma OwnerPersists(s: State, e: Event, o: Owner, g: nat)
    requires Enabled(s, e) && Owns(Next(s, e), o, g)
    ensures Owns(s, Before(s, e, o), g) || (e.Claim? && o == Guard(e.caller) && g == s.issued + 1)
  {
  }

  lemma OneOwnerAfter(s: State, e: Event, o1: Owner, g1: nat, o2: Owner, g2: nat)
    requires SingleFlight(s) && Enabled(s, e)
    requires Owns(Next(s, e), o1, g1) && Owns(Next(s, e), o2, g2)
    ensures o1 == o2 && g1 == g2
  {
    OwnerPersists(s, e, o1, g1);
    OwnerPersists(s, e, o2, g2);
    if e.Claim? {
      assert Owns(s, Before(s, e, o1), g1) ==> Owned(s, g1);
      assert Owns(s, Before(s, e, o2), g2) ==> Owned(s, g2);
    }
  }

  lemma ClaimOwnedAfter(s: State, e: Event, g: nat)
    requires SingleFlight(s) && Enabled(s, e)
    ensures Next(s, e).slot == Some(g) <==> Owned(Next(s, e), g)
  {
    var t := Next(s, e);
    if o :| Owns(t, o, g) {
      OwnerPersists(s, e, o, g);
      if Owns(s, Before(s, e, o), g) {
        assert Owned(s, g);
        if e.DropSend? && s.callers[e.caller].generation.Some? {
          assert Owns(s, Guard(e.caller), s.callers[e.caller].generation.value);
        } else if e.ClearClaim? {
          assert Owns(s, Handler, s.phase.request.generation.value);
        }
      }
    } else if t.slot == Some(g) {
      if e.Claim? {
        assert Owns(t, Guard(e.caller), g);
      } else {
        assert Owned(s, g);
        var o :| Owns(s, o, g);
        assert Owns(t, if e.Enqueue? && o == Guard(e.caller) then Queued(|s.queue|)
                       else if e.Receive? && o.Queued? then
                         (if o.position == 0 then Handler else Queued(o.position - 1))
                       else o, g);
      }
    }
  }

  lemma GenerationsStep(s: State, e: Event)
    requires SingleFlight(s) && GenerationsOrdered(s) && Enabled(s, e)
    ensures GenerationsOrdered(Next(s, e))
  {
    match e {
      case ClearClaim => GenerationsCleared(s);
      case Publish => GenerationsPublished(s);
      case _ =>
    }
  }

  lemma GenerationsCleared(s: State)
    requires SingleFlight(s) && GenerationsOrdered(s) && Enabled(s, ClearClaim)
    ensures GenerationsOrdered(Next(s, ClearClaim))
  {
    assert Owns(s, Handler, s.phase.request.generation.value);
    assert Owned(s, s.phase.request.generation.value);
  }

  lemma GenerationsPublished(s: State)
    requires GenerationsOrdered(s) && Enabled(s, Publish)
    ensures GenerationsOrdered(Next(s, Publish))
  {
    IncreasingThen(s.published, s.phase.request.generation.value);
  }

  lemma IncreasingThen(xs: seq<nat>, x: nat)
    requires Increasing(xs) && (xs != [] ==> xs[|xs| - 1] < x)
    ensures Increasing(xs + [x])
  {
    assert forall i :: 0 <= i < |xs| ==> xs[i] <= xs[|xs| - 1];
  }

  lemma CallersStep(s: State, e: Event)
    requires GenerationsOrdered(s) && CallersSound(s) && Enabled(s, e)
    ensures CallersSound(Next(s, e))
  {
    var t := Next(s, e);
    forall c | c in t.callers
      ensures CallerSound(t, t.callers[c])
    {
      CallerStep(s, e, c);
    }
    if e.Publish? {
      assert t.published[|s.published|] == s.phase.request.generation.value;
    }
  }

  lemma CallerStep(s: State, e: Event, c: Caller)
    requires GenerationsOrdered(s) && CallersSound(s) && Enabled(s, e) && c in Next(s, e).callers
    ensures CallerSound(Next(s, e), Next(s, e).callers[c])
  {
    var t := Next(s, e);
    if c in s.callers && s.callers[c] == t.callers[c] {
      CallerKept(s, t, s.callers[c]);
    } else {
      match e {
        case Release(_) => ReleaseSound(s, c);
        case Coalesce(_) => CoalesceSound(s, c);
        case Respond =>
          assert s.published[..|s.published|] == s.published;
        case _ =>
      }
    }
  }

  lemma CallerKept(s: State, t: State, p: CallerPhase)
    requires CallerSound(s, p) && s.issued <= t.issued && s.published <= t.published
    ensures CallerSound(t, p)
  {
    match p {
      case Released(g, seen) =>
        var i :| seen <= i < |s.published| && s.published[i] >= g;
        assert t.published[i] >= g;
      case Answered(Some(g), seen) =>
        assert t.published[..seen] == s.published[..seen];
      case _ =>
    }
  }

  lemma ReleaseSound(s: State, c: Caller)
    requires CallersSound(s) && Enabled(s, Release(c))
    ensures CallerSound(Next(s, Release(c)), Next(s, Release(c)).callers[c])
  {
    assert CallerSound(s, s.callers[c]);
    assert s.published[|s.published| - 1] >= s.callers[c].target;
  }

  lemma CoalesceSound(s: State, c: Caller)
    requires GenerationsOrdered(s) && Enabled(s, Coalesce(c))
    ensures CallerSound(Next(s, Coalesce(c)), Next(s, Coalesce(c)).callers[c])
  {
    assert forall i :: 0 <= i < |s.published| ==> s.published[i] <= Completed(s);
  }

  lemma ConservedStep(s: State, e: Event)
    requires Invariant(s) && Enabled(s, e)
    ensures Conserved(Next(s, e))
  {
    var t := Next(s, e);
    if e.DropSend? && s.callers[e.caller].generation.Some? {
      assert Owns(s, Guard(e.caller), s.callers[e.caller].generation.value);
      assert Owned(s, s.callers[e.caller].generation.value);
    } else if e.ClearClaim? {
      assert Owns(s, Handler, s.phase.request.generation.value);
      assert Owned(s, s.phase.request.generation.value);
    }
    forall g | 0 < g <= t.issued
      ensures AccountedFor(t, g)
    {
      assert 0 < g <= s.issued ==> AccountedFor(s, g);
      assert g in t.published <==> g in s.published || (e.Publish? && Finishing(s) == Some(g));
    }
  }

  lemma InvariantStep(s: State, e: Event)
    requires Invariant(s) && Enabled(s, e)
    ensures Invariant(Next(s, e))
  {
    SingleFlightStep(s, e);
    GenerationsStep(s, e);
    CallersStep(s, e);
    ConservedStep(s, e);
  }

  /** Single flight, ordered and conserved generations and sound waiters in every state of every
      run, whatever the interleaving and whoever is cancelled. */
  lemma {:induction false} InvariantAlways(states: seq<State>, events: seq<Event>, n: nat)
    requires Run(states, events) && n < |states|
    ensures Invariant(states[n])
  {
    if n > 0 {
      InvariantAlways(states, events, n - 1);
      InvariantStep(states[n - 1], events[n - 1]);
    }
  }

  // ----- What callers observe

  /** A published completion was published by an event of the run. */
  lemma {:induction false} PublishedBy(states: seq<State>, events: seq<Event>, j: nat, n: nat, index: nat)
    returns (k: nat)
    requires Run(states, events) && j <= n < |states|
    requires |states[j].published| <= index < |states[n].published|
    ensures j <= k < n && events[k] == Publish
    ensures states[k].phase.request.generation == Some(states[n].published[index])
  {
    assert states[n] == Next(states[n - 1], events[n - 1]);
    if |states[n - 1].published| <= index {
      k := n - 1;
    } else {
      k := PublishedBy(states, events, j, n - 1, index);
    }
  }

  lemma {:induction false} WaiterStays(states: seq<State>, events: seq<Event>, j: nat, n: nat, c: Caller)
    requires Run(states, events) && j < n < |states|
    requires events[j] == Coalesce(c) && c in states[n].callers && states[n].callers[c].Coalesced?
    ensures states[n].callers[c] == Coalesced(states[j].slot.value, |states[j].published|)
    decreases n
  {
    assert states[n] == Next(states[n - 1], events[n - 1]);
    if n > j + 1 {
      CallersKept(states, events, j + 1, n - 1, c);
      WaiterStays(states, events, j, n - 1, c);
    }
  }

  lemma {:induction false} CallersKept(states: seq<State>, events: seq<Event>, j: nat, n: nat, c: Caller)
    requires Run(states, events) && j <= n < |states| && c in states[j].callers
    ensures c in states[n].callers
  {
    if j < n {
      CallersKept(states, events, j, n - 1, c);
      assert states[n] == Next(states[n - 1], events[n - 1]);
    }
  }

  /** A waiter that joined another caller's synchronization is let go only after a completion,
      published after it joined, of that synchronization or a later one. */
  lemma WaiterReleasedByLaterCompletion(states: seq<State>, events: seq<Event>, j: nat, n: nat, c: Caller)
    returns (k: nat)
    requires Run(states, events) && j < n < |events|
    requires events[j] == Coalesce(c) && events[n] == Release(c)
    ensures j < k < n && events[k] == Publish
    ensures states[k].phase.request.generation.Some?
    ensures states[k].phase.request.generation.value >= states[j].slot.value > Completed(states[j])
  {
    WaiterStays(states, events, j, n, c);
    InvariantAlways(states, events, j);
    InvariantAlways(states, events, n);
    assert CallerSound(states[n], states[n].callers[c]);
    k := PublishedBy(states, events, j, n, |states[n].published| - 1);
  }

  /** The response to an accepted synchronization is sent only after its generation is published. */
  lemma ResponseFollowsCompletion(states: seq<State>, events: seq<Event>, n: nat, g: nat) returns (k: nat)
    requires Run(states, events) && n < |events| && events[n] == Respond
    requires states[n].phase.request.generation == Some(g)
    ensures k < n && events[k] == Publish && states[k].phase.request.generation == Some(g)
  {
    InvariantAlways(states, events, n);
    var index :| 0 <= index < |states[n].published| && states[n].published[index] == g;
    k := PublishedBy(states, events, 0, n, index);
  }

  /** A waiter whose generation is not complete is still worked for exactly when that generation
      was not given up by the caller that claimed it. */
  lemma WaiterServedIffNotAbandoned(s: State, c: Caller)
    requires Invariant(s) && c in s.callers && s.callers[c].Coalesced?
    requires Completed(s) < s.callers[c].target
    ensures var g := s.callers[c].target;
            g !in s.abandoned <==> Owned(s, g) || Finishing(s) == Some(g)
  {
    var g := s.callers[c].target;
    assert CallerSound(s, s.callers[c]) && AccountedFor(s, g);
    assert forall i :: 0 <= i < |s.published| ==> s.published[i] <= Completed(s);
    assert s.slot == Some(g) <==> Owned(s, g);
  }

  /** So a waiter can be left behind: one caller claims, another joins, the first is cancelled
      while it waits for queue space. Nothing is in flight, and only a new claim can help. */
  lemma CancelledSenderStrandsWaiter(capacity: nat) returns (states: seq<State>, events: seq<Event>)
    requires capacity > 0
    ensures Run(states, events)
    ensures var s := states[|states| - 1];
            && 1 in s.callers && s.callers[1] == Coalesced(1, 0) && 1 in s.abandoned
            && s.slot.None? && s.queue == [] && s.phase.Receiving?
            && forall e :: Enabled(s, e) ==> e.Claim? || e.Command?
  {
    var s0 := State(capacity, 0, None, [], Receiving, [], {}, map[]);
    var s1 := Next(s0, Claim(0));
    var s2 := Next(s1, Coalesce(1));
    var s3 := Next(s2, DropSend(0));
    states, events := [s0, s1, s2, s3], [Claim(0), Coalesce(1), DropSend(0)];
  }

  // ----- Whole rounds of the loop

  /** The state after the oldest request has been taken, handled and answered. */
  function Served(s: State): State
    requires s.phase.Receiving? && s.queue != []
  {
    var taken := Next(s, Receive);
    if taken.phase.request.generation.Some? then Next(Next(Next(taken, ClearClaim), Publish), Respond)
    else Next(taken, Respond)
  }

  /** The synchronizations among some requests, oldest first. */
  function Generations(queue: seq<Request>): seq<nat> {
    if queue == [] then []
    else
      var last := queue[|queue| - 1].generation;
      Generations(queue[..|queue| - 1]) + if last.Some? then [last.value] else []
  }

  /** Every caller of a request that still waits for it is answered, and nobody else notices. */
  ghost predicate Answers(before: map<Caller, CallerPhase>, after: map<Caller, CallerPhase>, requests: seq<Request>) {
    && after.Keys == before.Keys
    && forall c :: c in before ==>
         if before[c].Submitted? && (exists r :: r in requests && r.caller == c) then after[c].Answered?
         else after[c] == before[c]
  }

  /** The waiter is let go, unless its generation was given up or its sender still waits for space in the queue. */
  ghost predicate Releasable(s: State, c: Caller)
    requires c in s.callers && s.callers[c].Coalesced?
  {
    var g := s.callers[c].target;
    || Enabled(s, Release(c))
    || g in s.abandoned
    || exists d :: d in s.callers && s.callers[d] == Sending(Some(g))
  }

  lemma ServedChanges(s: State)
    requires s.phase.Receiving? && s.queue != []
    ensures var t, r := Served(s), s.queue[0];
            && t.phase.Receiving? && t.queue == s.queue[1..]
            && t.issued == s.issued && t.abandoned == s.abandoned
            && t.published == s.published + Generations([r])
            && t.slot == (if r.generation.Some? then None else s.slot)
            && Answers(s.callers, t.callers, [r])
  {
    assert [s.queue[0]][..0] == [];
    assert s.queue[0] in [s.queue[0]];
  }

  lemma OneMore(queue: seq<Request>, done: nat)
    requires done < |queue|
    ensures Generations(queue[..done + 1]) == Generations(queue[..done]) + Generations([queue[done]])
    ensures queue[done..][1..] == queue[done + 1..] && queue[..done + 1] == queue[..done] + [queue[done]]
  {
    assert queue[..done + 1][..done] == queue[..done];
    assert [queue[done]][..0] == [];
  }

  lemma AnswersThen(a: map<Caller, CallerPhase>, b: map<Caller, CallerPhase>, c: map<Caller, CallerPhase>,
                    done: seq<Request>, r: Request)
    requires Answers(a, b, done) && Answers(b, c, [r])
    ensures Answers(a, c, done + [r])
  {
    forall x | x in a
      ensures if a[x].Submitted? && (exists q :: q in done + [r] && q.caller == x) then c[x].Answered? else c[x] == a[x]
    {
      assert r in [r] && r in done + [r];
      assert forall q :: q in done ==> q in done + [r];
    }
  }

  /** With the queue empty and the loop idle, only a sender can still own a generation. */
  lemma DrainedReleases(s: State)
    requires Invariant(s) && s.phase.Receiving? && s.queue == []
    ensures forall c :: c in s.callers && s.callers[c].Coalesced? ==> Releasable(s, c)
  {
    forall c | c in s.callers && s.callers[c].Coalesced?
      ensures Releasable(s, c)
    {
      var g := s.callers[c].target;
      if Completed(s) < g && g !in s.abandoned {
        WaiterServedIffNotAbandoned(s, c);
        var o :| Owns(s, o, g);
        assert s.callers[o.caller] == Sending(Some(g));
      }
    }
  }

  // ----- The shared state and the sections that run under its lock

  class Service {
    const capacity: nat
    var issued: nat
    var slot: Option<nat>
    var queue: seq<Request>
    var phase: LoopPhase
    var published: seq<nat>
    var callers: map<Caller, CallerPhase>
    ghost var abandoned: set<nat>

    ghost function View(): State
      reads this
    {
      State(capacity, issued, slot, queue, phase, published, abandoned, callers)
    }

    constructor (capacity: nat)
      requires capacity > 0
      ensures Initial(View())
    {
      this.capacity := capacity;
      issued, slot, queue, phase := 0, None, [], Receiving;
      published, abandoned, callers := [], {}, map[];
    }

    /** Allocates a generation and claims it, or joins the one that is claimed. */
    method BeginSync(c: Caller) returns (target: nat, coalesced: bool)
      requires c !in callers && Invariant(View())
      modifies this
      ensures coalesced <==> old(slot).Some?
      ensures target == if coalesced then old(slot).value else old(issued) + 1
      ensures View() == Next(old(View()), if coalesced then Coalesce(c) else Claim(c))
      ensures Invariant(View()) && target > Completed(View())
    {
      InvariantStep(View(), if slot.Some? then Coalesce(c) else Claim(c));
      if slot.Some? {
        callers := callers[c := Coalesced(slot.value, |published|)];
        return slot.value, true;
      }
      issued := issued + 1;
      slot := Some(issued);
      callers := callers[c := Sending(slot)];
      return issued, false;
    }

    /** Hands the request to the queue when there is space, which also disarms the guard. */
    method TrySend(c: Caller) returns (accepted: bool)
      requires c in callers && callers[c].Sending? && Invariant(View())
      modifies this
      ensures accepted <==> |old(queue)| < capacity
      ensures View() == if accepted then Next(old(View()), Enqueue(c)) else old(View())
      ensures Invariant(View())
    {
      if |queue| >= capacity {
        return false;
      }
      InvariantStep(View(), Enqueue(c));
      var generation := callers[c].generation;
      queue := queue + [Request(c, generation)];
      callers := callers[c := Submitted(generation)];
      accepted := true;
    }

    /** The future is dropped while it waits for space: an armed guard clears the claim. */
    method CancelSend(c: Caller)
      requires c in callers && callers[c].Sending? && Invariant(View())
      modifies this
      ensures View() == Next(old(View()), DropSend(c))
      ensures Invariant(View())
    {
      InvariantStep(View(), DropSend(c));
      var generation := callers[c].generation;
      if generation.Some? {
        slot := None;
        abandoned := abandoned + {generation.value};
      }
      callers := callers[c := Gone];
    }

    /** The loop takes the next request and runs its handler. */
    method ReceiveRequest()
      requires phase.Receiving? && queue != [] && Invariant(View())
      modifies this
      ensures View() == Next(old(View()), Receive)
      ensures Invariant(View())
    {
      InvariantStep(View(), Receive);
      phase := Handling(queue[0]);
      queue := queue[1..];
    }

    /** The handler of a synchronization has returned: its claim is cleared. */
    method ClearAfterHandler()
      requires phase.Handling? && phase.request.generation.Some? && Invariant(View())
      modifies this
      ensures View() == Next(old(View()), ClearClaim)
      ensures Invariant(View())
    {
      InvariantStep(View(), ClearClaim);
      slot := None;
      phase := Cleared(phase.request);
    }

    method PublishCompletion()
      requires phase.Cleared? && Invariant(View())
      modifies this
      ensures View() == Next(old(View()), Publish)
      ensures Invariant(View()) && Increasing(published) && Completed(View()) > Completed(old(View()))
    {
      InvariantStep(View(), Publish);
      published := published + [phase.request.generation.value];
      phase := Published(phase.request);
    }

    method SendResponse()
      requires Enabled(View(), Respond) && Invariant(View())
      modifies this
      ensures View() == Next(old(View()), Respond)
      ensures Invariant(View())
    {
      InvariantStep(View(), Respond);
      var request := phase.request;
      if request.caller in callers && callers[request.caller].Submitted? {
        callers := callers[request.caller := Answered(request.generation, |published|)];
      }
      phase := Receiving;
    }

    /** A finished synchronization gives up its claim and then publishes its generation. */
    method FinishSync()
      requires Enabled(View(), ClearClaim) && Invariant(View())
      modifies this
      ensures View() == Next(Next(old(View()), ClearClaim), Publish) && Invariant(View())
    {
      ClearAfterHandler();
      PublishCompletion();
    }

    /** One round of the loop: the oldest request is taken, handled and answered. A synchronization
        gives up its claim and publishes its generation before the answer. */
    method ServeNext()
      requires phase.Receiving? && queue != [] && Invariant(View())
      modifies this
      ensures View() == Served(old(View())) && Invariant(View())
    {
      ReceiveRequest();
      if phase.request.generation.Some? {
        FinishSync();
      }
      SendResponse();
    }

    /** The loop with nobody else acting, until the queue is empty. */
    method ServeAll()
      requires phase.Receiving? && Invariant(View())
      modifies this
      ensures phase.Receiving? && queue == [] && Invariant(View())
      ensures issued == old(issued) && abandoned == old(abandoned)
      ensures published == old(published) + Generations(old(queue))
      ensures slot == if Generations(old(queue)) == [] then old(slot) else None
      ensures Answers(old(callers), callers, old(queue))
      ensures forall c :: c in callers && callers[c].Coalesced? ==> Releasable(View(), c)
    {
      ghost var done := 0;
      while queue != []
        invariant done + |queue| == |old(queue)| && queue == old(queue)[done..]
        invariant phase.Receiving? && Invariant(View())
        invariant issued == old(issued) && abandoned == old(abandoned)
        invariant published == old(published) + Generations(old(queue)[..done])
        invariant slot == if Generations(old(queue)[..done]) == [] then old(slot) else None
        invariant Answers(old(callers), callers, old(queue)[..done])
        decreases |queue|
      {
        ghost var before := View();
        ServeNext();
        ServedChanges(before);
        OneMore(old(queue), done);
        AnswersThen(old(callers), before.callers, callers, old(queue)[..done], before.queue[0]);
        done := done + 1;
      }
      assert old(queue)[..done] == old(queue);
      DrainedReleases(View());
    }
  }
}
