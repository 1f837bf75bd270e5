/** The automatic synchronization task, the publisher that configures it and the clock, interleaved
    (spotter-svc/src/scheduler.rs, spotter-svc/src/status_publisher.rs). */
module Scheduler {
  import opened Wrappers
  import opened Status

  datatype Input = Input(configured: bool, interval: nat, generation: nat)

  /** A deadline under way: armed at `at` for one `interval` of configuration `generation`. */
  datatype Arm = Arm(at: nat, interval: nat, generation: nat) {
    function Deadline(): nat {
      at + interval
    }
  }

  datatype Phase =
    | Top                                  // about to read the input at the loop top
    | AwaitChange                          // unconfigured, waits for an input change
    | Armed(arm: Arm, first: bool)         // waits for the deadline or an input change
    | Submitting(arm: Arm, first: bool)    // due, the enqueue is outstanding
    | Awaiting(target: nat, first: bool)   // waits for the completion of its target
    | Rearm                                // about to read the input after a completion
    | Stopped

  /** A configuration that was activated, and when. */
  datatype Activation = Activation(configured: bool, interval: nat, at: nat)

  /** An automatic submission: when it was made, under which arming, its target and when the
      task saw that target complete. */
  datatype Submission = Submission(arm: Arm, at: nat, target: nat, doneAt: Option<nat>)

  datatype State = State(
    now: nat,
    activations: seq<Activation>,
    unsent: Option<Input>,        // activated, not yet sent to the task
    input: Input,
    changed: bool,                // the task has not seen this input
    completed: nat,               // the generation of the last completed synchronization
    status: PublicStatus,
    schedule: Schedule,
    phase: Phase,
    submissions: seq<Submission>)

  predicate Initial(s: State) {
    && s.activations == [] && s.unsent.None?
    && s.input == Input(false, 0, 0) && !s.changed
    && s.completed == 0
    && !s.status.configured && s.status.generation == 0
    && s.schedule == Schedule(0, None)
    && s.phase.Top? && s.submissions == []
  }

  /** The next automatic attempt for a task that observed `observed` while `current` is in force. */
  function ProjectNextSync(configured: bool, interval: nat, completedAt: nat, observed: nat, current: nat)
    : (deadline: Option<nat>)
    ensures deadline.Some? <==> configured && interval > 0 && observed == current
    ensures deadline.Some? ==> deadline.value == completedAt + interval
  {
    if !configured || observed != current then None
    else if interval == 0 then None
    else Some(completedAt + interval)
  }

  // ----- Steps

  datatype Event =
    | Tick(elapsed: nat)
    | Activate(configured: bool, interval: nat)
    | SendInput
    | PublishStatus(status: PublicStatus)
    | Complete(generation: nat)
    | ReadInput
    | Wake
    | Due
    | Submit(target: nat)
    | Observe
    | Stop

  predicate Enabled(s: State, e: Event) {
    match e
    case Tick(_) => true
    case Activate(_, _) => s.unsent.None?
    case SendInput => s.unsent.Some?
    case PublishStatus(status) => status.generation == |s.activations|
    case Complete(g) => g > s.completed
    case ReadInput => s.phase.Top? || s.phase.Rearm?
    case Wake => s.changed && (s.phase.AwaitChange? || s.phase.Armed?)
    case Due => s.phase.Armed? && s.now >= s.phase.arm.Deadline()
    case Submit(_) => s.phase.Submitting?
    case Observe => s.phase.Awaiting? && s.completed >= s.phase.target
    case Stop => true
  }

  /** Reading the input clears the schedule, leaves it alone or arms one full interval from now. */
  function ReadingInput(s: State): State {
    var Input(configured, interval, generation) := s.input;
    var seen := s.(changed := false);
    if !configured then seen.(schedule := Schedule(generation, None), phase := AwaitChange)
    else
      match ProjectNextSync(true, interval, s.now, generation, generation)
      case None => seen.(phase := AwaitChange)
      case Some(deadline) =>
        seen.(schedule := Schedule(generation, Some(deadline)),
              phase := Armed(Arm(s.now, interval, generation), s.phase.Top?))
  }

  function Next(s: State, e: Event): State
    requires Enabled(s, e)
  {
    match e
    case Tick(elapsed) => s.(now := s.now + elapsed)
    case Activate(configured, interval) =>
      s.(activations := s.activations + [Activation(configured, interval, s.now)],
         unsent := Some(Input(configured, interval, |s.activations| + 1)))
    case SendInput => s.(input := s.unsent.value, changed := true, unsent := None)
    case PublishStatus(status) => s.(status := status)
    case Complete(g) => s.(completed := g)
    case ReadInput => ReadingInput(s)
    case Wake => s.(changed := false, phase := Top)
    case Due =>
      s.(schedule := Schedule(s.phase.arm.generation, None), phase := Submitting(s.phase.arm, s.phase.first))
    case Submit(target) =>
      s.(submissions := s.submissions + [Submission(s.phase.arm, s.now, target, None)],
         phase := Awaiting(target, s.phase.first))
    case Observe =>
      var last := |s.submissions| - 1;
      s.(submissions := if last < 0 then [] else s.submissions[last := s.submissions[last].(doneAt := Some(s.now))],
         phase := if s.phase.first then Rearm else Top)
    case Stop => s.(phase := Stopped)
  }

  ghost predicate Run(states: seq<State>, events: seq<Event>) {
    && |states| == |events| + 1
    && Initial(states[0])
    && forall i {:trigger events[i]} :: 0 <= i < |events| ==>
         Enabled(states[i], events[i]) && states[i + 1] == Next(states[i], events[i])
  }

  // ----- The invariant

  /** The input is the configuration that was activated under its generation. */
  predicate InputSound(s: State, input: Input) {
    && input.generation <= |s.activations|
    && (input.generation == 0 ==> !input.configured)
    && (input.generation > 0 ==>
          var a := s.activations[input.generation - 1];
          a.configured == input.configured && a.interval == input.interval && a.at <= s.now)
  }

  /** An arming uses the positive interval of a configured activation and not before it. */
  predicate ArmSound(s: State, arm: Arm) {
    && 0 < arm.generation <= |s.activations|
    && arm.interval > 0
    && arm.at <= s.now
    && var a := s.activations[arm.generation - 1];
       a.configured && a.interval == arm.interval && a.at <= arm.at
  }

  predicate Outstanding(s: State) {
    s.phase.Submitting? || s.phase.Awaiting?
  }

  /** A published deadline is one interval, of the activation it names, after some moment in that
      activation; while armed it is the armed deadline, and while a submission is outstanding there is none. */
  predicate ScheduleSound(s: State) {
    && (s.schedule.next.Some? ==>
          var d, g := s.schedule.next.value, s.schedule.generation;
          && 0 < g <= |s.activations|
          && var interval := s.activations[g - 1].interval;
             d >= interval && ArmSound(s, Arm(d - interval, interval, g)))
    && (Outstanding(s) ==> s.schedule.next.None?)
    && (s.phase.Armed? ==> s.schedule == Schedule(s.phase.arm.generation, Some(s.phase.arm.Deadline())))
    && (s.phase.Armed? || s.phase.Submitting? ==> ArmSound(s, s.phase.arm))
    && (s.phase.Submitting? ==> s.now >= s.phase.arm.Deadline())
  }

  predicate SubmissionSound(s: State, sub: Submission) {
    && ArmSound(s, sub.arm)
    && sub.arm.Deadline() <= sub.at <= s.now
    && (sub.doneAt.Some? ==> sub.at <= sub.doneAt.value <= s.now && sub.target <= s.completed)
  }

  ghost predicate AllSound(s: State) {
    forall i :: 0 <= i < |s.submissions| ==> SubmissionSound(s, s.submissions[i])
  }

  /** Every submission is made under an arming begun after the previous target was seen complete. */
  ghost predicate Separated(submissions: seq<Submission>) {
    forall i :: 0 <= i < |submissions| - 1 ==>
      submissions[i].doneAt.Some? && submissions[i].doneAt.value <= submissions[i + 1].arm.at
  }

  predicate LastMatches(phase: Phase, last: Submission) {
    && (phase.Awaiting? ==> last.doneAt.None? && last.target == phase.target)
    && (!phase.Awaiting? && !phase.Stopped? ==> last.doneAt.Some?)
    && (phase.Armed? || phase.Submitting? ==> last.doneAt.value <= phase.arm.at)
  }

  ghost predicate Spaced(s: State) {
    && AllSound(s)
    && Separated(s.submissions)
    && (s.submissions != [] ==> LastMatches(s.phase, s.submissions[|s.submissions| - 1]))
    && (s.phase.Awaiting? ==> s.submissions != [])
  }

  ghost predicate Invariant(s: State) {
    && InputSound(s, s.input)
    && (s.unsent.Some? ==> InputSound(s, s.unsent.value))
    && s.status.generation <= |s.activations|
    && ScheduleSound(s)
    && Spaced(s)
  }

  /** What no step takes back. */
  predicate Later(s: State, t: State) {
    s.now <= t.now && s.completed <= t.completed && s.activations <= t.activations
  }

  lemma NextIsLater(s: State, e: Event)
    requires Enabled(s, e)
    ensures Later(s, Next(s, e))
  {
  }

  lemma InputLater(s: State, t: State, input: Input)
    requires Later(s, t) && InputSound(s, input)
    ensures InputSound(t, input)
  {
  }

  lemma ArmLater(s: State, t: State, arm: Arm)
    requires Later(s, t) && ArmSound(s, arm)
    ensures ArmSound(t, arm)
  {
  }

  lemma SubmissionLater(s: State, t: State, sub: Submission)
    requires Later(s, t) && SubmissionSound(s, sub)
    ensures SubmissionSound(t, sub)
  {
    ArmLater(s, t, sub.arm);
  }

  lemma InvariantStep(s: State, e: Event)
    requires Invariant(s) && Enabled(s, e)
    ensures Invariant(Next(s, e))
  {
    NextIsLater(s, e);
    InputsStep(s, e);
    ScheduleStep(s, e);
    SpacedStep(s, e);
  }

  lemma InputsStep(s: State, e: Event)
    requires InputSound(s, s.input) && (s.unsent.Some? ==> InputSound(s, s.unsent.value)) && Enabled(s, e)
    ensures var t := Next(s, e);
            InputSound(t, t.input) && (t.unsent.Some? ==> InputSound(t, t.unsent.value))
  {
    var t := Next(s, e);
    NextIsLater(s, e);
    InputLater(s, t, s.input);
    if s.unsent.Some? {
      InputLater(s, t, s.unsent.value);
    }
  }

  lemma ScheduleStep(s: State, e: Event)
    requires Enabled(s, e) && ScheduleSound(s) && InputSound(s, s.input)
    ensures ScheduleSound(Next(s, e))
  {
    var t := Next(s, e);
    NextIsLater(s, e);
    match e {
      case ReadInput => ScheduleOfInput(s);
      case Due => ArmLater(s, t, s.phase.arm);
      case _ => ScheduleKept(s, t);
    }
  }

  lemma ScheduleOfInput(s: State)
    requires Enabled(s, ReadInput) && ScheduleSound(s) && InputSound(s, s.input)
    ensures ScheduleSound(Next(s, ReadInput))
  {
    var t := Next(s, ReadInput);
    if t.phase.Armed? {
      assert ArmSound(t, t.phase.arm);
    } else if s.input.configured {
      ScheduleKept(s, t);
    }
  }

  /** The published deadline stays, and so does the arming behind it. */
  lemma ScheduleKept(s: State, t: State)
    requires Later(s, t) && ScheduleSound(s) && t.schedule == s.schedule
    requires t.phase.Armed? || t.phase.Submitting? ==> t.phase == s.phase
    requires Outstanding(t) ==> Outstanding(s)
    ensures ScheduleSound(t)
  {
    if s.schedule.next.Some? {
      var interval := s.activations[s.schedule.generation - 1].interval;
      ArmLater(s, t, Arm(s.schedule.next.value - interval, interval, s.schedule.generation));
    }
    if s.phase.Armed? || s.phase.Submitting? {
      ArmLater(s, t, s.phase.arm);
    }
  }

  lemma SpacedStep(s: State, e: Event)
    requires Invariant(s) && Enabled(s, e)
    ensures Spaced(Next(s, e))
  {
    NextIsLater(s, e);
    match e {
      case Observe => SpacedObserve(s);
      case Submit(target) => SpacedSubmit(s, target);
      case _ => SpacedKept(s, Next(s, e));
    }
  }

  /** The submissions stay, and an arming is the one of before or begins now. */
  lemma SpacedKept(s: State, t: State)
    requires Spaced(s) && Later(s, t) && t.submissions == s.submissions
    requires t.phase.Awaiting? ==> t.phase == s.phase
    requires !t.phase.Awaiting? && !t.phase.Stopped? ==> !s.phase.Awaiting? && !s.phase.Stopped?
    requires t.phase.Armed? || t.phase.Submitting? ==>
               || ((s.phase.Armed? || s.phase.Submitting?) && t.phase.arm == s.phase.arm)
               || t.phase.arm.at == s.now
    ensures Spaced(t)
  {
    forall i | 0 <= i < |s.submissions|
      ensures SubmissionSound(t, t.submissions[i])
    {
      SubmissionLater(s, t, s.submissions[i]);
    }
    if s.submissions != [] {
      assert SubmissionSound(s, s.submissions[|s.submissions| - 1]);
    }
  }

  lemma SpacedObserve(s: State)
    requires Spaced(s) && Enabled(s, Observe)
    ensures Spaced(Next(s, Observe))
  {
    var t, last := Next(s, Observe), |s.submissions| - 1;
    NextIsLater(s, Observe);
    forall i | 0 <= i < |s.submissions|
      ensures SubmissionSound(t, t.submissions[i])
    {
      SubmissionLater(s, t, s.submissions[i]);
    }
    assert forall i :: 0 <= i < last ==> t.submissions[i] == s.submissions[i];
  }

  lemma SpacedSubmit(s: State, target: nat)
    requires Spaced(s) && ScheduleSound(s) && Enabled(s, Submit(target))
    ensures Spaced(Next(s, Submit(target)))
  {
    var t, sub := Next(s, Submit(target)), Submission(s.phase.arm, s.now, target, None);
    NextIsLater(s, Submit(target));
    ArmLater(s, t, s.phase.arm);
    AllSoundThen(s, t, sub);
    SeparatedThen(s.submissions, sub);
  }

  lemma AllSoundThen(s: State, t: State, sub: Submission)
    requires AllSound(s) && Later(s, t) && t.submissions == s.submissions + [sub] && SubmissionSound(t, sub)
    ensures AllSound(t)
  {
    forall i | 0 <= i < |t.submissions|
      ensures SubmissionSound(t, t.submissions[i])
    {
      if i < |s.submissions| {
        SubmissionLater(s, t, s.submissions[i]);
      }
    }
  }

  lemma SeparatedThen(submissions: seq<Submission>, sub: Submission)
    requires Separated(submissions)
    requires submissions != [] ==>
               var last := submissions[|submissions| - 1];
               last.doneAt.Some? && last.doneAt.value <= sub.arm.at
    ensures Separated(submissions + [sub])
  {
  }

  lemma {:induction false} InvariantAlways(states: seq<State>, events: seq<Event>, n: nat)
    requires Run(states, events) && n < |states|
    ensures Invariant(states[n])
  {
    if n > 0 {
      InvariantAlways(states, events, n - 1);
      InvariantStep(states[n - 1], events[n - 1]);
    }
  }

  // ----- What it means

  /** Every automatic submission is made at least the configured interval after its configuration
      was activated and, if there was one before, after the task saw the previous target
      complete. So two submissions are never closer than the later one's interval: nothing is caught up. */
  lemma SubmissionsAreSpaced(states: seq<State>, events: seq<Event>, n: nat, i: nat)
    requires Run(states, events) && n < |states| && i < |states[n].submissions|
    ensures var sub := states[n].submissions[i];
            && 0 < sub.arm.generation <= |states[n].activations|
            && var a := states[n].activations[sub.arm.generation - 1];
               && a.configured && a.interval > 0
               && sub.at >= a.at + a.interval
               && (i > 0 ==>
                     var earlier := states[n].submissions[i - 1];
                     && earlier.doneAt.Some?
                     && earlier.target <= states[n].completed
                     && sub.at >= earlier.doneAt.value + a.interval
                     && sub.at >= earlier.at + a.interval)
  {
    InvariantAlways(states, events, n);
    assert SubmissionSound(states[n], states[n].submissions[i]);
    if i > 0 {
      assert SubmissionSound(states[n], states[n].submissions[i - 1]);
    }
  }

  lemma {:induction false} ActivationsKept(states: seq<State>, events: seq<Event>, i: nat, j: nat)
    requires Run(states, events) && i <= j < |states|
    ensures |states[i].activations| <= |states[j].activations|
    ensures states[i].activations == states[j].activations[..|states[i].activations|]
  {
    if i < j {
      ActivationsKept(states, events, i, j - 1);
      NextIsLater(states[j - 1], events[j - 1]);
    }
  }

  /** A status reader takes the status at one moment and the schedule at a later one. If it shows
      a next synchronization at all, that is one interval after a moment in the very activation
      whose generation the status carries, and no automatic submission is outstanding. */
  lemma TornReadIsTruthful(states: seq<State>, events: seq<Event>, i: nat, j: nat, full: bool)
    requires Run(states, events) && i <= j < |states|
    ensures var response := ProjectStatus(states[i].status, states[j].schedule, full);
            response.next.Some? ==>
              var g := states[i].status.generation;
              && !Outstanding(states[j])
              && 0 < g <= |states[i].activations|
              && var a := states[i].activations[g - 1];
                 && a.configured && a.interval > 0
                 && a.at + a.interval <= response.next.value <= states[j].now + a.interval
  {
    InvariantAlways(states, events, i);
    InvariantAlways(states, events, j);
    ActivationsKept(states, events, i, j);
  }

  lemma ActivatedAndSent(s: State, configured: bool, interval: nat)
    requires Invariant(s) && s.unsent.None?
    ensures Invariant(Next(Next(s, Activate(configured, interval)), SendInput))
  {
    InvariantStep(s, Activate(configured, interval));
    InvariantStep(Next(s, Activate(configured, interval)), SendInput);
  }

  // ----- One whole automatic synchronization

  /** A synchronization is due and nothing has changed; it takes until `finish`, when `done` is complete. */
  predicate CycleMayRun(s: State, target: nat, finish: nat, done: nat) {
    && Enabled(s, Due) && !s.changed && s.unsent.None?
    && finish >= s.now && done > s.completed && done >= target
  }

  /** It is submitted for generation `target`. */
  function Submitted(s: State, target: nat): State
    requires Enabled(s, Due)
  {
    Next(Next(s, Due), Submit(target))
  }

  /** While it is under way time passes, and a configuration may be activated. */
  function Underway(s: State, finish: nat, reconfigured: Option<(bool, nat)>): State
    requires finish >= s.now && s.unsent.None?
  {
    var later := Next(s, Tick(finish - s.now));
    match reconfigured
    case None => later
    case Some(to) => Next(Next(later, Activate(to.0, to.1)), SendInput)
  }

  /** Its completion is seen, and the task reads the input again. */
  function Finished(s: State, done: nat): State
    requires s.phase.Awaiting? && done > s.completed && done >= s.phase.target
  {
    Next(Next(Next(s, Complete(done)), Observe), ReadInput)
  }

  function Cycle(s: State, target: nat, finish: nat, done: nat, reconfigured: Option<(bool, nat)>): State
    requires CycleMayRun(s, target, finish, done)
  {
    Finished(Underway(Submitted(s, target), finish, reconfigured), done)
  }

  lemma FinishedRearms(s: State, done: nat)
    requires s.phase.Awaiting? && done > s.completed && done >= s.phase.target && s.submissions != []
    ensures var t, last := Finished(s, done), |s.submissions| - 1;
            && t.input == s.input && t.now == s.now && t.completed == done && !t.changed
            && t.submissions == s.submissions[last := s.submissions[last].(doneAt := Some(s.now))]
            && (if s.input.configured && s.input.interval > 0 then
                  && t.phase == Armed(Arm(s.now, s.input.interval, s.input.generation), !s.phase.first)
                  && t.schedule == Schedule(s.input.generation, Some(s.now + s.input.interval))
                else
                  t.phase.AwaitChange? && (s.schedule.next.None? ==> t.schedule.next.None?))
  {
  }

  lemma SubmittedUnderway(s: State, target: nat, finish: nat, reconfigured: Option<(bool, nat)>) returns (u: State)
    requires Enabled(s, Due) && !s.changed && s.unsent.None? && finish >= s.now
    ensures u == Underway(Submitted(s, target), finish, reconfigured)
    ensures u.now == finish && u.completed == s.completed
    ensures u.phase == Awaiting(target, s.phase.first) && u.schedule.next.None?
    ensures u.submissions == s.submissions + [Submission(s.phase.arm, s.now, target, None)]
    ensures u.input == match reconfigured
                       case None => s.input
                       case Some(to) => Input(to.0, to.1, |s.activations| + 1)
  {
    u := Underway(Submitted(s, target), finish, reconfigured);
  }

  /** Nothing is caught up: however late this synchronization was, the next deadline counts from its
      end, by the configuration in force then; without an interval there is none. */
  lemma CycleCatchesNothingUp(s: State, target: nat, finish: nat, done: nat, reconfigured: Option<(bool, nat)>)
    requires CycleMayRun(s, target, finish, done)
    ensures var t := Cycle(s, target, finish, done, reconfigured);
            var input := match reconfigured
                         case None => s.input
                         case Some(to) => Input(to.0, to.1, |s.activations| + 1);
            && t.input == input && t.now == finish && t.completed == done && !t.changed
            && t.submissions == s.submissions + [Submission(s.phase.arm, s.now, target, Some(finish))]
            && (if input.configured && input.interval > 0 then
                  && t.phase == Armed(Arm(finish, input.interval, input.generation), !s.phase.first)
                  && t.schedule == Schedule(input.generation, Some(finish + input.interval))
                else t.phase.AwaitChange? && t.schedule.next.None?)
  {
    var u := SubmittedUnderway(s, target, finish, reconfigured);
    FinishedRearms(u, done);
    MarkedDone(s.submissions, Submission(s.phase.arm, s.now, target, None), finish);
  }

  lemma MarkedDone(submissions: seq<Submission>, sub: Submission, finish: nat)
    ensures var seen, last := submissions + [sub], |submissions|;
            seen[last := seen[last].(doneAt := Some(finish))] == submissions + [sub.(doneAt := Some(finish))]
  {
  }

  // ----- The publisher and the task themselves

  class Task {
    var now: nat
    var currentGeneration: nat
    var input: Input
    var changed: bool
    var completed: nat
    var schedule: Schedule
    var phase: Phase
    ghost var activations: seq<Activation>
    ghost var unsent: Option<Input>
    var status: PublicStatus
    ghost var submissions: seq<Submission>

    ghost function View(): State
      reads this
    {
      State(now, activations, unsent, input, changed, completed, status, schedule, phase, submissions)
    }

    constructor (status: PublicStatus)
      requires !status.configured && status.generation == 0
      ensures Initial(View()) && currentGeneration == |activations|
    {
      now, completed, changed, currentGeneration := 0, 0, false, 0;
      input, schedule, phase := Input(false, 0, 0), Schedule(0, None), Top;
      activations, unsent, submissions := [], None, [];
      this.status := status;
    }

    /** Advances the generation and republishes the input of the task. */
    method ActivateConfiguration(configured: bool, interval: nat) returns (generation: nat)
      requires unsent.None? && currentGeneration == |activations| && Invariant(View())
      modifies this`currentGeneration, this`activations, this`input, this`changed
      ensures generation == currentGeneration == |activations| == |old(activations)| + 1
      ensures View() == Next(Next(old(View()), Activate(configured, interval)), SendInput) && Invariant(View())
    {
      ActivatedAndSent(View(), configured, interval);
      currentGeneration := currentGeneration + 1;
      activations := activations + [Activation(configured, interval, now)];
      input, changed := Input(configured, interval, currentGeneration), true;
      generation := currentGeneration;
    }

    /** Publishes committed state under the generation in force. */
    method Publish(state: string, url: string, configured: bool, lastSync: Option<string>,
                   matchedAsset: Option<string>, monitors: seq<string>)
      requires currentGeneration == |activations| && Invariant(View())
      modifies this`status
      ensures status == PublicStatus(state, lastSync, url, matchedAsset, monitors, configured, currentGeneration)
      ensures View() == Next(old(View()), PublishStatus(status)) && Invariant(View())
    {
      status := PublicStatus(state, lastSync, url, matchedAsset, monitors, configured, currentGeneration);
      InvariantStep(old(View()), PublishStatus(status));
    }

    /** The first activation, from the settings loaded at boot. */
    method PublishStartupActivation(configured: bool, url: string, interval: nat, lastSync: Option<string>,
                                    matchedAsset: Option<string>, monitors: seq<string>)
      requires unsent.None? && currentGeneration == |activations| && Invariant(View())
      modifies this`currentGeneration, this`activations, this`input, this`changed, this`status
      ensures currentGeneration == |activations| == |old(activations)| + 1 && Invariant(View())
      ensures input == Input(configured, interval, currentGeneration) && changed
      ensures status == PublicStatus(if configured then "Idle" else "Unconfigured", lastSync, url, matchedAsset,
                                     monitors, configured, currentGeneration)
    {
      var _ := ActivateConfiguration(configured, interval);
      Publish(if configured then "Idle" else "Unconfigured", url, configured, lastSync, matchedAsset, monitors);
    }

    /** The arming at the loop top and after a completion. */
    method ArmFromInput()
      requires (phase.Top? || phase.Rearm?) && Invariant(View())
      modifies this`changed, this`schedule, this`phase
      ensures View() == Next(old(View()), ReadInput) && Invariant(View())
    {
      changed := false;
      if !input.configured {
        schedule := Schedule(input.generation, None);
        phase := AwaitChange;
      } else {
        var deadline := ProjectNextSync(true, input.interval, now, input.generation, input.generation);
        if deadline.None? {
          phase := AwaitChange;
        } else {
          schedule := Schedule(input.generation, deadline);
          phase := Armed(Arm(now, input.interval, input.generation), phase.Top?);
        }
      }
      assert View() == Next(old(View()), ReadInput);
      InvariantStep(old(View()), ReadInput);
    }

    /** One wake-up of a waiting task: an input change wins over an expired deadline. */
    method Poll() returns (acted: bool)
      requires (phase.AwaitChange? || phase.Armed?) && Invariant(View())
      modifies this`changed, this`schedule, this`phase
      ensures acted <==> old(changed) || (old(phase).Armed? && now >= old(phase).arm.Deadline())
      ensures View() == if !acted then old(View()) else Next(old(View()), if old(changed) then Wake else Due)
      ensures Invariant(View())
    {
      if changed {
        InvariantStep(View(), Wake);
        changed, phase := false, Top;
        return true;
      }
      if phase.Armed? && now >= phase.arm.Deadline() {
        InvariantStep(View(), Due);
        schedule := Schedule(phase.arm.generation, None);
        phase := Submitting(phase.arm, phase.first);
        return true;
      }
      acted := false;
    }

    /** The enqueue was accepted or joined a synchronization that was under way. */
    method Enqueued(target: nat)
      requires phase.Submitting? && Invariant(View())
      modifies this`phase, this`submissions
      ensures View() == Next(old(View()), Submit(target)) && Invariant(View())
    {
      InvariantStep(View(), Submit(target));
      submissions := submissions + [Submission(phase.arm, now, target, None)];
      phase := Awaiting(target, phase.first);
    }

    /** The completion of the target, or of a later generation, is visible. */
    method ObserveCompletion()
      requires phase.Awaiting? && completed >= phase.target && Invariant(View())
      modifies this`phase, this`submissions
      ensures View() == Next(old(View()), Observe) && Invariant(View())
    {
      InvariantStep(View(), Observe);
      ghost var last := |submissions| - 1;
      submissions := submissions[last := submissions[last].(doneAt := Some(now))];
      phase := if phase.first then Rearm else Top;
    }

    /** A deadline that has passed becomes a submission. */
    method SubmitDue(target: nat)
      requires Enabled(View(), Due) && !changed && Invariant(View())
      modifies this`phase, this`schedule, this`submissions, this`changed
      ensures View() == Submitted(old(View()), target) && Invariant(View())
    {
      var _ := Poll();
      Enqueued(target);
    }

    method AdvanceClock(to: nat)
      requires to >= now && Invariant(View())
      modifies this`now
      ensures View() == Next(old(View()), Tick(to - old(now))) && Invariant(View())
    {
      InvariantStep(View(), Tick(to - now));
      now := to;
    }

    /** What happens around the task while its request is under way. */
    method PassTime(finish: nat, reconfigured: Option<(bool, nat)>)
      requires finish >= now && unsent.None? && currentGeneration == |activations| && Invariant(View())
      modifies this`now, this`changed, this`input, this`activations, this`currentGeneration
      ensures View() == Underway(old(View()), finish, reconfigured) && Invariant(View())
      ensures currentGeneration == |activations|
    {
      AdvanceClock(finish);
      if reconfigured.Some? {
        var _ := ActivateConfiguration(reconfigured.value.0, reconfigured.value.1);
      }
    }

    method Finish(done: nat)
      requires phase.Awaiting? && done > completed && done >= phase.target && Invariant(View())
      modifies this`completed, this`phase, this`submissions, this`changed, this`schedule
      ensures View() == Finished(old(View()), done) && Invariant(View())
    {
      InvariantStep(View(), Complete(done));
      completed := done;
      ObserveCompletion();
      ArmFromInput();
    }

    /** One whole automatic synchronization, from the expired deadline to the next arming. */
    method AutomaticCycle(target: nat, finish: nat, done: nat, reconfigured: Option<(bool, nat)>)
      requires CycleMayRun(View(), target, finish, done)
      requires currentGeneration == |activations| && Invariant(View())
      modifies this`now, this`completed, this`phase, this`schedule, this`changed, this`submissions, this`input,
               this`activations, this`currentGeneration
      ensures View() == Cycle(old(View()), target, finish, done, reconfigured) && Invariant(View())
    {
      ghost var underway := SubmittedUnderway(View(), target, finish, reconfigured);
      SubmitDue(target);
      PassTime(finish, reconfigured);
      assert View() == underway;
      Finish(done);
    }
  }
}
