/**
 The auto-build protocol of the staging mount: file syncs, a debounce timer whose
 callbacks start builds, and build goroutines that finish, interleaved freely.
 Each step is one critical section under the build lock, or one step outside it.
 */
module AutoBuild {

  /** The fields protected by the build lock, and whether the timer is armed. */
  datatype Flags = Flags(running: bool, pending: bool, armed: bool)

  function Scheduled(f: Flags): Flags {
    f.(pending := true, armed := true)
  }

  predicate Launches(f: Flags) {
    !f.running && f.pending
  }

  function Triggered(f: Flags): Flags {
    if Launches(f) then f.(running := true, pending := false) else f
  }

  function Released(f: Flags, conflict: bool): Flags {
    f.(running := false, pending := f.pending || conflict)
  }

  /** The mounter's build state, updated in place by each critical section. */
  class Mounter {
    var buildRunning: bool
    var buildPending: bool
    var timerArmed: bool

    constructor ()
      ensures View() == Flags(false, false, false)
    {
      buildRunning, buildPending, timerArmed := false, false, false;
    }

    function View(): Flags
      reads this
    {
      Flags(buildRunning, buildPending, timerArmed)
    }

    /** Marks a build as pending and (re-)arms the debounce timer. */
    method ScheduleBuild()
      modifies this
      ensures View() == Scheduled(old(View()))
    {
      buildPending := true;
      timerArmed := true;
    }

    /** The timer elapses; its callback runs TriggerBuild on its own goroutine. */
    method Elapse()
      requires timerArmed
      modifies this
      ensures View() == old(View()).(armed := false)
    {
      timerArmed := false;
    }

    /** Takes the build slot unless a build is running or none is wanted. */
    method TriggerBuild() returns (launch: bool)
      modifies this
      ensures launch == Launches(old(View()))
      ensures View() == Triggered(old(View()))
    {
      if buildRunning {
        return false;
      }
      if !buildPending {
        return false;
      }
      buildRunning := true;
      buildPending := false;
      launch := true;
    }

    /** Gives the slot back; `again` is whether the goroutine must schedule once more. */
    method FinishBuild(conflict: bool) returns (again: bool)
      modifies this
      ensures again == (conflict || old(View()).pending)
      ensures View() == Released(old(View()), conflict)
    {
      buildRunning := false;
      if conflict {
        buildPending := true;
        again := true;
      } else {
        again := buildPending;
      }
    }
  }

  // ----- the interleaved system

  /** The server's answer to a build request; `Refused` is the status 409. */
  datatype Outcome = Built | Broken | Refused

  /** A build goroutine before it gives its slot back; `seen` is the sync its request came after. */
  datatype Build = Launching | InFlight(seen: nat) | Answered(outcome: Outcome)

  /**
   `syncs` counts completed uploads, `tried` is the sync after which the last
   build not refused was requested and `broken` whether that build failed.
   `syncers` have uploaded and not yet scheduled, `callbacks` wait for the lock,
   `again` finishers will schedule and `done` finishers will not.
   */
  datatype State = State(flags: Flags, syncs: nat, tried: nat, broken: bool,
                         syncers: nat, callbacks: nat, again: nat, done: nat, builds: multiset<Build>)

  const START := State(Flags(false, false, false), 0, 0, false, 0, 0, 0, 0, multiset{})

  datatype Step =
    | Sync | ScheduleSync | ScheduleAgain | Fire | Trigger
    | Send | Answer(seen: nat, outcome: Outcome) | Release(outcome: Outcome) | Exit

  predicate Enabled(s: State, step: Step) {
    match step
    case Sync => true
    case ScheduleSync => s.syncers > 0
    case ScheduleAgain => s.again > 0
    case Fire => s.flags.armed
    case Trigger => s.callbacks > 0
    case Send => Launching in s.builds
    case Answer(seen, _) => InFlight(seen) in s.builds
    case Release(outcome) => Answered(outcome) in s.builds
    case Exit => s.done > 0
  }

  function Apply(s: State, step: Step): State
    requires Enabled(s, step)
  {
    match step
    case Sync => s.(syncs := s.syncs + 1, syncers := s.syncers + 1)
    case ScheduleSync => s.(syncers := s.syncers - 1, flags := Scheduled(s.flags))
    case ScheduleAgain => s.(again := s.again - 1, flags := Scheduled(s.flags))
    case Fire => s.(flags := s.flags.(armed := false), callbacks := s.callbacks + 1)
    case Trigger =>
      s.(callbacks := s.callbacks - 1, flags := Triggered(s.flags),
         builds := if Launches(s.flags) then s.builds + multiset{Launching} else s.builds)
    case Send => s.(builds := s.builds - multiset{Launching} + multiset{InFlight(s.syncs)})
    case Answer(seen, outcome) =>
      var t := s.(builds := s.builds - multiset{InFlight(seen)} + multiset{Answered(outcome)});
      if outcome == Refused then t else t.(tried := seen, broken := outcome == Broken)
    case Release(outcome) =>
      var more := outcome == Refused || s.flags.pending;
      s.(builds := s.builds - multiset{Answered(outcome)}, flags := Released(s.flags, outcome == Refused),
         again := s.again + (if more then 1 else 0), done := s.done + (if more then 0 else 1))
    case Exit => s.(done := s.done - 1)
  }

  /** The states that the steps lead through. */
  ghost predicate Follows(run: seq<State>, steps: seq<Step>) {
    |run| == |steps| + 1 &&
    forall i :: 0 <= i < |steps| ==> Enabled(run[i], steps[i]) && run[i + 1] == Apply(run[i], steps[i])
  }

  // ----- what every step keeps

  /** Some goroutine or the timer will still look at `pending`. */
  predicate WakeupComing(s: State) {
    s.flags.armed || s.callbacks > 0 || s.flags.running || s.again > 0
  }

  /** The newest sync is still on its way into a build. */
  predicate BuildComing(s: State) {
    || s.flags.pending || s.syncers > 0 || s.again > 0
    || Launching in s.builds || InFlight(s.syncs) in s.builds || Answered(Refused) in s.builds
  }

  ghost predicate Inv(s: State) {
    && |s.builds| == (if s.flags.running then 1 else 0)
    && (s.flags.pending ==> WakeupComing(s))
    && s.tried <= s.syncs
    && (s.tried < s.syncs ==> BuildComing(s))
    && (forall b :: b in s.builds && b.InFlight? ==> s.tried <= b.seen <= s.syncs)
  }

  lemma OnlyOne(m: multiset<Build>, b: Build)
    requires |m| <= 1 && b in m
    ensures m == multiset{b}
  {
    assert |m - multiset{b}| == 0;
    assert m - multiset{b} == multiset{};
    assert m == (m - multiset{b}) + multiset{b};
  }

  /** The builds before and after a step, as the one build that there is or none. */
  lemma BuildsStep(s: State, step: Step)
    requires Inv(s) && Enabled(s, step)
    ensures match step
            case Trigger =>
              Launches(s.flags) ==> s.builds == multiset{} && Apply(s, step).builds == multiset{Launching}
            case Send => s.builds == multiset{Launching} && Apply(s, step).builds == multiset{InFlight(s.syncs)}
            case Answer(seen, outcome) =>
              s.builds == multiset{InFlight(seen)} && Apply(s, step).builds == multiset{Answered(outcome)}
            case Release(outcome) => s.builds == multiset{Answered(outcome)} && Apply(s, step).builds == multiset{}
            case _ => Apply(s, step).builds == s.builds
  {
    match step
    case Trigger => assert Launches(s.flags) ==> s.builds == multiset{};
    case Send => OnlyOne(s.builds, Launching);
    case Answer(seen, _) => OnlyOne(s.builds, InFlight(seen));
    case Release(outcome) => OnlyOne(s.builds, Answered(outcome));
    case _ =>
  }

  lemma InvStep(s: State, step: Step)
    requires Inv(s) && Enabled(s, step)
    ensures Inv(Apply(s, step))
  {
    BuildsStep(s, step);
  }

  lemma {:induction false} InvAlways(run: seq<State>, steps: seq<Step>, i: nat)
    requires Follows(run, steps) && Inv(run[0]) && i < |run|
    ensures Inv(run[i])
  {
    if i > 0 {
      InvAlways(run, steps, i - 1);
      InvStep(run[i - 1], steps[i - 1]);
    }
  }

  predicate Quiet(s: State) {
    !s.flags.armed && !s.flags.running && s.syncers == 0 && s.callbacks == 0 && s.again == 0 && s.done == 0
  }

  /** The last build that was not refused has built the newest sync. */
  predicate UpToDate(s: State) {
    s.tried == s.syncs && !s.broken
  }

  /**
   In every interleaving at most one build is under way, and whenever nothing is
   left to run, no sync is newer than the request of the last build that was not
   refused. The newest sync is then built exactly when that build did not fail.
   */
  lemma NoChangeIsLost(run: seq<State>, steps: seq<Step>, i: nat)
    requires Follows(run, steps) && run[0] == START && i < |run|
    ensures var s := run[i];
            && |s.builds| <= 1
            && (Quiet(s) ==> s.tried == s.syncs && !s.flags.pending && s.builds == multiset{})
            && (Quiet(s) ==> (UpToDate(s) <==> !s.broken))
  {
    InvAlways(run, steps, i);
  }

  lemma Extend(run: seq<State>, steps: seq<Step>, step: Step) returns (run': seq<State>, steps': seq<Step>)
    requires Follows(run, steps) && Enabled(run[|run| - 1], step)
    ensures Follows(run', steps') && run' != [] && run'[0] == run[0] && steps' == steps + [step]
    ensures run'[|run'| - 1] == Apply(run[|run| - 1], step)
  {
    hide Enabled, Apply;
    run', steps' := run + [Apply(run[|run| - 1], step)], steps + [step];
    forall i | 0 <= i < |steps'| ensures Enabled(run'[i], steps'[i]) && run'[i + 1] == Apply(run'[i], steps'[i]) {
      if i < |steps| {
        assert run'[i] == run[i] && run'[i + 1] == run[i + 1] && steps'[i] == steps[i];
      } else {
        assert run'[i] == run[|run| - 1];
      }
    }
  }

  /** A launched build is requested and answered. */
  lemma Requested(run: seq<State>, steps: seq<Step>, outcome: Outcome) returns (run': seq<State>, steps': seq<Step>)
    requires Follows(run, steps) && run[|run| - 1].builds == multiset{Launching} && outcome != Refused
    ensures Follows(run', steps') && run' != [] && run'[0] == run[0]
    ensures var s := run[|run| - 1];
            && steps' == steps + [Send, Answer(s.syncs, outcome)]
            && run'[|run'| - 1] == s.(builds := multiset{Answered(outcome)}, tried := s.syncs, broken := outcome == Broken)
  {
    var s := run[|run| - 1];
    hide Follows;
    run', steps' := Extend(run, steps, Send);
    assert run'[|run'| - 1] == s.(builds := multiset{InFlight(s.syncs)});
    run', steps' := Extend(run', steps', Answer(s.syncs, outcome));
  }

  /** A sync is scheduled and the timer fires. */
  lemma Synced(run: seq<State>, steps: seq<Step>) returns (run': seq<State>, steps': seq<Step>)
    requires Follows(run, steps) && run[|run| - 1].syncers == 0
    ensures Follows(run', steps') && run' != [] && run'[0] == run[0]
    ensures var s := run[|run| - 1];
            run'[|run'| - 1] == s.(syncs := s.syncs + 1, callbacks := s.callbacks + 1,
                                   flags := s.flags.(pending := true, armed := false))
  {
    var s := run[|run| - 1];
    hide Follows;
    run', steps' := Extend(run, steps, Sync);
    run', steps' := Extend(run', steps', ScheduleSync);
    assert run'[|run'| - 1] == s.(syncs := s.syncs + 1, flags := Scheduled(s.flags));
    run', steps' := Extend(run', steps', Fire);
  }

  /** One sync and the launch of its build. */
  lemma Launched() returns (run: seq<State>, steps: seq<Step>)
    ensures Follows(run, steps) && run != [] && run[0] == START
    ensures run[|run| - 1] == State(Flags(true, false, false), 1, 0, false, 0, 0, 0, 0, multiset{Launching})
  {
    run, steps := [START], [];
    run, steps := Synced(run, steps);
    hide Follows;
    run, steps := Extend(run, steps, Trigger);
    assert run[|run| - 1].builds == multiset{Launching};
  }

  /** One sync, one build that fails: nothing is tried again and the sync stays unbuilt. */
  lemma FailedBuildIsFinal() returns (run: seq<State>, steps: seq<Step>)
    ensures Follows(run, steps) && run[0] == START
    ensures var s := run[|run| - 1]; Quiet(s) && s.syncs == 1 && !UpToDate(s)
  {
    run, steps := Launched();
    run, steps := Requested(run, steps, Broken);
    run, steps := Extend(run, steps, Release(Broken));
    run, steps := Extend(run, steps, Exit);
  }

  // ----- coming to rest

  /** A step that is neither a new file change nor a refusal by the server. */
  predicate Cooperative(step: Step) {
    step != Sync && !(step.Answer? && step.outcome == Refused)
  }

  /** A build launched while a finished one has still to schedule: it takes the mark meant for that. */
  predicate Hasty(s: State, step: Step) {
    step == Trigger && Launches(s.flags) && s.again > 0
  }

  function Weight(b: multiset<Build>): nat {
    if Launching in b then 6 else if b == multiset{} then 0
    else if Answered(Built) in b || Answered(Broken) in b || Answered(Refused) in b then 4 else 5
  }

  /** The launches to come. */
  function Wanted(s: State): nat {
    (if s.flags.pending || s.again > 0 then 1 else 0) + s.syncers + (if Answered(Refused) in s.builds then 1 else 0)
  }

  /** A bound for the steps to come. */
  function Effort(s: State): nat {
    6 * Wanted(s) +
    3 * s.syncers + 3 * s.again + s.done + s.callbacks + (if s.flags.armed then 2 else 0) + Weight(s.builds)
  }

  /** Every cooperative step lowers the bound, but a hasty launch, which raises it by at most five. */
  lemma EffortFalls(s: State, step: Step)
    requires Inv(s) && Enabled(s, step) && Cooperative(step)
    ensures Effort(Apply(s, step)) <= if Hasty(s, step) then Effort(s) + 5 else Effort(s) - 1
  {
    BuildsStep(s, step);
  }

  /** How many of the first n steps are hasty. */
  function Hastes(run: seq<State>, steps: seq<Step>, n: nat): nat
    requires n <= |steps| && n <= |run|
  {
    if n == 0 then 0 else Hastes(run, steps, n - 1) + if Hasty(run[n - 1], steps[n - 1]) then 1 else 0
  }

  lemma {:induction false} StepsBounded(run: seq<State>, steps: seq<Step>, n: nat)
    requires Follows(run, steps) && Inv(run[0]) && n <= |steps|
    requires forall i :: 0 <= i < |steps| ==> Cooperative(steps[i])
    ensures Effort(run[n]) + n <= Effort(run[0]) + 6 * Hastes(run, steps, n)
  {
    if n > 0 {
      hide Inv, Apply, Effort, Hasty, Enabled, Cooperative;
      StepsBounded(run, steps, n - 1);
      InvAlways(run, steps, n - 1);
      EffortFalls(run[n - 1], steps[n - 1]);
    }
  }

  /** The next step towards rest: builds first, then scheduling, then callbacks and the timer. */
  ghost function Advance(s: State): (step: Step)
    requires Inv(s) && !Quiet(s)
    ensures Enabled(s, step) && Cooperative(step) && !Hasty(s, step)
  {
    if s.builds != multiset{} then
      var b :| b in s.builds;
      match b
      case Launching => Send
      case InFlight(seen) => Answer(seen, Built)
      case Answered(outcome) => Release(outcome)
    else if s.syncers > 0 then ScheduleSync
    else if s.again > 0 then ScheduleAgain
    else if s.done > 0 then Exit
    else if s.callbacks > 0 then Trigger
    else Fire
  }

  /**
   Without new syncs and refusals, the length of every run is bounded by its first
   state and its hasty launches: a run goes on for ever only if it launches hastily
   for ever. One that has come to rest, or that only a hasty launch could go on
   from, is quiet, and its newest sync was tried.
   */
  lemma SettlesUnlessHasty(run: seq<State>, steps: seq<Step>)
    requires Follows(run, steps) && Inv(run[0])
    requires forall i :: 0 <= i < |steps| ==> Cooperative(steps[i])
    ensures |steps| <= Effort(run[0]) + 6 * Hastes(run, steps, |steps|)
    ensures var s := run[|run| - 1];
            (forall step :: Enabled(s, step) && Cooperative(step) ==> Hasty(s, step)) ==> Quiet(s) && s.tried == s.syncs
  {
    hide Effort, Hasty, Enabled, Apply;
    StepsBounded(run, steps, |steps|);
    InvAlways(run, steps, |run| - 1);
    var s := run[|run| - 1];
    if !Quiet(s) {
      var step := Advance(s);
    }
  }

  /**
   From every state that satisfies the invariant some schedule without new syncs,
   refusals and hasty launches comes to rest with the newest sync tried.
   */
  lemma {:induction false} SomeScheduleSettles(s: State) returns (run: seq<State>, steps: seq<Step>)
    requires Inv(s)
    ensures Follows(run, steps) && run[0] == s && forall i :: 0 <= i < |steps| ==> Cooperative(steps[i])
    ensures Quiet(run[|run| - 1]) && run[|run| - 1].tried == s.syncs
    decreases Effort(s)
  {
    hide Apply, Effort, Hasty, Enabled;
    if Quiet(s) {
      run, steps := [s], [];
    } else {
      var step := Advance(s);
      var t := Apply(s, step);
      InvStep(s, step);
      EffortFalls(s, step);
      NoNewSync(s, step);
      var rest, later := SomeScheduleSettles(t);
      run, steps := [s] + rest, [step] + later;
      FollowsOn(s, step, rest, later);
    }
  }

  lemma FollowsOn(s: State, step: Step, rest: seq<State>, later: seq<Step>)
    requires Follows(rest, later) && Enabled(s, step) && rest[0] == Apply(s, step)
    ensures Follows([s] + rest, [step] + later)
  {
    hide Apply, Enabled;
    var run, steps := [s] + rest, [step] + later;
    forall i | 0 <= i < |steps| ensures Enabled(run[i], steps[i]) && run[i + 1] == Apply(run[i], steps[i]) {
      assert i > 0 ==> run[i] == rest[i - 1] && run[i + 1] == rest[i] && steps[i] == later[i - 1];
    }
  }

  lemma NoNewSync(s: State, step: Step)
    requires Enabled(s, step) && Cooperative(step)
    ensures Apply(s, step).syncs == s.syncs
  {
  }

  // ----- a client that builds for ever

  /** Two syncs, the second while the first build was launching; all is built, a callback is waiting. */
  const RESTLESS := State(Flags(true, true, false), 2, 2, false, 0, 1, 0, 0, multiset{Answered(Built)})

  lemma ReachRestless() returns (run: seq<State>, steps: seq<Step>)
    ensures Follows(run, steps) && run != [] && run[0] == START && run[|run| - 1] == RESTLESS
  {
    run, steps := Launched();
    run, steps := Synced(run, steps);
    run, steps := Requested(run, steps, Built);
  }

  /**
   The failing case, reached from the start: the newest sync is built, no sync and
   no refusal follows, and yet cooperative steps with one hasty launch lead back to
   the same state, so the client builds again and again.
   */
  lemma BuildsForEver() returns (run: seq<State>, steps: seq<Step>, round: seq<State>, turn: seq<Step>)
    ensures Follows(run, steps) && run != [] && run[0] == START && run[|run| - 1] == RESTLESS && UpToDate(RESTLESS)
    ensures Follows(round, turn) && |round| == 7 && round[0] == RESTLESS && round[6] == RESTLESS
    ensures Send in turn && forall i :: 0 <= i < |turn| ==> Cooperative(turn[i])
  {
    hide Follows, Cooperative;
    run, steps := ReachRestless();
    round, turn := OneRound();
  }

  lemma OneRound() returns (round: seq<State>, turn: seq<Step>)
    ensures Follows(round, turn) && |round| == 7 && round[0] == RESTLESS && round[6] == RESTLESS
    ensures Send in turn && forall i :: 0 <= i < |turn| ==> Cooperative(turn[i])
  {
    hide Apply, Enabled;
    round, turn := HastyHalf();
    round, turn := Rescheduled(round, turn);
    round, turn := Requested(round, turn, Built);
    assert turn[4] == Send;
  }

  /** The finisher schedules what has been launched already, and the timer fires. */
  lemma Rescheduled(run: seq<State>, steps: seq<Step>) returns (run': seq<State>, steps': seq<Step>)
    requires Follows(run, steps) && run[|run| - 1].again == 1
    ensures Follows(run', steps') && run' != [] && run'[0] == run[0] && steps' == steps + [ScheduleAgain, Fire]
    ensures var s := run[|run| - 1];
            run'[|run'| - 1] == s.(again := 0, callbacks := s.callbacks + 1, flags := s.flags.(pending := true, armed := false))
  {
    var s := run[|run| - 1];
    hide Follows;
    run', steps' := Extend(run, steps, ScheduleAgain);
    assert run'[|run'| - 1] == s.(again := 0, flags := Scheduled(s.flags));
    run', steps' := Extend(run', steps', Fire);
  }

  /** The finisher gives its slot back, and before it schedules the waiting callback takes slot and mark. */
  lemma HastyHalf() returns (round: seq<State>, turn: seq<Step>)
    ensures Follows(round, turn) && round[0] == RESTLESS && turn == [Release(Built), Trigger]
    ensures Hasty(round[1], turn[1])
    ensures round[|round| - 1] == State(Flags(true, false, false), 2, 2, false, 0, 0, 1, 0, multiset{Launching})
  {
    round, turn := [RESTLESS], [];
    round, turn := Extend(round, turn, Release(Built));
    assert round[|round| - 1].builds == multiset{};
    round, turn := Extend(round, turn, Trigger);
  }
}
