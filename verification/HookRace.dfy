/**
 One submission of a hook script: the runner that evaluates it and the watcher
 that waits for its result or its deadline race for the one callback. Callbacks
 that are not set are attempts all the same.
 */
module HookRace {

  datatype Callback = OnComplete | OnEvalError | OnTimeout

  datatype Runner = Queued | Refused | Evaluating | Failing | Sending | Failed | Sent

  datatype Watcher = Unborn | Waiting | Completing | TimingOut | Completed | TimedOut

  /** `done` is the channel of capacity one, `expired` the context, `attempts` the callbacks made. */
  datatype State = State(runner: Runner, watcher: Watcher, gotError: bool, done: bool, expired: bool, cancelled: bool,
                         attempts: seq<Callback>)

  const START := State(Queued, Unborn, false, false, false, false, [])

  datatype Step =
    | Compile(ok: bool)
    | Evaluate(failed: bool)
    | ReportError
    | SendDone
    | Expire
    | TakeDone
    | Complete
    | TakeExpired
    | ReportTimeout

  predicate Enabled(s: State, step: Step) {
    match step
    case Compile(_) => s.runner == Queued
    case Evaluate(_) => s.runner == Evaluating
    case ReportError => s.runner == Failing
    case SendDone => s.runner == Sending && !s.done
    case Expire => s.watcher != Unborn && !s.expired && !s.cancelled
    case TakeDone => s.watcher == Waiting && s.done
    case Complete => s.watcher == Completing
    case TakeExpired => s.watcher == Waiting && s.expired
    case ReportTimeout => s.watcher == TimingOut
  }

  function Apply(s: State, step: Step): State {
    match step
    case Compile(ok) => if ok then s.(runner := Evaluating, watcher := Waiting) else s.(runner := Refused)
    case Evaluate(failed) => s.(runner := if failed then Failing else Sending)
    case ReportError => SwapError(s, OnEvalError).(runner := Failed)
    case SendDone => s.(runner := Sent, done := true)
    case Expire => s.(expired := true)
    case TakeDone => s.(watcher := Completing, done := false, cancelled := true)
    case Complete => s.(watcher := Completed, attempts := s.attempts + [OnComplete])
    case TakeExpired => s.(watcher := TimingOut)
    case ReportTimeout => SwapError(s, OnTimeout).(watcher := TimedOut)
  }

  /** The compare-and-swap on the error flag: only its winner calls back. */
  function SwapError(s: State, c: Callback): State {
    if s.gotError then s else s.(gotError := true, attempts := s.attempts + [c])
  }

  predicate Finished(s: State) {
    s.runner in {Refused, Failed, Sent} && s.watcher in {Unborn, Completed, TimedOut}
  }

  // ----- the code between two blocking points

  class Submission {
    var runner: Runner
    var watcher: Watcher
    var gotError: bool
    var done: bool
    var expired: bool
    var cancelled: bool
    var attempts: seq<Callback>

    function Value(): State
      reads this
    {
      State(runner, watcher, gotError, done, expired, cancelled, attempts)
    }

    constructor ()
      ensures Value() == START
    {
      runner, watcher := Queued, Unborn;
      gotError, done, expired, cancelled, attempts := false, false, false, false, [];
    }

    method CompareAndSwap() returns (won: bool)
      modifies this`gotError
      ensures won == !old(gotError) && gotError
    {
      won := !gotError;
      gotError := true;
    }

    /** The runner after the evaluation: an error races for the callback, a result goes to the watcher. */
    method AfterEvaluation()
      requires runner == Failing || (runner == Sending && !done)
      modifies this
      ensures Value() == Apply(old(Value()), if old(runner) == Failing then ReportError else SendDone)
    {
      if runner == Failing {
        var won := CompareAndSwap();
        if won {
          attempts := attempts + [OnEvalError];
        }
        runner := Failed;
      } else {
        done := true;
        runner := Sent;
      }
    }

    /** The watcher's choice; when the result and the deadline are both there it is either. */
    method Choose(preferDone: bool)
      requires watcher == Waiting && (done || expired)
      modifies this
      ensures var takes := old(done) && (preferDone || !old(expired));
              Value() == Apply(old(Value()), if takes then TakeDone else TakeExpired)
    {
      if done && (preferDone || !expired) {
        done := false;
        watcher := Completing;
        cancelled := true;
      } else {
        watcher := TimingOut;
      }
    }

    method AfterChoice()
      requires watcher == Completing || watcher == TimingOut
      modifies this
      ensures Value() == Apply(old(Value()), if old(watcher) == Completing then Complete else ReportTimeout)
    {
      if watcher == Completing {
        attempts := attempts + [OnComplete];
        watcher := Completed;
      } else {
        var won := CompareAndSwap();
        if won {
          attempts := attempts + [OnTimeout];
        }
        watcher := TimedOut;
      }
    }
  }

  // ----- every interleaving

  ghost predicate Inv(s: State) {
    && (s.watcher == Unborn <==> s.runner in {Queued, Refused})
    && (s.watcher == Unborn ==> !s.gotError && !s.done)
    && (s.done ==> s.runner == Sent)
    && (s.watcher in {Completing, Completed} ==> s.runner == Sent && !s.done && !s.gotError)
    && (s.runner == Sent && s.watcher == Waiting ==> s.done)
    && (s.watcher in {TimingOut, TimedOut} ==> s.expired)
    && (s.gotError <==> s.runner == Failed || s.watcher == TimedOut)
    && (s.cancelled ==> s.watcher in {Completing, Completed})
    && (if s.watcher == Completed then s.attempts == [OnComplete]
        else if !s.gotError then s.attempts == []
        else (s.attempts == [OnEvalError] && s.runner == Failed) || (s.attempts == [OnTimeout] && s.watcher == TimedOut))
  }

  lemma InvStep(s: State, step: Step)
    requires Inv(s) && Enabled(s, step)
    ensures Inv(Apply(s, step))
  {
  }

  ghost predicate Next(s: State, t: State) {
    exists step :: Enabled(s, step) && t == Apply(s, step)
  }

  ghost predicate IsRun(run: seq<State>) {
    run != [] && run[0] == START && forall i :: 0 < i < |run| ==> Next(run[i - 1], run[i])
  }

  lemma {:induction false} InvAlways(run: seq<State>, i: nat)
    requires IsRun(run) && i < |run|
    ensures Inv(run[i])
  {
    if i > 0 {
      hide Inv, Apply;
      InvAlways(run, i - 1);
      assert Next(run[i - 1], run[i]);
      var step :| Enabled(run[i - 1], step) && run[i] == Apply(run[i - 1], step);
      InvStep(run[i - 1], step);
    }
  }

  /**
   In every interleaving at most one callback is attempted; once both sides are
   finished there is exactly one, or none if the script did not compile. A
   completion only follows a result, a timeout only an expired deadline.
   */
  lemma OneCallback(run: seq<State>, i: nat)
    requires IsRun(run) && i < |run|
    ensures var s := run[i];
            && |s.attempts| <= 1
            && (Finished(s) ==> |s.attempts| == if s.runner == Refused then 0 else 1)
            && (OnComplete in s.attempts ==> s.runner == Sent)
            && (OnTimeout in s.attempts ==> s.expired)
            && (OnEvalError in s.attempts ==> s.runner == Failed)
  {
    InvAlways(run, i);
  }

  /**
   What the outcomes mean: a script that does not compile leaves nothing to do and no
   callback, one that does is evaluated and watched; an evaluation that fails reports
   its error and one that succeeds hands over its result; once the watcher has taken
   that, the deadline no longer matters.
   */
  lemma OutcomesMean(s: State)
    ensures forall next :: !Enabled(Apply(START, Compile(false)), next)
    ensures Finished(Apply(START, Compile(false))) && Apply(START, Compile(false)).attempts == []
    ensures Enabled(Apply(START, Compile(true)), Evaluate(true)) && Apply(START, Compile(true)).watcher == Waiting
    ensures Inv(s) && s.runner == Evaluating ==>
              && Enabled(Apply(s, Evaluate(true)), ReportError) && !Enabled(Apply(s, Evaluate(true)), SendDone)
              && Enabled(Apply(s, Evaluate(false)), SendDone) && !Enabled(Apply(s, Evaluate(false)), ReportError)
    ensures Enabled(s, TakeDone) ==> !Enabled(Apply(s, TakeDone), Expire)
  {
  }

  // ----- every run comes to its end

  function RunnerRank(r: Runner): nat {
    match r
    case Queued => 3
    case Evaluating => 2
    case Failing => 1
    case Sending => 1
    case _ => 0
  }

  function WatcherRank(w: Watcher): nat {
    match w
    case Waiting => 2
    case Completing => 1
    case TimingOut => 1
    case _ => 0
  }

  /** An upper bound for the steps that are left. */
  function Rank(s: State): nat {
    RunnerRank(s.runner) + (if s.watcher == Unborn then 2 else WatcherRank(s.watcher)) +
    (if s.expired then 0 else 1)
  }

  /** Each step uses up some rank. */
  lemma StepLowers(s: State, step: Step)
    requires Inv(s) && Enabled(s, step)
    ensures Rank(Apply(s, step)) < Rank(s)
  {
  }

  lemma {:induction false} RankFalls(run: seq<State>, i: nat)
    requires IsRun(run) && i < |run|
    ensures Rank(run[i]) + i <= Rank(START)
  {
    if i > 0 {
      hide Inv, Apply, Rank;
      RankFalls(run, i - 1);
      InvAlways(run, i - 1);
      assert Next(run[i - 1], run[i]);
      var step :| Enabled(run[i - 1], step) && run[i] == Apply(run[i - 1], step);
      StepLowers(run[i - 1], step);
    }
  }

  /** Every run is short, and one that cannot go on has finished with its callback. */
  lemma RunsFinish(run: seq<State>)
    requires IsRun(run)
    ensures |run| <= 7
    ensures var s := run[|run| - 1];
            (forall step :: !Enabled(s, step)) ==> Finished(s) && |s.attempts| == if s.runner == Refused then 0 else 1
  {
    hide Inv, Enabled, Finished;
    var s := run[|run| - 1];
    RankFalls(run, |run| - 1);
    InvAlways(run, |run| - 1);
    OneCallback(run, |run| - 1);
    if forall step :: !Enabled(s, step) {
      StuckIsFinished(s);
    }
  }

  lemma StuckIsFinished(s: State)
    requires Inv(s) && forall step :: !Enabled(s, step)
    ensures Finished(s)
  {
    assert !Enabled(s, Compile(true)) && !Enabled(s, Evaluate(true)) && !Enabled(s, ReportError);
    assert !Enabled(s, SendDone) && !Enabled(s, Expire) && !Enabled(s, TakeDone) && !Enabled(s, Complete);
    assert !Enabled(s, TakeExpired) && !Enabled(s, ReportTimeout);
  }

  // ----- spreading submissions over the runners

  /** Where n submissions in turn have come to: so many rounds and so many of the next one. */
  function Turn(threads: nat, n: nat): (t: (nat, nat))
    requires threads > 0
    ensures n == t.0 * threads + t.1 && t.1 < threads
  {
    if n == 0 then (0, 0)
    else
      var (rounds, next) := Turn(threads, n - 1);
      if next + 1 >= threads then
        assert (rounds + 1) * threads == rounds * threads + threads;
        (rounds + 1, 0)
      else (rounds, next + 1)
  }

  /** The load of a runner after n submissions: how many of the first n turns were its own. */
  function Load(threads: nat, n: nat, i: nat): nat
    requires threads > 0
  {
    if n == 0 then 0
    else Load(threads, n - 1, i) + if Turn(threads, n - 1).1 == i then 1 else 0
  }

  /** Every runner has had one submission a round, the first ones that of the round begun. */
  lemma {:induction false} LoadIs(threads: nat, n: nat, i: nat)
    requires threads > 0 && i < threads
    ensures Load(threads, n, i) == Turn(threads, n).0 + if i < Turn(threads, n).1 then 1 else 0
  {
    if n > 0 {
      LoadIs(threads, n - 1, i);
    }
  }

  /** After any number of submissions the loads of two runners differ by at most one. */
  lemma LoadsBalanced(threads: nat, n: nat, i: nat, j: nat)
    requires threads > 0 && i < threads && j < threads
    ensures Load(threads, n, i) <= Load(threads, n, j) + 1
  {
    LoadIs(threads, n, i);
    LoadIs(threads, n, j);
  }

  class Executor {
    var rr: nat
    var loads: seq<nat>
    ghost var submitted: nat

    /** The loads are those of the submissions so far, and the next runner is the one whose turn it is. */
    ghost predicate Valid()
      reads this
    {
      && |loads| > 0 && rr == Turn(|loads|, submitted).1
      && forall i :: 0 <= i < |loads| ==> loads[i] == Load(|loads|, submitted, i)
    }

    constructor (threads: nat)
      requires threads > 0
      ensures Valid() && |loads| == threads && submitted == 0
    {
      rr, submitted := 0, 0;
      loads := seq(threads, _ => 0);
    }

    method SubmitForExec()
      requires Valid()
      modifies this
      ensures Valid() && |loads| == old(|loads|) && submitted == old(submitted) + 1
      ensures loads == old(loads)[old(rr) := old(loads)[old(rr)] + 1]
      ensures forall i, j :: 0 <= i < |loads| && 0 <= j < |loads| ==> loads[i] <= loads[j] + 1
    {
      loads := loads[rr := loads[rr] + 1];
      rr := rr + 1;
      if rr >= |loads| {
        rr := 0;
      }
      submitted := submitted + 1;
      forall i, j | 0 <= i < |loads| && 0 <= j < |loads| ensures loads[i] <= loads[j] + 1 {
        LoadsBalanced(|loads|, submitted, i, j);
      }
    }
  }
}
