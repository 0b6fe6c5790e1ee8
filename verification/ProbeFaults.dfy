/** Why a probe run fails, what its main thread waits for, and the way it goes
    when nothing fails. */
module ProbeFaults {
  import opened SteadyMetrics
  import opened Probe
  import opened ProbeSafety

  // ----- a failure has a cause

  /** Something went wrong: a timeout, a scheduler, stop or noise error, or a
      delivery that fails the warm-up check or cannot be stored. */
  predicate IsFault(opts: Options, s: State, a: Action) {
    match a
    case MainTimesOut => true
    case SchedulerFails => true
    case StopFails => true
    case NoiseFails => true
    case WaitTimesOut(_, report) => report
    case Deliver(c, d) =>
      c < |s.cameras|
      && var o := RecordDelivery(s.cameras[c].metrics, d, s.enabled, opts);
         !o.healthOk || o.storage != NoError
    case _ => false
  }

  predicate FaultAt(opts: Options, run: seq<State>, acts: seq<Action>, k: nat) {
    k < |run| && k < |acts| && IsFault(opts, run[k], acts[k])
  }

  predicate FaultFree(opts: Options, run: seq<State>, acts: seq<Action>, i: nat) {
    forall k {:trigger FaultAt(opts, run, acts, k)} :: 0 <= k < i ==> !FaultAt(opts, run, acts, k)
  }

  predicate NoErrors(tasks: seq<Task>) {
    forall i :: 0 <= i < |tasks| ==> tasks[i].error.None?
  }

  predicate NoTrouble(s: State) {
    && !s.failed && !s.main.Failing? && !s.gateError && (s.gateFile.Some? ==> s.gateFile.value > 0)
    && forall c :: 0 <= c < |s.cameras| ==> NoErrors(s.cameras[c].tasks)
  }

  lemma CameraStaysUntroubled(opts: Options, s: State, a: Action, t: State)
    requires NoTrouble(s) && Next(opts, s, a, t) && !IsFault(opts, s, a)
    requires a.BeginWait? || a.Deliver? || a.WaitTimesOut? || a.Land?
    ensures NoTrouble(t)
  {
    assert NoErrors(s.cameras[a.c].tasks);
  }

  lemma MainStaysUntroubled(opts: Options, s: State, a: Action, t: State)
    requires NoTrouble(s) && Next(opts, s, a, t) && !IsFault(opts, s, a)
    requires !a.BeginWait? && !a.Deliver? && !a.WaitTimesOut? && !a.Land?
    ensures NoTrouble(t)
  {
  }

  lemma {:induction false} FaultFreeRun(
      opts: Options, plan: StoragePlan, run: seq<State>, acts: seq<Action>, i: nat)
    requires IsRun(opts, plan, run, acts) && i < |run| && FaultFree(opts, run, acts, i)
    ensures NoTrouble(run[i])
  {
    if i > 0 {
      FaultFreeRun(opts, plan, run, acts, i - 1);
      var s, a, t := run[i - 1], acts[i - 1], run[i];
      assert StepAt(opts, run, acts, i - 1) && !FaultAt(opts, run, acts, i - 1);
      if a.BeginWait? || a.Deliver? || a.WaitTimesOut? || a.Land? {
        CameraStaysUntroubled(opts, s, a, t);
      } else {
        MainStaysUntroubled(opts, s, a, t);
      }
    }
  }

  /** A run that failed has had a fault. */
  lemma FailureHasCause(opts: Options, plan: StoragePlan, run: seq<State>, acts: seq<Action>, i: nat)
    requires IsRun(opts, plan, run, acts) && i < |run| && run[i].failed
    ensures exists k :: 0 <= k < i && FaultAt(opts, run, acts, k)
  {
    if FaultFree(opts, run, acts, i) {
      FaultFreeRun(opts, plan, run, acts, i);
    }
  }

  // ----- what the main thread waits for

  /** Every camera has its flag set, and no increment for it is in flight. */
  predicate AllReached(s: State, k: Kind) {
    (forall c :: 0 <= c < |s.cameras| ==> s.cameras[c].Flag(k)) && InFlight(s.cameras, k) == 0
  }

  lemma {:induction false} FlaggedAll(cams: seq<Camera>, k: Kind)
    requires forall c :: 0 <= c < |cams| ==> cams[c].Flag(k)
    ensures Flagged(cams, k) == |cams|
  {
    if cams != [] {
      forall c | 0 <= c < |cams[1..]| ensures cams[1..][c].Flag(k) {
        assert cams[1..][c] == cams[c + 1];
      }
      FlaggedAll(cams[1..], k);
    }
  }

  lemma CounterReaches(opts: Options, plan: StoragePlan, run: seq<State>, acts: seq<Action>, i: nat, k: Kind)
    requires IsRun(opts, plan, run, acts) && i < |run| && !run[i].failed
    ensures Counter(run[i], k) == opts.cameras <==> AllReached(run[i], k)
  {
    InvRun(opts, plan, run, acts, i);
    CountersMatchFlags(opts, plan, run, acts, i, k);
    AllFlagged(run[i].cameras, k);
    if AllReached(run[i], k) {
      FlaggedAll(run[i].cameras, k);
    }
  }

  /** Until a failure, each wait of the main thread ends exactly when every camera
      has reached what is waited for and has reported it. */
  lemma MainWaitsExactly(opts: Options, plan: StoragePlan, run: seq<State>, acts: seq<Action>, i: nat)
    requires IsRun(opts, plan, run, acts) && i < |run| && !run[i].failed
    ensures var s := run[i];
            var goes := exists t :: Next(opts, s, MainStep, t);
            && (s.main.SchedulerWait? ==> (goes <==> AllReached(s, Ready)))
            && (s.main.WarmWait? ==> (goes <==> AllReached(s, Warm)))
            && (s.main.Measuring? ==> (goes <==> opts.fixedDuration || AllReached(s, Done)))
            && (s.main.GateWait? ==> (goes <==> s.gateError || s.gateFile.Some?))
  {
    var s := run[i];
    CounterReaches(opts, plan, run, acts, i, Ready);
    CounterReaches(opts, plan, run, acts, i, Warm);
    CounterReaches(opts, plan, run, acts, i, Done);
    if MainEnabled(s, opts) {
      assert Next(opts, s, MainStep, AfterMain(s, opts));
    }
  }

  // ----- the way of the main thread

  /** How many stages come after this one; those of the gate only count with a gate. */
  function StagesAfter(opts: Options, main: Main): int {
    var warm := if opts.gated then 8 else 6;
    match main
    case Finished => 0
    case Stopping => 1
    case Measured => 2
    case Measuring => 3
    case Enabling => 4
    case GateChecked => 5
    case GateWait => 6
    case Publishing => 7
    case WarmCheck => warm
    case WarmWait => warm + 1
    case SchedulerApply => warm + 2
    case SchedulerWait => warm + 3
    case Failing(_, _) => -1
  }

  function MainSteps(acts: seq<Action>): nat {
    if |acts| == 0 then 0 else MainSteps(acts[..|acts| - 1]) + if acts[|acts| - 1].MainStep? then 1 else 0
  }

  /** The gate's stages are passed only with a gate. */
  predicate OnTheWay(opts: Options, main: Main) {
    !main.Failing? && (main.Publishing? || main.GateWait? ==> opts.gated)
  }

  lemma NextOnTheWay(opts: Options, s: State)
    requires NoTrouble(s) && OnTheWay(opts, s.main) && MainEnabled(s, opts)
    ensures OnTheWay(opts, NextMain(s, opts))
    ensures StagesAfter(opts, NextMain(s, opts)) == StagesAfter(opts, s.main) - 1
  {
  }

  lemma OthersKeepMain(opts: Options, s: State, a: Action, t: State)
    requires Next(opts, s, a, t) && !IsFault(opts, s, a) && !a.MainStep?
    ensures t.main == s.main
  {
  }

  /** Without a fault the main thread goes through its stages one by one, none
      left out: scheduler first if there is one, then warm-up, the noise gate if
      there is one, measurement, and the end. */
  lemma {:induction false} MainGoesItsWay(
      opts: Options, plan: StoragePlan, run: seq<State>, acts: seq<Action>, i: nat)
    requires IsRun(opts, plan, run, acts) && i < |run| && FaultFree(opts, run, acts, i)
    ensures OnTheWay(opts, run[i].main)
    ensures run[0].main == if opts.modeledScheduler then SchedulerWait else WarmWait
    ensures StagesAfter(opts, run[i].main) == StagesAfter(opts, run[0].main) - MainSteps(acts[..i])
  {
    if i > 0 {
      MainGoesItsWay(opts, plan, run, acts, i - 1);
      FaultFreeRun(opts, plan, run, acts, i - 1);
      var s, a, t := run[i - 1], acts[i - 1], run[i];
      assert StepAt(opts, run, acts, i - 1) && !FaultAt(opts, run, acts, i - 1);
      assert acts[..i][..i - 1] == acts[..i - 1];
      if a.MainStep? {
        NextOnTheWay(opts, s);
      } else {
        OthersKeepMain(opts, s, a, t);
      }
    }
  }
}
