/** The steady probe as an interleaving of its threads
    (src/realsense_steady_probe.cpp) with the noise coordinator
    (tools/realsense_steady_bench/noise_transition.py).

    A block under a mutex is one step.  A delivery leaves the camera's mutex
    with work still to do (reporting an error, incrementing shared counters);
    that work is a task which lands in later steps, in any interleaving.
    Deliveries are allowed even after `stop` was requested, so the model has at
    least the behaviours of the code. */
module Probe {
  import opened Wrappers
  import opened SteadyMetrics

  datatype Kind = Ready | Warm | Done

  /** What a delivering thread still has to do outside the camera's mutex. */
  datatype Task = Task(error: Option<string>, owed: seq<Kind>)

  /** `waiting` holds what a blocked wait loop had read from `measurement_enabled`. */
  datatype Camera = Camera(metrics: Metrics, tasks: seq<Task>, waiting: Option<bool>)
  {
    predicate Flag(k: Kind) {
      match k
      case Ready => metrics.schedulerReady
      case Warm => metrics.warmed
      case Done => metrics.completed
    }
  }

  datatype Main =
    | SchedulerWait
    | SchedulerApply
    | WarmWait
    | WarmCheck
    | Publishing
    | GateWait
    | GateChecked
    | Enabling
    | Measuring
    | Measured
    | Stopping
    | Finished
    | Failing(message: string, next: Main)

  datatype Noise = AwaitingWarmup | StartingNoise | NoiseReady | NoiseEnded

  datatype State = State(
    cameras: seq<Camera>,
    counters: map<Kind, nat>,
    failed: bool,
    error: string,
    enabled: bool,
    main: Main,
    warmFile: bool,
    gateFile: Option<nat>,
    gateError: bool,
    noise: Noise,
    noiseStarted: bool,
    noiseFinished: bool)

  function Counter(s: State, k: Kind): nat {
    if k in s.counters then s.counters[k] else 0
  }

  predicate Init(s: State, opts: Options, plan: StoragePlan) {
    && opts.Valid()
    && |s.cameras| == opts.cameras
    && (forall c :: 0 <= c < |s.cameras| ==> s.cameras[c] == Camera(Prepared(plan, opts.expected), [], None))
    && s.counters == map[]
    && !s.failed && s.error == "" && !s.enabled
    && s.main == (if opts.modeledScheduler then SchedulerWait else WarmWait)
    && !s.warmFile && s.gateFile == None && !s.gateError
    && s.noise == AwaitingWarmup && !s.noiseStarted && !s.noiseFinished
  }

  datatype Action =
    | BeginWait(c: nat)
    | Deliver(c: nat, d: Delivery)
    | WaitTimesOut(c: nat, report: bool)
    | Land(c: nat, i: nat)
    | MainStep
    | MainTimesOut
    | SchedulerFails
    | StopFails
    | NoiseSees
    | NoiseStarts
    | NoiseFails
    | NoisePublishes(timestamp: nat)
    | NoiseGivesUp

  // ----- deliveries

  function TaskOf(o: Outcome): Task {
    Task(if !o.healthOk then Some("Warm-up freshness check failed")
         else if o.storage != NoError then Some("Measurement storage failure")
         else None,
         (if o.becameReady then [Ready] else []) + (if o.becameWarm then [Warm] else [])
         + (if o.becameComplete then [Done] else []))
  }

  function AfterDelivery(cam: Camera, d: Delivery, enabled: bool, opts: Options): Camera {
    var o := RecordDelivery(cam.metrics, d, enabled, opts);
    Camera(o.metrics, cam.tasks + [TaskOf(o)], None)
  }

  predicate DeliverStep(opts: Options, s: State, c: nat, d: Delivery, t: State) {
    && c < |s.cameras| && !s.main.Finished?
    && (opts.waitDelivery ==> s.cameras[c].waiting.Some? && s.cameras[c].tasks == [])
    && t == s.(cameras := s.cameras[c := AfterDelivery(s.cameras[c], d, s.enabled, opts)])
  }

  /** A frame timeout fails the run unless measuring had begun before the wait;
      a loop that sees a stop after a failure leaves without reporting. */
  predicate TimeoutStep(s: State, c: nat, report: bool, t: State) {
    && c < |s.cameras| && s.cameras[c].waiting.Some? && s.cameras[c].tasks == []
    && var cam := s.cameras[c];
       var mustReport := !cam.waiting.value && !s.failed;
       && (report ==> !cam.waiting.value) && (mustReport ==> report)
       && t == s.(cameras := s.cameras[c := cam.(
                               waiting := None,
                               tasks := if report then [Task(Some("frame timeout"), [])] else [])])
  }

  function DropTask(cam: Camera, i: nat): Camera
    requires i < |cam.tasks|
  {
    cam.(tasks := cam.tasks[..i] + cam.tasks[i + 1..])
  }

  function PayTask(cam: Camera, i: nat): Camera
    requires i < |cam.tasks| && cam.tasks[i].owed != []
  {
    cam.(tasks := cam.tasks[i := cam.tasks[i].(owed := cam.tasks[i].owed[1..])])
  }

  /** The next thing a delivering thread does: report its error through
      `set_failure`, which keeps only the first one, or one increment. */
  predicate LandStep(s: State, c: nat, i: nat, t: State) {
    && c < |s.cameras| && i < |s.cameras[c].tasks|
    && var cam := s.cameras[c];
       var task := cam.tasks[i];
       var pays := task.error.None? && task.owed != [];
       t == s.(cameras := s.cameras[c := if pays then PayTask(cam, i) else DropTask(cam, i)],
               counters := if pays then s.counters[task.owed[0] := Counter(s, task.owed[0]) + 1] else s.counters,
               failed := s.failed || task.error.Some?,
               error := if task.error.Some? && !s.failed then task.error.value else s.error)
  }

  // ----- the main thread

  predicate Quiet(s: State) {
    forall c :: 0 <= c < |s.cameras| ==> s.cameras[c].tasks == []
  }

  predicate MainEnabled(s: State, opts: Options) {
    match s.main
    case SchedulerWait => s.failed || Counter(s, Ready) == opts.cameras
    case WarmWait => s.failed || Counter(s, Warm) == opts.cameras
    case GateWait => s.failed || s.gateError || s.gateFile.Some?
    case Measuring => opts.fixedDuration || s.failed || Counter(s, Done) == opts.cameras
    case Stopping => Quiet(s)
    case Finished => false
    case _ => true
  }

  function NextMain(s: State, opts: Options): Main {
    match s.main
    case SchedulerWait => SchedulerApply
    case SchedulerApply => WarmWait
    case WarmWait => WarmCheck
    case WarmCheck => if s.failed then Stopping else if opts.gated then Publishing else GateChecked
    case Publishing => GateWait
    case GateWait =>
      if s.failed then GateChecked
      else if s.gateError then Failing("Noise setup failed", GateChecked)
      else if s.gateFile.Some? && s.gateFile.value > 0 then GateChecked
      else Failing("Noise setup failed: invalid measurement gate", GateChecked)
    case GateChecked => if s.failed then Stopping else Enabling
    case Enabling => Measuring
    case Measuring => Measured
    case Measured => Stopping
    case Stopping => Finished
    case Finished => Finished
    case Failing(_, next) => next
  }

  function AfterMain(s: State, opts: Options): State {
    s.(main := NextMain(s, opts),
       warmFile := s.warmFile || s.main.Publishing?,
       enabled := s.main.Enabling? || (s.enabled && !s.main.Measured?),
       failed := s.failed || s.main.Failing?,
       error := if s.main.Failing? && !s.failed then s.main.message else s.error)
  }

  /** A timed wait ran out: its predicate is false and nothing had failed. */
  function TimedOut(main: Main): Main {
    match main
    case SchedulerWait => Failing("Timed out before the modeled-scheduler warm-up transition", SchedulerApply)
    case WarmWait => Failing("Timed out while waiting for all cameras to warm up", WarmCheck)
    case GateWait => Failing("Noise setup failed: measurement gate timed out", GateChecked)
    case Measuring => Failing("Timed out during steady-state measurement", Measured)
    case _ => main
  }

  predicate MainTimeoutStep(opts: Options, s: State, t: State) {
    && (s.main.SchedulerWait? || s.main.WarmWait? || s.main.GateWait? || s.main.Measuring?)
    && !MainEnabled(s, opts)
    && t == s.(main := TimedOut(s.main))
  }

  // ----- the noise coordinator

  predicate NoiseStep(s: State, a: Action, t: State) {
    match a
    case NoiseSees => s.noise.AwaitingWarmup? && s.warmFile && t == s.(noise := StartingNoise, noiseStarted := true)
    case NoiseStarts => s.noise.StartingNoise? && t == s.(noise := NoiseReady, noiseFinished := true)
    case NoiseFails => !s.noise.NoiseEnded? && t == s.(noise := NoiseEnded, gateError := true)
    case NoisePublishes(timestamp) =>
      s.noise.NoiseReady? && timestamp > 0 && t == s.(noise := NoiseEnded, gateFile := Some(timestamp))
    case NoiseGivesUp =>
      (s.noise.AwaitingWarmup? || s.noise.NoiseReady?) && s.main.Finished? && t == s.(noise := NoiseEnded)
    case _ => false
  }

  predicate Next(opts: Options, s: State, a: Action, t: State) {
    match a
    case BeginWait(c) =>
      && opts.waitDelivery && c < |s.cameras| && s.cameras[c].waiting.None? && s.cameras[c].tasks == []
      && !s.cameras[c].metrics.completed
      && t == s.(cameras := s.cameras[c := s.cameras[c].(waiting := Some(s.enabled))])
    case Deliver(c, d) => DeliverStep(opts, s, c, d, t)
    case WaitTimesOut(c, report) => TimeoutStep(s, c, report, t)
    case Land(c, i) => LandStep(s, c, i, t)
    case MainStep => MainEnabled(s, opts) && t == AfterMain(s, opts)
    case MainTimesOut => MainTimeoutStep(opts, s, t)
    case SchedulerFails =>
      s.main.SchedulerApply? && t == s.(main := Failing("scheduler setup failed", WarmWait))
    case StopFails => s.main.Stopping? && t == s.(main := Failing("stop failed", Stopping))
    case _ => NoiseStep(s, a, t)
  }

  predicate StepAt(opts: Options, run: seq<State>, acts: seq<Action>, i: nat) {
    i < |acts| && i + 1 < |run| && Next(opts, run[i], acts[i], run[i + 1])
  }

  predicate IsRun(opts: Options, plan: StoragePlan, run: seq<State>, acts: seq<Action>) {
    && |run| == |acts| + 1
    && Init(run[0], opts, plan)
    && forall i {:trigger StepAt(opts, run, acts, i)} :: 0 <= i < |acts| ==> StepAt(opts, run, acts, i)
  }
}
