/** What every interleaving of the steady probe keeps. */
module ProbeSafety {
  import opened Wrappers
  import opened Numbers
  import opened SteadyMetrics
  import opened Probe

  // ----- counting over cameras

  function OwedIn(tasks: seq<Task>, k: Kind): nat {
    if tasks == [] then 0 else OwedBy(tasks[0].owed, k) + OwedIn(tasks[1..], k)
  }

  function OwedBy(owed: seq<Kind>, k: Kind): nat {
    if owed == [] then 0 else (if owed[0] == k then 1 else 0) + OwedBy(owed[1..], k)
  }

  /** Cameras whose flag is set. */
  function Flagged(cams: seq<Camera>, k: Kind): nat {
    if cams == [] then 0 else One(cams[0].Flag(k)) + Flagged(cams[1..], k)
  }

  /** Increments of the shared counter that are still in flight. */
  function InFlight(cams: seq<Camera>, k: Kind): nat {
    if cams == [] then 0 else OwedIn(cams[0].tasks, k) + InFlight(cams[1..], k)
  }

  lemma {:induction false} UpdateCamera(cams: seq<Camera>, c: nat, cam: Camera, k: Kind)
    requires c < |cams|
    ensures Flagged(cams[c := cam], k) == Flagged(cams, k) - One(cams[c].Flag(k)) + One(cam.Flag(k))
    ensures InFlight(cams[c := cam], k) == InFlight(cams, k) - OwedIn(cams[c].tasks, k) + OwedIn(cam.tasks, k)
  {
    var after := cams[c := cam];
    if c == 0 {
      assert after[1..] == cams[1..];
    } else {
      UpdateCamera(cams[1..], c - 1, cam, k);
      assert after[1..] == cams[1..][c - 1 := cam];
    }
  }

  lemma {:induction false} AllFlagged(cams: seq<Camera>, k: Kind)
    ensures Flagged(cams, k) <= |cams|
    ensures Flagged(cams, k) == |cams| ==> forall c :: 0 <= c < |cams| ==> cams[c].Flag(k)
  {
    if cams != [] {
      AllFlagged(cams[1..], k);
      if Flagged(cams, k) == |cams| {
        forall c | 0 <= c < |cams| ensures cams[c].Flag(k) {
          assert c > 0 ==> cams[c] == cams[1..][c - 1];
        }
      }
    }
  }

  lemma {:induction false} OwedAppend(a: seq<Task>, b: seq<Task>, k: Kind)
    ensures OwedIn(a + b, k) == OwedIn(a, k) + OwedIn(b, k)
  {
    if a == [] {
      assert a + b == b;
    } else {
      assert (a + b)[0] == a[0] && (a + b)[1..] == a[1..] + b;
      OwedAppend(a[1..], b, k);
    }
  }

  lemma OwedOne(task: Task, k: Kind)
    ensures OwedIn([task], k) == OwedBy(task.owed, k)
  {
    assert [task][1..] == [];
  }

  lemma OwedSplit(tasks: seq<Task>, i: nat, k: Kind)
    requires i < |tasks|
    ensures OwedIn(tasks, k) == OwedIn(tasks[..i], k) + OwedBy(tasks[i].owed, k) + OwedIn(tasks[i + 1..], k)
  {
    assert tasks == tasks[..i] + ([tasks[i]] + tasks[i + 1..]);
    OwedAppend(tasks[..i], [tasks[i]] + tasks[i + 1..], k);
    OwedAppend([tasks[i]], tasks[i + 1..], k);
    OwedOne(tasks[i], k);
  }

  lemma DropOwes(cam: Camera, i: nat, k: Kind)
    requires i < |cam.tasks|
    ensures OwedIn(DropTask(cam, i).tasks, k) + OwedBy(cam.tasks[i].owed, k) == OwedIn(cam.tasks, k)
  {
    OwedSplit(cam.tasks, i, k);
    OwedAppend(cam.tasks[..i], cam.tasks[i + 1..], k);
  }

  lemma PayOwes(cam: Camera, i: nat, k: Kind)
    requires i < |cam.tasks| && cam.tasks[i].owed != []
    ensures OwedIn(PayTask(cam, i).tasks, k) + One(cam.tasks[i].owed[0] == k) == OwedIn(cam.tasks, k)
  {
    var after := PayTask(cam, i).tasks;
    OwedSplit(cam.tasks, i, k);
    OwedSplit(after, i, k);
    assert after[..i] == cam.tasks[..i] && after[i + 1..] == cam.tasks[i + 1..];
  }

  // ----- one delivery

  /** In delivery-count mode a camera completes exactly at its last delivery. */
  predicate CameraOk(m: Metrics, opts: Options) {
    && (opts.fixedDuration ==> !m.completed)
    && (!opts.fixedDuration ==> if m.completed then m.deliveries == opts.frames else m.deliveries < opts.frames)
  }

  lemma {:induction false} AddFramesKeepsCounts(m: Metrics, frames: seq<Frame>, hostNs: int)
    ensures var r := AddFrames(m, frames, hostNs).0;
            && r.deliveries == m.deliveries && r.completed == m.completed
            && r.warmed == m.warmed && r.schedulerReady == m.schedulerReady
            && r.streams.Keys == m.streams.Keys && r.plan == m.plan
    decreases |frames|
  {
    if frames != [] && FrameError(m, frames[0]) == NoError {
      var after := AddFrame(m, frames[0], hostNs);
      assert after.streams.Keys == m.streams.Keys;
      AddFramesKeepsCounts(after, frames[1..], hostNs);
    }
  }

  lemma DeliveryEffect(cam: Camera, d: Delivery, enabled: bool, opts: Options, k: Kind)
    requires opts.Valid() && CameraOk(cam.metrics, opts)
    ensures var after := AfterDelivery(cam, d, enabled, opts);
            && CameraOk(after.metrics, opts)
            && (cam.Flag(k) ==> after.Flag(k))
            && OwedIn(after.tasks, k) == OwedIn(cam.tasks, k) + One(after.Flag(k)) - One(cam.Flag(k))
  {
    var m := cam.metrics;
    var o := RecordDelivery(m, d, enabled, opts);
    AddFramesKeepsCounts(CountDelivery(m, d).0, d.frames, d.hostNs);
    OwedAppend(cam.tasks, [TaskOf(o)], k);
    OwedOne(TaskOf(o), k);
    var r, w, c := o.becameReady, o.becameWarm, o.becameComplete;
    OwedFlags(r, w, c, k);
  }

  lemma {:induction false} OwedByAppend(a: seq<Kind>, b: seq<Kind>, k: Kind)
    ensures OwedBy(a + b, k) == OwedBy(a, k) + OwedBy(b, k)
  {
    if a == [] {
      assert a + b == b;
    } else {
      assert (a + b)[0] == a[0] && (a + b)[1..] == a[1..] + b;
      OwedByAppend(a[1..], b, k);
    }
  }

  lemma OwedFlags(r: bool, w: bool, c: bool, k: Kind)
    ensures OwedBy((if r then [Ready] else []) + (if w then [Warm] else []) + (if c then [Done] else []), k)
            == (match k case Ready => One(r) case Warm => One(w) case Done => One(c))
  {
    var a, b, e := if r then [Ready] else [], if w then [Warm] else [], if c then [Done] else [];
    OwedByAppend(a + b, e, k);
    OwedByAppend(a, b, k);
    assert [Ready][1..] == [] && [Warm][1..] == [] && [Done][1..] == [];
  }

  // ----- the invariant

  predicate AllFlag(s: State, k: Kind) {
    forall c :: 0 <= c < |s.cameras| ==> s.cameras[c].Flag(k)
  }

  /** Counters never exceed the landed flags, and equal them unless the run failed. */
  predicate CountOk(s: State, k: Kind) {
    && Counter(s, k) + InFlight(s.cameras, k) <= Flagged(s.cameras, k)
    && (!s.failed ==> Counter(s, k) + InFlight(s.cameras, k) == Flagged(s.cameras, k))
  }

  /** What holds at each point of the main thread, given whether the run failed,
      every camera is warm, the noise is up and every camera is done. */
  predicate PointOk(main: Main, failed: bool, warm: bool, noisy: bool, done: bool) {
    match main
    case WarmCheck => failed || warm
    case Publishing => warm
    case GateWait => warm
    case GateChecked => failed || (warm && noisy)
    case Enabling => warm && noisy
    case Measuring => warm && noisy
    case Measured => warm && noisy && (failed || done)
    case Stopping => failed || (warm && noisy && done)
    case Finished => failed || (warm && noisy && done)
    case _ => true
  }

  predicate MainOk(main: Main, failed: bool, warm: bool, noisy: bool, done: bool) {
    if main.Failing? then
      && !main.next.Failing? && !main.next.Publishing? && !main.next.GateWait?
      && PointOk(main.next, true, warm, noisy, done)
    else PointOk(main, failed, warm, noisy, done)
  }

  predicate Noisy(s: State, opts: Options) { opts.gated ==> s.noiseFinished }

  predicate Completed(s: State, opts: Options) { opts.fixedDuration || AllFlag(s, Done) }

  predicate PhaseOk(s: State, opts: Options) {
    && MainOk(s.main, s.failed, AllFlag(s, Warm), Noisy(s, opts), Completed(s, opts))
    && (s.main.Publishing? || s.main.GateWait? ==> opts.gated)
    && (s.enabled ==> AllFlag(s, Warm) && Noisy(s, opts))
    && (s.warmFile || s.noiseStarted ==> AllFlag(s, Warm))
    && (s.noise.StartingNoise? || s.noise.NoiseReady? || s.noiseFinished ==> s.noiseStarted)
    && (s.noise.NoiseReady? || s.gateFile.Some? ==> s.noiseFinished)
  }

  predicate Inv(opts: Options, s: State) {
    && opts.Valid() && |s.cameras| == opts.cameras
    && (forall c :: 0 <= c < |s.cameras| ==> CameraOk(s.cameras[c].metrics, opts))
    && (forall k :: CountOk(s, k))
    && PhaseOk(s, opts)
  }

  lemma {:induction false} FreshCameras(cams: seq<Camera>, plan: StoragePlan, opts: Options, k: Kind)
    requires forall c :: 0 <= c < |cams| ==> cams[c] == Camera(Prepared(plan, opts.expected), [], None)
    ensures Flagged(cams, k) == 0 && InFlight(cams, k) == 0
  {
    if cams != [] {
      FreshCameras(cams[1..], plan, opts, k);
    }
  }

  lemma InvInit(opts: Options, plan: StoragePlan, s: State)
    requires Init(s, opts, plan)
    ensures Inv(opts, s)
  {
    forall k ensures CountOk(s, k) {
      FreshCameras(s.cameras, plan, opts, k);
    }
  }

  lemma CameraKeepsInv(opts: Options, s: State, c: nat, cam: Camera, t: State)
    requires Inv(opts, s) && c < |s.cameras| && t.cameras == s.cameras[c := cam]
    requires t == s.(cameras := t.cameras, failed := t.failed, error := t.error, counters := t.counters)
    requires CameraOk(cam.metrics, opts)
    requires forall k :: s.cameras[c].Flag(k) ==> cam.Flag(k)
    requires s.failed ==> t.failed
    requires forall k :: CountOk(t, k)
    ensures Inv(opts, t)
  {
    forall k | AllFlag(s, k) ensures AllFlag(t, k) {
      forall i | 0 <= i < |t.cameras| ensures t.cameras[i].Flag(k) {
        assert s.cameras[i].Flag(k);
      }
    }
    assert AllFlag(s, Warm) ==> AllFlag(t, Warm);
    assert AllFlag(s, Done) ==> AllFlag(t, Done);
  }

  lemma DeliverKeepsInv(opts: Options, s: State, c: nat, d: Delivery, t: State)
    requires Inv(opts, s) && DeliverStep(opts, s, c, d, t)
    ensures Inv(opts, t)
  {
    var cam := AfterDelivery(s.cameras[c], d, s.enabled, opts);
    forall k ensures CountOk(t, k) && (s.cameras[c].Flag(k) ==> cam.Flag(k)) {
      DeliveryEffect(s.cameras[c], d, s.enabled, opts, k);
      UpdateCamera(s.cameras, c, cam, k);
      assert CountOk(s, k);
    }
    DeliveryEffect(s.cameras[c], d, s.enabled, opts, Ready);
    CameraKeepsInv(opts, s, c, cam, t);
  }

  lemma ReportKeepsCount(s: State, c: nat, i: nat, t: State, k: Kind)
    requires c < |s.cameras| && i < |s.cameras[c].tasks| && CountOk(s, k)
    requires t.cameras == s.cameras[c := DropTask(s.cameras[c], i)] && t.counters == s.counters
    requires t.failed || (!s.failed && s.cameras[c].tasks[i].owed == [])
    ensures CountOk(t, k)
  {
    DropOwes(s.cameras[c], i, k);
    UpdateCamera(s.cameras, c, DropTask(s.cameras[c], i), k);
  }

  lemma PayKeepsCount(s: State, c: nat, i: nat, t: State, k: Kind)
    requires c < |s.cameras| && i < |s.cameras[c].tasks| && CountOk(s, k) && t.failed == s.failed
    requires s.cameras[c].tasks[i].owed != []
    requires t.cameras == s.cameras[c := PayTask(s.cameras[c], i)]
    requires var paid := s.cameras[c].tasks[i].owed[0]; t.counters == s.counters[paid := Counter(s, paid) + 1]
    ensures CountOk(t, k)
  {
    PayOwes(s.cameras[c], i, k);
    UpdateCamera(s.cameras, c, PayTask(s.cameras[c], i), k);
    assert Counter(t, k) == Counter(s, k) + One(s.cameras[c].tasks[i].owed[0] == k);
  }

  lemma LandKeepsCounts(opts: Options, s: State, c: nat, i: nat, t: State)
    requires (forall k :: CountOk(s, k)) && LandStep(s, c, i, t)
    ensures forall k :: CountOk(t, k)
  {
    var task := s.cameras[c].tasks[i];
    forall k ensures CountOk(t, k) {
      assert CountOk(s, k);
      if task.error.Some? || task.owed == [] {
        ReportKeepsCount(s, c, i, t, k);
      } else {
        PayKeepsCount(s, c, i, t, k);
      }
    }
  }

  lemma LandKeepsInv(opts: Options, s: State, c: nat, i: nat, t: State)
    requires Inv(opts, s) && LandStep(s, c, i, t)
    ensures Inv(opts, t)
  {
    LandKeepsCounts(opts, s, c, i, t);
    var cam := t.cameras[c];
    assert cam.metrics == s.cameras[c].metrics;
    CameraKeepsInv(opts, s, c, cam, t);
  }

  lemma WaitingKeepsInv(opts: Options, s: State, a: Action, t: State)
    requires Inv(opts, s) && Next(opts, s, a, t) && (a.BeginWait? || a.WaitTimesOut?)
    ensures Inv(opts, t)
  {
    var c := a.c;
    forall k ensures CountOk(t, k) {
      assert CountOk(s, k);
      UpdateCamera(s.cameras, c, t.cameras[c], k);
      OwedOne(Task(Some("frame timeout"), []), k);
    }
    CameraKeepsInv(opts, s, c, t.cameras[c], t);
  }

  /** A full counter means that every camera has the flag. */
  lemma FullCounter(opts: Options, s: State, k: Kind)
    requires Inv(opts, s) && Counter(s, k) == opts.cameras
    ensures AllFlag(s, k)
  {
    assert CountOk(s, k);
    AllFlagged(s.cameras, k);
  }

  lemma MainKeepsPhase(opts: Options, s: State, t: State)
    requires PhaseOk(s, opts) && MainEnabled(s, opts) && t == AfterMain(s, opts)
    requires s.main.WarmWait? && !s.failed ==> AllFlag(s, Warm)
    requires s.main.Measuring? && !s.failed ==> Completed(s, opts)
    ensures PhaseOk(t, opts)
  {
    assert forall k :: AllFlag(s, k) == AllFlag(t, k);
  }

  lemma MainKeepsInv(opts: Options, s: State, t: State)
    requires Inv(opts, s) && MainEnabled(s, opts) && t == AfterMain(s, opts)
    ensures Inv(opts, t)
  {
    if s.main.WarmWait? && !s.failed {
      FullCounter(opts, s, Warm);
    } else if s.main.Measuring? && !s.failed && !opts.fixedDuration {
      FullCounter(opts, s, Done);
    }
    MainKeepsPhase(opts, s, t);
    forall k ensures CountOk(t, k) {
      assert CountOk(s, k);
    }
  }

  lemma NoiseKeepsPhase(opts: Options, s: State, a: Action, t: State)
    requires PhaseOk(s, opts) && NoiseStep(s, a, t)
    ensures PhaseOk(t, opts)
    ensures t.cameras == s.cameras && t.counters == s.counters && t.failed == s.failed
  {
    assert forall k :: AllFlag(s, k) == AllFlag(t, k);
  }

  lemma OtherKeepsPhase(opts: Options, s: State, main: Main, t: State)
    requires PhaseOk(s, opts) && t == s.(main := main)
    requires main == TimedOut(s.main)
             || (s.main.SchedulerApply? && main.Failing? && main.next == WarmWait)
             || (s.main.Stopping? && main.Failing? && main.next == Stopping)
    ensures PhaseOk(t, opts)
  {
    assert forall k :: AllFlag(s, k) == AllFlag(t, k);
  }

  lemma OtherKeepsInv(opts: Options, s: State, a: Action, t: State)
    requires Inv(opts, s) && Next(opts, s, a, t)
    requires a.MainTimesOut? || a.SchedulerFails? || a.StopFails? || NoiseStep(s, a, t)
    ensures Inv(opts, t)
  {
    if NoiseStep(s, a, t) {
      NoiseKeepsPhase(opts, s, a, t);
    } else {
      OtherKeepsPhase(opts, s, t.main, t);
    }
    forall k ensures CountOk(t, k) {
      assert CountOk(s, k);
    }
  }

  lemma StepKeepsInv(opts: Options, s: State, a: Action, t: State)
    requires Inv(opts, s) && Next(opts, s, a, t)
    ensures Inv(opts, t)
  {
    match a
    case BeginWait(_) => WaitingKeepsInv(opts, s, a, t);
    case WaitTimesOut(_, _) => WaitingKeepsInv(opts, s, a, t);
    case Deliver(c, d) => DeliverKeepsInv(opts, s, c, d, t);
    case Land(c, i) => LandKeepsInv(opts, s, c, i, t);
    case MainStep => MainKeepsInv(opts, s, t);
    case _ => OtherKeepsInv(opts, s, a, t);
  }

  lemma {:induction false} InvRun(opts: Options, plan: StoragePlan, run: seq<State>, acts: seq<Action>, i: nat)
    requires IsRun(opts, plan, run, acts) && i < |run|
    ensures Inv(opts, run[i])
  {
    if i == 0 {
      InvInit(opts, plan, run[0]);
    } else {
      InvRun(opts, plan, run, acts, i - 1);
      assert StepAt(opts, run, acts, i - 1);
      StepKeepsInv(opts, run[i - 1], acts[i - 1], run[i]);
    }
  }

  // ----- the promises

  /** Measurement is enabled only when every camera passed its warm-up check and,
      with a gate, only after the noise start-up finished. */
  lemma MeasuringMeansWarmAndNoisy(opts: Options, plan: StoragePlan, run: seq<State>, acts: seq<Action>, i: nat)
    requires IsRun(opts, plan, run, acts) && i < |run| && run[i].enabled
    ensures forall c :: 0 <= c < |run[i].cameras| ==> run[i].cameras[c].metrics.warmed
    ensures opts.gated ==> run[i].noiseStarted && run[i].noiseFinished
  {
    InvRun(opts, plan, run, acts, i);
    forall c | 0 <= c < |run[i].cameras| ensures run[i].cameras[c].metrics.warmed {
      assert run[i].cameras[c].Flag(Warm);
    }
  }

  /** Noise starts only once every camera is warm. */
  lemma NoiseWaitsForWarmup(opts: Options, plan: StoragePlan, run: seq<State>, acts: seq<Action>, i: nat)
    requires IsRun(opts, plan, run, acts) && i < |run| && run[i].noiseStarted
    ensures forall c :: 0 <= c < |run[i].cameras| ==> run[i].cameras[c].metrics.warmed
  {
    InvRun(opts, plan, run, acts, i);
    forall c | 0 <= c < |run[i].cameras| ensures run[i].cameras[c].metrics.warmed {
      assert run[i].cameras[c].Flag(Warm);
    }
  }

  /** Until a failure, each shared counter plus its increments in flight is the
      number of cameras whose flag is set. */
  lemma CountersMatchFlags(opts: Options, plan: StoragePlan, run: seq<State>, acts: seq<Action>, i: nat, k: Kind)
    requires IsRun(opts, plan, run, acts) && i < |run| && !run[i].failed
    ensures Counter(run[i], k) + InFlight(run[i].cameras, k) == Flagged(run[i].cameras, k)
  {
    InvRun(opts, plan, run, acts, i);
    assert CountOk(run[i], k);
  }

  lemma FailureStep(opts: Options, s: State, a: Action, t: State)
    requires Next(opts, s, a, t) && s.failed
    ensures t.failed && t.error == s.error
  {
  }

  /** A failure is permanent and keeps the first error. */
  lemma {:induction false} FailureIsPermanent(
      opts: Options, plan: StoragePlan, run: seq<State>, acts: seq<Action>, i: nat, j: nat)
    requires IsRun(opts, plan, run, acts) && i <= j < |run| && run[i].failed
    ensures run[j].failed && run[j].error == run[i].error
    decreases j - i
  {
    if i < j {
      FailureIsPermanent(opts, plan, run, acts, i, j - 1);
      assert StepAt(opts, run, acts, j - 1);
      FailureStep(opts, run[j - 1], acts[j - 1], run[j]);
    }
  }

  /** A successful delivery-count run leaves every camera with exactly `frames` deliveries. */
  lemma SuccessMeansExactDeliveries(opts: Options, plan: StoragePlan, run: seq<State>, acts: seq<Action>, i: nat)
    requires IsRun(opts, plan, run, acts) && i < |run|
    requires run[i].main == Finished && !run[i].failed && !opts.fixedDuration
    ensures forall c :: 0 <= c < |run[i].cameras| ==> run[i].cameras[c].metrics.deliveries == opts.frames
  {
    InvRun(opts, plan, run, acts, i);
    forall c | 0 <= c < |run[i].cameras| ensures run[i].cameras[c].metrics.deliveries == opts.frames {
      assert run[i].cameras[c].Flag(Done);
    }
  }

  // ----- storage

  predicate ProperAction(opts: Options, a: Action) {
    a.Deliver? ==> Proper(a.d.frames, opts.expected)
  }

  predicate Stored(m: Metrics, opts: Options, plan: StoragePlan) {
    CameraOk(m, opts) && Fits(m) && m.streams.Keys == opts.expected && m.plan == plan
  }

  lemma DeliveryStores(m: Metrics, d: Delivery, enabled: bool, opts: Options, plan: StoragePlan)
    requires opts.Valid() && !opts.fixedDuration && Stored(m, opts, plan) && Proper(d.frames, opts.expected)
    requires forall n: nat :: n <= opts.frames ==> Roomy(plan, n, |opts.expected|)
    ensures var o := RecordDelivery(m, d, enabled, opts); o.storage == NoError && Stored(o.metrics, opts, plan)
  {
    DeliveryEffect(Camera(m, [], None), d, enabled, opts, Done);
    AddFramesKeepsCounts(CountDelivery(m, d).0, d.frames, d.hostNs);
    assert |m.streams| == |m.streams.Keys|;
    if !m.completed && m.warmed && enabled {
      DeliveryFits(m, d, opts);
    }
  }

  lemma PreparedFits(plan: StoragePlan, opts: Options)
    requires opts.Valid()
    ensures Stored(Prepared(plan, opts.expected), opts, plan)
  {
    assert Prepared(plan, opts.expected).streams.Keys == opts.expected;
  }

  lemma LandFrame(s: State, c: nat, i: nat, t: State)
    requires LandStep(s, c, i, t)
    ensures |t.cameras| == |s.cameras|
    ensures forall b :: 0 <= b < |s.cameras| ==> t.cameras[b].metrics == s.cameras[b].metrics
  {
  }

  lemma OtherFrame(opts: Options, s: State, a: Action, t: State)
    requires Next(opts, s, a, t) && !a.Deliver? && !a.Land? && !a.BeginWait? && !a.WaitTimesOut?
    ensures t.cameras == s.cameras
  {
  }

  lemma MetricsFrame(opts: Options, s: State, a: Action, t: State, c: nat)
    requires Next(opts, s, a, t) && c < |s.cameras|
    ensures |t.cameras| == |s.cameras|
    ensures !(a.Deliver? && a.c == c) ==> t.cameras[c].metrics == s.cameras[c].metrics
  {
    if a.Land? {
      LandFrame(s, a.c, a.i, t);
    } else if !a.Deliver? && !a.BeginWait? && !a.WaitTimesOut? {
      OtherFrame(opts, s, a, t);
    }
  }

  lemma {:induction false} StoredRun(
      opts: Options, plan: StoragePlan, run: seq<State>, acts: seq<Action>, i: nat, c: nat)
    requires IsRun(opts, plan, run, acts) && i < |run| && !opts.fixedDuration && c < opts.cameras
    requires forall k :: 0 <= k < |acts| ==> ProperAction(opts, acts[k])
    requires forall n: nat :: n <= opts.frames ==> Roomy(plan, n, |opts.expected|)
    ensures |run[i].cameras| == opts.cameras && Stored(run[i].cameras[c].metrics, opts, plan)
  {
    if i == 0 {
      PreparedFits(plan, opts);
    } else {
      StoredRun(opts, plan, run, acts, i - 1, c);
      var s, a := run[i - 1], acts[i - 1];
      assert StepAt(opts, run, acts, i - 1) && ProperAction(opts, a);
      MetricsFrame(opts, s, a, run[i], c);
      if a.Deliver? && a.c == c {
        DeliveryStores(s.cameras[c].metrics, a.d, s.enabled, opts, plan);
      }
    }
  }

  /** With the plan the probe makes for a delivery-count run, deliveries of at
      most one frame per expected stream never exhaust a preallocated buffer. */
  lemma StorageNeverExhausted(
      opts: Options, plan: StoragePlan, run: seq<State>, acts: seq<Action>, i: nat)
    requires IsRun(opts, plan, run, acts) && i < |acts| && !opts.fixedDuration
    requires MakeStoragePlan(opts.frames, 0, opts.fps, |opts.expected|, !opts.waitDelivery) == Success(plan)
    requires forall k :: 0 <= k < |acts| ==> ProperAction(opts, acts[k])
    requires acts[i].Deliver?
    ensures acts[i].c < |run[i].cameras|
    ensures RecordDelivery(run[i].cameras[acts[i].c].metrics, acts[i].d, run[i].enabled, opts).storage == NoError
  {
    CountedPlanIsRoomy(opts.frames, opts.fps, |opts.expected|, !opts.waitDelivery);
    assert StepAt(opts, run, acts, i) && ProperAction(opts, acts[i]);
    InvRun(opts, plan, run, acts, i);
    StoredRun(opts, plan, run, acts, i, acts[i].c);
    DeliveryStores(run[i].cameras[acts[i].c].metrics, acts[i].d, run[i].enabled, opts, plan);
  }
}
