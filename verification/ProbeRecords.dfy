/** What the metrics of every reachable probe state record: the warm-up window a
    camera passed, and the stored events that the freshness summary reads. */
module ProbeRecords {
  import opened Numbers
  import opened Sequences
  import opened SteadyMetrics
  import opened Probe
  import ProbeSafety
  import opened Freshness
  import opened FreshnessMeaning

  // ----- the warm-up window

  /** Frame numbers of one stream, in order of arrival. */
  function FrameNumbers(frames: seq<Frame>, k: SteadyMetrics.Stream): seq<nat> {
    if |frames| == 0 then []
    else (if frames[0].stream == k then [frames[0].number] else []) + FrameNumbers(frames[1..], k)
  }

  /** How many of the warm-up deliveries are checked, counted from the last one. */
  function WindowSize(opts: Options): nat {
    Min(opts.warmupFrames, if opts.healthWindow > 0 then opts.healthWindow else Max(2, opts.fps))
  }

  predicate CountsForHealth(m: Metrics, opts: Options) {
    !m.completed && !m.warmed && m.warmupDeliveries + WindowSize(opts) >= opts.warmupFrames
  }

  /** The numbers of stream `k` that camera `c` delivered in its health window. */
  function WindowNumbers(
      opts: Options, run: seq<State>, acts: seq<Action>, i: nat, c: nat, k: SteadyMetrics.Stream): seq<nat>
    requires i < |run| && i <= |acts|
  {
    if i == 0 then []
    else
      var earlier, a := WindowNumbers(opts, run, acts, i - 1, c, k), acts[i - 1];
      if a.Deliver? && a.c == c < |run[i - 1].cameras| && CountsForHealth(run[i - 1].cameras[c].metrics, opts)
      then earlier + FrameNumbers(a.d.frames, k)
      else earlier
  }

  lemma WarmupAppend(ns: seq<nat>, x: nat)
    ensures WarmupOf(ns + [x]) == RecordWarmup(WarmupOf(ns), x)
  {
    assert (ns + [x])[..|ns|] == ns;
  }

  lemma {:induction false} RecordWarmupsOf(
      warmup: map<SteadyMetrics.Stream, WarmupStream>, frames: seq<Frame>, k: SteadyMetrics.Stream, ns: seq<nat>)
    requires k in warmup && warmup[k] == WarmupOf(ns)
    ensures var r := RecordWarmups(warmup, frames).0;
            r.Keys == warmup.Keys && r[k] == WarmupOf(ns + FrameNumbers(frames, k))
    decreases |frames|
  {
    if |frames| == 0 {
      assert ns + [] == ns;
    } else {
      var f := frames[0];
      var next := if f.stream in warmup then warmup[f.stream := RecordWarmup(warmup[f.stream], f.number)] else warmup;
      assert next.Keys == warmup.Keys;
      if f.stream == k {
        WarmupAppend(ns, f.number);
        RecordWarmupsOf(next, frames[1..], k, ns + [f.number]);
        assert ns + [f.number] + FrameNumbers(frames[1..], k) == ns + FrameNumbers(frames, k);
      } else {
        RecordWarmupsOf(next, frames[1..], k, ns);
        assert FrameNumbers(frames, k) == FrameNumbers(frames[1..], k);
      }
    }
  }

  /** The counters of stream `k` are those of the numbers `ns`, and a warm camera is healthy. */
  predicate WindowRecorded(m: Metrics, opts: Options, k: SteadyMetrics.Stream, ns: seq<nat>) {
    && m.warmup.Keys == opts.expected && k in m.warmup && m.warmup[k] == WarmupOf(ns)
    && (m.warmed ==> WarmupHealthy(m, opts))
  }

  lemma MeasuringKeepsWarmup(m: Metrics, d: Delivery, opts: Options)
    ensures var after := MeasuredDelivery(m, d, opts).metrics;
            && after.warmup == m.warmup && after.warmed == m.warmed
            && after.healthDeliveries == m.healthDeliveries
  {
    AddFramesKeepsWarmup(CountDelivery(m, d).0, d.frames, d.hostNs);
  }

  lemma {:induction false} AddFramesKeepsWarmup(m: Metrics, frames: seq<Frame>, hostNs: int)
    ensures var after := AddFrames(m, frames, hostNs).0;
            && after.warmup == m.warmup && after.warmed == m.warmed
            && after.healthDeliveries == m.healthDeliveries
    decreases |frames|
  {
    if frames != [] && FrameError(m, frames[0]) == NoError {
      AddFramesKeepsWarmup(AddFrame(m, frames[0], hostNs), frames[1..], hostNs);
    }
  }

  lemma DeliveryKeepsWindow(
      m: Metrics, d: Delivery, enabled: bool, opts: Options, k: SteadyMetrics.Stream, ns: seq<nat>)
    requires WindowRecorded(m, opts, k, ns)
    ensures WindowRecorded(RecordDelivery(m, d, enabled, opts).metrics, opts, k,
                           if CountsForHealth(m, opts) then ns + FrameNumbers(d.frames, k) else ns)
  {
    if !m.completed && !m.warmed {
      RecordWarmupsOf(m.warmup, d.frames, k, ns);
    } else if !m.completed && enabled {
      MeasuringKeepsWarmup(m, d, opts);
    }
  }

  lemma {:induction false} WindowRun(
      opts: Options, plan: StoragePlan, run: seq<State>, acts: seq<Action>, i: nat, c: nat, k: SteadyMetrics.Stream)
    requires IsRun(opts, plan, run, acts) && i < |run| && c < opts.cameras && k in opts.expected
    ensures |run[i].cameras| == opts.cameras
    ensures WindowRecorded(run[i].cameras[c].metrics, opts, k, WindowNumbers(opts, run, acts, i, c, k))
  {
    if i == 0 {
      assert Prepared(plan, opts.expected).warmup.Keys == opts.expected;
    } else {
      WindowRun(opts, plan, run, acts, i - 1, c, k);
      var s, a := run[i - 1], acts[i - 1];
      assert StepAt(opts, run, acts, i - 1);
      ProbeSafety.MetricsFrame(opts, s, a, run[i], c);
      if a.Deliver? && a.c == c {
        DeliveryKeepsWindow(s.cameras[c].metrics, a.d, s.enabled, opts, k, WindowNumbers(opts, run, acts, i - 1, c, k));
      }
    }
  }

  /** Repeats that the warm-up check tolerates on a stream. */
  function Tolerated(opts: Options, k: SteadyMetrics.Stream, deliveries: nat): nat {
    if opts.hardwareSync && "Color#" <= k then Max(1, deliveries / 20) else 0
  }

  /** While measurement is enabled, every expected stream of every camera had at
      least two frames in its health window, never fell back or skipped a number,
      and repeated one only as often as tolerated: not at all outside a
      hardware-synchronised color stream, so that the numbers are consecutive. */
  lemma MeasuringMeansSteadyWarmup(
      opts: Options, plan: StoragePlan, run: seq<State>, acts: seq<Action>, i: nat, c: nat, k: SteadyMetrics.Stream)
    requires IsRun(opts, plan, run, acts) && i < |run| && run[i].enabled && c < opts.cameras && k in opts.expected
    ensures |run[i].cameras| == opts.cameras
    ensures var ns, m := WindowNumbers(opts, run, acts, i, c, k), run[i].cameras[c].metrics;
            && |ns| >= 2 && NeverJumps(ns) && Repeats(ns) <= Tolerated(opts, k, m.healthDeliveries)
            && (opts.waitDelivery ==> |ns| == m.healthDeliveries)
            && (Tolerated(opts, k, m.healthDeliveries) == 0 ==> Consecutive(ns))
  {
    WindowRun(opts, plan, run, acts, i, c, k);
    ProbeSafety.MeasuringMeansWarmAndNoisy(opts, plan, run, acts, i);
    var ns, m := WindowNumbers(opts, run, acts, i, c, k), run[i].cameras[c].metrics;
    WarmupCountersMeaning(ns);
    assert StreamHealthy(k, m.warmup[k], m.healthDeliveries, opts);
  }

  /** The numbers of stream `k` pass the warm-up check. */
  predicate IsSteady(opts: Options, k: SteadyMetrics.Stream, ns: seq<nat>, deliveries: nat) {
    && |ns| >= 2 && NeverJumps(ns) && Repeats(ns) <= Tolerated(opts, k, deliveries)
    && (opts.waitDelivery ==> |ns| == deliveries)
  }

  lemma HealthyMeansSteady(opts: Options, k: SteadyMetrics.Stream, ns: seq<nat>, deliveries: nat)
    ensures StreamHealthy(k, WarmupOf(ns), deliveries, opts) <==> IsSteady(opts, k, ns, deliveries)
  {
    WarmupCountersMeaning(ns);
  }

  /** The checked deliveries are those among the last `WindowSize` of the warm-up
      and any after it; the camera is ready for its scheduler after the given
      number of deliveries, or a tenth of the warm-up but at most a second. */
  predicate WarmupCounted(m: Metrics, opts: Options) {
    && (m.schedulerReady <==>
          && opts.modeledScheduler
          && if opts.applyAfter > 0 then m.warmupDeliveries >= opts.applyAfter
             else m.warmupDeliveries > 0
                  && (m.warmupDeliveries >= opts.fps || m.warmupDeliveries >= opts.warmupFrames / 10))
    && m.healthDeliveries == Max(0, m.warmupDeliveries - (opts.warmupFrames - WindowSize(opts)))
    && (m.completed ==> m.warmed)
  }

  lemma DeliveryKeepsCount(m: Metrics, d: Delivery, enabled: bool, opts: Options)
    requires WarmupCounted(m, opts) && opts.Valid()
    ensures WarmupCounted(RecordDelivery(m, d, enabled, opts).metrics, opts)
  {
    if !m.completed && m.warmed && enabled {
      AddFramesKeepsCount(SteadyMetrics.CountDelivery(m, d).0, d.frames, d.hostNs);
    }
  }

  lemma {:induction false} AddFramesKeepsCount(m: Metrics, frames: seq<Frame>, hostNs: int)
    ensures var after := AddFrames(m, frames, hostNs).0;
            && after.warmupDeliveries == m.warmupDeliveries && after.healthDeliveries == m.healthDeliveries
            && after.warmed == m.warmed && after.completed == m.completed && after.schedulerReady == m.schedulerReady
    decreases |frames|
  {
    if frames != [] && FrameError(m, frames[0]) == NoError {
      AddFramesKeepsCount(AddFrame(m, frames[0], hostNs), frames[1..], hostNs);
    }
  }

  /** In every reachable state the counters of the warm-up are as they should be. */
  lemma {:induction false} WarmupProgress(
      opts: Options, plan: StoragePlan, run: seq<State>, acts: seq<Action>, i: nat, c: nat)
    requires IsRun(opts, plan, run, acts) && i < |run| && c < opts.cameras
    ensures |run[i].cameras| == opts.cameras && WarmupCounted(run[i].cameras[c].metrics, opts)
  {
    if i > 0 {
      WarmupProgress(opts, plan, run, acts, i - 1, c);
      var s, a := run[i - 1], acts[i - 1];
      assert StepAt(opts, run, acts, i - 1);
      ProbeSafety.MetricsFrame(opts, s, a, run[i], c);
      if a.Deliver? && a.c == c {
        DeliveryKeepsCount(s.cameras[c].metrics, a.d, s.enabled, opts);
      }
    }
  }

  predicate AllExpected(opts: Options, frames: seq<Frame>) {
    forall i :: 0 <= i < |frames| ==> frames[i].stream in opts.expected
  }

  lemma {:induction false} KnownMeansExpected(
      warmup: map<SteadyMetrics.Stream, WarmupStream>, frames: seq<Frame>, opts: Options)
    requires warmup.Keys == opts.expected
    ensures RecordWarmups(warmup, frames).1 <==> AllExpected(opts, frames)
    decreases |frames|
  {
    if |frames| > 0 {
      var f := frames[0];
      var next := if f.stream in warmup then warmup[f.stream := RecordWarmup(warmup[f.stream], f.number)] else warmup;
      assert next.Keys == warmup.Keys;
      KnownMeansExpected(next, frames[1..], opts);
      assert AllExpected(opts, frames) <==> f.stream in opts.expected && AllExpected(opts, frames[1..]);
    }
  }

  /** The delivery is at least the last of the warm-up, brought expected streams
      only, and the window of every expected stream is steady. */
  predicate PassesWarmup(
      opts: Options, run: seq<State>, acts: seq<Action>, i: nat, c: nat)
    requires i < |acts| && i + 1 < |run| && acts[i].Deliver? && c < |run[i].cameras|
  {
    var m := run[i].cameras[c].metrics;
    var deliveries := m.healthDeliveries + if CountsForHealth(m, opts) then 1 else 0;
    && m.warmupDeliveries + 1 >= opts.warmupFrames
    && (CountsForHealth(m, opts) ==> AllExpected(opts, acts[i].d.frames))
    && forall k :: k in opts.expected ==> IsSteady(opts, k, WindowNumbers(opts, run, acts, i + 1, c, k), deliveries)
  }

  lemma WarmExactly(m: Metrics, d: Delivery, opts: Options)
    requires m.warmup.Keys == opts.expected && !m.warmed
    ensures var after := WarmupDelivery(m, d, opts).metrics;
            && (after.warmed <==> m.warmupDeliveries + 1 >= opts.warmupFrames && WarmupHealthy(after, opts)
                                  && (m.warmupDeliveries + WindowSize(opts) >= opts.warmupFrames ==>
                                        AllExpected(opts, d.frames)))
  {
    KnownMeansExpected(m.warmup, d.frames, opts);
  }

  /** A camera becomes warm exactly with a delivery that passes the warm-up check. */
  lemma BecomesWarmExactly(
      opts: Options, plan: StoragePlan, run: seq<State>, acts: seq<Action>, i: nat, c: nat)
    requires IsRun(opts, plan, run, acts) && i < |acts| && acts[i].Deliver? && acts[i].c == c < opts.cameras
    ensures |run[i].cameras| == |run[i + 1].cameras| == opts.cameras
    ensures !run[i].cameras[c].metrics.warmed ==>
              (run[i + 1].cameras[c].metrics.warmed <==> PassesWarmup(opts, run, acts, i, c))
  {
    WarmupProgress(opts, plan, run, acts, i, c);
    WarmupProgress(opts, plan, run, acts, i + 1, c);
    assert StepAt(opts, run, acts, i);
    var m, after := run[i].cameras[c].metrics, run[i + 1].cameras[c].metrics;
    if !m.warmed {
      WarmupKeys(opts, plan, run, acts, i, c);
      WarmExactly(m, acts[i].d, opts);
      forall k | k in opts.expected
        ensures k in after.warmup
        ensures StreamHealthy(k, after.warmup[k], after.healthDeliveries, opts)
                <==> IsSteady(opts, k, WindowNumbers(opts, run, acts, i + 1, c, k), after.healthDeliveries)
      {
        WindowRun(opts, plan, run, acts, i + 1, c, k);
        HealthyMeansSteady(opts, k, WindowNumbers(opts, run, acts, i + 1, c, k), after.healthDeliveries);
      }
      WarmupKeys(opts, plan, run, acts, i + 1, c);
    }
  }

  lemma {:induction false} WarmupKeys(
      opts: Options, plan: StoragePlan, run: seq<State>, acts: seq<Action>, i: nat, c: nat)
    requires IsRun(opts, plan, run, acts) && i < |run| && c < opts.cameras
    ensures |run[i].cameras| == opts.cameras && run[i].cameras[c].metrics.warmup.Keys == opts.expected
  {
    if i == 0 {
      assert Prepared(plan, opts.expected).warmup.Keys == opts.expected;
    } else {
      WarmupKeys(opts, plan, run, acts, i - 1, c);
      var s, a := run[i - 1], acts[i - 1];
      assert StepAt(opts, run, acts, i - 1);
      ProbeSafety.MetricsFrame(opts, s, a, run[i], c);
      if a.Deliver? && a.c == c {
        DeliveryKeepsKeys(s.cameras[c].metrics, a.d, s.enabled, opts);
      }
    }
  }

  lemma DeliveryKeepsKeys(m: Metrics, d: Delivery, enabled: bool, opts: Options)
    ensures RecordDelivery(m, d, enabled, opts).metrics.warmup.Keys == m.warmup.Keys
  {
    if !m.completed && !m.warmed {
      RecordWarmupsKeys(m.warmup, d.frames);
    } else if !m.completed && enabled {
      MeasuringKeepsWarmup(m, d, opts);
    }
  }

  lemma {:induction false} RecordWarmupsKeys(warmup: map<SteadyMetrics.Stream, WarmupStream>, frames: seq<Frame>)
    ensures RecordWarmups(warmup, frames).0.Keys == warmup.Keys
    decreases |frames|
  {
    if frames != [] {
      var f := frames[0];
      var next := if f.stream in warmup then warmup[f.stream := RecordWarmup(warmup[f.stream], f.number)] else warmup;
      assert next.Keys == warmup.Keys;
      RecordWarmupsKeys(next, frames[1..]);
    }
  }

  // ----- the stored events

  /** Events are stored delivery by delivery. */
  predicate EventsInOrder(m: Metrics) {
    && (forall i :: 0 <= i < |m.events| ==> m.events[i].delivery <= m.deliveries)
    && (forall i, j :: 0 <= i < j < |m.events| ==> m.events[i].delivery <= m.events[j].delivery)
  }

  lemma {:induction false} AddFramesInOrder(m: Metrics, frames: seq<Frame>, hostNs: int)
    requires EventsInOrder(m)
    ensures EventsInOrder(AddFrames(m, frames, hostNs).0)
    decreases |frames|
  {
    if frames != [] && FrameError(m, frames[0]) == NoError {
      AddFramesInOrder(AddFrame(m, frames[0], hostNs), frames[1..], hostNs);
    }
  }

  lemma DeliveryInOrder(m: Metrics, d: Delivery, enabled: bool, opts: Options)
    requires EventsInOrder(m)
    ensures EventsInOrder(RecordDelivery(m, d, enabled, opts).metrics)
  {
    AddFramesInOrder(CountDelivery(m, d).0, d.frames, d.hostNs);
  }

  lemma {:induction false} RecordsRun(
      opts: Options, plan: StoragePlan, run: seq<State>, acts: seq<Action>, i: nat, c: nat)
    requires IsRun(opts, plan, run, acts) && i < |run| && c < opts.cameras
    ensures |run[i].cameras| == opts.cameras
    ensures DropsRecorded(run[i].cameras[c].metrics) && EventsInOrder(run[i].cameras[c].metrics)
  {
    if i > 0 {
      RecordsRun(opts, plan, run, acts, i - 1, c);
      var s, a := run[i - 1], acts[i - 1];
      assert StepAt(opts, run, acts, i - 1);
      ProbeSafety.MetricsFrame(opts, s, a, run[i], c);
      if a.Deliver? && a.c == c {
        DeliveryRecordsDrops(s.cameras[c].metrics, a.d, s.enabled, opts);
        DeliveryInOrder(s.cameras[c].metrics, a.d, s.enabled, opts);
      }
    }
  }

  lemma {:induction false} DeliveriesBelow(rows: seq<Row>, bound: nat)
    requires forall i :: 0 <= i < |rows| ==> rows[i].delivery < bound
    ensures forall d :: d in Deliveries(rows) ==> d.1 < bound
  {
    if |rows| > 0 {
      DeliveriesBelow(rows[..|rows| - 1], bound);
    }
  }

  lemma {:induction false} RowsMeaning(c: nat, events: seq<SteadyMetrics.Event>)
    ensures |RowsOf(c, events)| == |events|
    ensures forall i :: 0 <= i < |events| ==>
                          RowsOf(c, events)[i] == Row(c, events[i].delivery, events[i].stream, events[i].number)
  {
    if |events| > 0 {
      RowsMeaning(c, events[..|events| - 1]);
    }
  }

  predicate DeliveriesAscend(rows: seq<Row>) {
    forall i, j :: 0 <= i < j < |rows| ==> rows[i].delivery <= rows[j].delivery && rows[i].camera == rows[j].camera
  }

  lemma {:induction false} AscendingIsContiguous(rows: seq<Row>)
    requires DeliveriesAscend(rows)
    ensures Contiguous(rows)
  {
    if |rows| > 1 {
      var n := |rows| - 1;
      AscendingIsContiguous(rows[..n]);
      if rows[n].delivery > rows[n - 1].delivery {
        DeliveriesBelow(rows[..n], rows[n].delivery);
      }
    }
  }

  /** The event file rows of a camera. */
  function CameraRows(s: State, c: nat): seq<Row>
    requires c < |s.cameras|
  {
    RowsOf(c, s.cameras[c].metrics.events)
  }

  lemma ReachableRows(
      opts: Options, plan: StoragePlan, run: seq<State>, acts: seq<Action>, i: nat, c: nat)
    requires IsRun(opts, plan, run, acts) && i < |run| && c < opts.cameras
    ensures |run[i].cameras| == opts.cameras
    ensures var rows := CameraRows(run[i], c); Contiguous(rows) && OfCamera(rows, c)
  {
    RecordsRun(opts, plan, run, acts, i, c);
    RowsMeaning(c, run[i].cameras[c].metrics.events);
    AscendingIsContiguous(CameraRows(run[i], c));
  }

  /** In every reachable state a stream without late frames reports as gaps
      exactly the drops that were counted while recording. */
  lemma ReachableDropsEqualGaps(
      opts: Options, plan: StoragePlan, run: seq<State>, acts: seq<Action>, i: nat, c: nat, k: SteadyMetrics.Stream)
    requires IsRun(opts, plan, run, acts) && i < |run| && c < opts.cameras
    ensures |run[i].cameras| == opts.cameras
    ensures var m, f := run[i].cameras[c].metrics, Analyze(CameraRows(run[i], c));
            k in m.streams && (c, k) in f.streams && f.streams[(c, k)].outOfOrder == 0 ==>
              m.streams[k].drops == f.streams[(c, k)].gaps
  {
    RecordsRun(opts, plan, run, acts, i, c);
    var m, f := run[i].cameras[c].metrics, Analyze(CameraRows(run[i], c));
    if k in m.streams && (c, k) in f.streams && f.streams[(c, k)].outOfOrder == 0 {
      RecordedDropsEqualGaps(m, c, k);
    }
  }

  /** In every reachable state the delivery classes of a camera mean what they say. */
  lemma ReachableDeliveryClasses(
      opts: Options, plan: StoragePlan, run: seq<State>, acts: seq<Action>, i: nat, c: nat)
    requires IsRun(opts, plan, run, acts) && i < |run| && c < opts.cameras
    ensures |run[i].cameras| == opts.cameras
    ensures var rows := CameraRows(run[i], c); var f := Analyze(rows);
            && f.fullyFresh == |Deliveries(rows) - Repeating(rows)|
            && f.partial == |Advancing(rows) * Repeating(rows)|
            && f.stale == |Deliveries(rows) - Advancing(rows)|
            && f.fullyFresh + f.partial + f.stale == |Deliveries(rows)|
  {
    ReachableRows(opts, plan, run, acts, i, c);
    DeliveryClassesMeaning(CameraRows(run[i], c));
  }

  /** The event file of all cameras, one after the other. */
  function AllRows(s: State): (cameras: seq<seq<Row>>)
    ensures |cameras| == |s.cameras| && forall c :: 0 <= c < |cameras| ==> cameras[c] == CameraRows(s, c)
  {
    seq(|s.cameras|, c requires 0 <= c < |s.cameras| => CameraRows(s, c))
  }

  /** In every reachable state E2 counts on the written file as many stale
      framesets as the summary has partially stale and stale ones. */
  lemma ReachableStaleFramesetsAgree(
      opts: Options, plan: StoragePlan, run: seq<State>, acts: seq<Action>, i: nat)
    requires IsRun(opts, plan, run, acts) && i < |run|
    ensures var cameras := AllRows(run[i]); CountsOf(ProblemRows(Flatten(cameras))).stale == SummedStale(cameras)
  {
    ProbeSafety.InvRun(opts, plan, run, acts, i);
    forall c | 0 <= c < |run[i].cameras| ensures OfCamera(AllRows(run[i])[c], c) && Contiguous(AllRows(run[i])[c]) {
      ReachableRows(opts, plan, run, acts, i, c);
    }
    StaleFramesetsAgree(AllRows(run[i]));
  }
}
