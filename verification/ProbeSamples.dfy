/** What the samples of every reachable probe state are: the deliveries a camera
    recorded in that run, and the time differences between them. */
module ProbeSamples {
  import opened Wrappers
  import opened SteadyMetrics
  import opened Probe
  import ProbeSafety

  function Gaps(times: seq<int>): nat {
    if |times| == 0 then 0 else |times| - 1
  }

  /** The differences of neighbouring values. */
  function Differences(times: seq<int>): (gaps: seq<int>)
    ensures |gaps| == Gaps(times) && forall i :: 0 <= i < |gaps| ==> gaps[i] == times[i + 1] - times[i]
  {
    seq(Gaps(times), i requires 0 <= i < Gaps(times) => times[i + 1] - times[i])
  }

  lemma DifferencesNext(times: seq<int>, x: int)
    ensures Differences(times + [x]) == Differences(times) + if |times| == 0 then [] else [x - times[|times| - 1]]
  {
  }

  // ----- the deliveries that were recorded

  predicate IsMeasured(s: State, a: Action) {
    && a.Deliver? && a.c < |s.cameras| && s.enabled
    && s.cameras[a.c].metrics.warmed && !s.cameras[a.c].metrics.completed
  }

  /** A measured delivery counts unless it comes after the end of a fixed duration. */
  predicate IsRecorded(opts: Options, s: State, a: Action) {
    IsMeasured(s, a) && !(opts.fixedDuration && a.d.late)
  }

  /** The deliveries that camera `c` recorded in the first `i` steps. */
  function Recorded(opts: Options, run: seq<State>, acts: seq<Action>, i: nat, c: nat): seq<Delivery>
    requires i < |run| && i <= |acts|
  {
    if i == 0 then []
    else
      var earlier, a := Recorded(opts, run, acts, i - 1, c), acts[i - 1];
      if IsRecorded(opts, run[i - 1], a) && a.c == c then earlier + [a.d] else earlier
  }

  /** No buffer was exhausted in the first `i` steps. */
  predicate NothingExhausted(opts: Options, run: seq<State>, acts: seq<Action>, i: nat)
    requires i < |run| && i <= |acts|
  {
    forall j :: 0 <= j < i && acts[j].Deliver? && acts[j].c < |run[j].cameras| ==>
                  RecordDelivery(run[j].cameras[acts[j].c].metrics, acts[j].d, run[j].enabled, opts).storage == NoError
  }

  // ----- the frames of a stream

  /** A frame and the time its delivery reached the host. */
  datatype Sample = Sample(number: nat, sensorMs: int, hostNs: int)

  function SampleOf(f: Frame, hostNs: int, k: SteadyMetrics.Stream): seq<Sample> {
    if f.stream == k then [Sample(f.number, f.sensorMs, hostNs)] else []
  }

  function SamplesOf(frames: seq<Frame>, hostNs: int, k: SteadyMetrics.Stream): seq<Sample> {
    if |frames| == 0 then [] else SampleOf(frames[0], hostNs, k) + SamplesOf(frames[1..], hostNs, k)
  }

  /** The frames of stream `k` in these deliveries, in order. */
  function Samples(ds: seq<Delivery>, k: SteadyMetrics.Stream): seq<Sample> {
    if |ds| == 0 then []
    else
      var n := |ds| - 1;
      Samples(ds[..n], k) + SamplesOf(ds[n].frames, ds[n].hostNs, k)
  }

  function SensorTimes(xs: seq<Sample>): (times: seq<int>)
    ensures |times| == |xs| && forall i :: 0 <= i < |xs| ==> times[i] == xs[i].sensorMs
  {
    seq(|xs|, i requires 0 <= i < |xs| => xs[i].sensorMs)
  }

  function HostTimes(xs: seq<Sample>): (times: seq<int>)
    ensures |times| == |xs| && forall i :: 0 <= i < |xs| ==> times[i] == xs[i].hostNs
  {
    seq(|xs|, i requires 0 <= i < |xs| => xs[i].hostNs)
  }

  /** The statistics of a stream are those of its frames. */
  predicate IsStreamOf(s: StreamSamples, xs: seq<Sample>) {
    var n := |xs|;
    && s.frames == n
    && s.sensorGaps == Differences(SensorTimes(xs)) && s.hostGaps == Differences(HostTimes(xs))
    && (if n == 0 then s.last.None?
        else && s.last == Some(xs[n - 1].number)
             && s.lastSensorMs == xs[n - 1].sensorMs && s.lastHostNs == xs[n - 1].hostNs)
  }

  lemma TimesAdded(xs: seq<Sample>, x: Sample)
    ensures SensorTimes(xs + [x]) == SensorTimes(xs) + [x.sensorMs]
    ensures HostTimes(xs + [x]) == HostTimes(xs) + [x.hostNs]
  {
  }

  lemma SampleAdded(s: StreamSamples, f: Frame, hostNs: int, xs: seq<Sample>)
    requires IsStreamOf(s, xs)
    ensures IsStreamOf(AddSample(s, f, hostNs), xs + [Sample(f.number, f.sensorMs, hostNs)])
  {
    TimesAdded(xs, Sample(f.number, f.sensorMs, hostNs));
    DifferencesNext(SensorTimes(xs), f.sensorMs);
    DifferencesNext(HostTimes(xs), hostNs);
  }

  lemma FrameAdded(m: Metrics, f: Frame, hostNs: int, k: SteadyMetrics.Stream, xs: seq<Sample>)
    requires k in m.streams && f.stream in m.streams && IsStreamOf(m.streams[k], xs)
    ensures AddFrame(m, f, hostNs).streams.Keys == m.streams.Keys
    ensures IsStreamOf(AddFrame(m, f, hostNs).streams[k], xs + SampleOf(f, hostNs, k))
  {
    if f.stream == k {
      SampleAdded(m.streams[k], f, hostNs, xs);
    } else {
      assert xs + [] == xs;
    }
  }

  lemma {:induction false} FramesAdded(
      m: Metrics, frames: seq<Frame>, hostNs: int, k: SteadyMetrics.Stream, xs: seq<Sample>)
    requires k in m.streams && IsStreamOf(m.streams[k], xs) && AddFrames(m, frames, hostNs).1 == NoError
    ensures AddFrames(m, frames, hostNs).0.streams.Keys == m.streams.Keys
    ensures IsStreamOf(AddFrames(m, frames, hostNs).0.streams[k], xs + SamplesOf(frames, hostNs, k))
    decreases |frames|
  {
    if frames == [] {
      assert xs + [] == xs;
    } else {
      var f := frames[0];
      FrameAdded(m, f, hostNs, k, xs);
      FramesAdded(AddFrame(m, f, hostNs), frames[1..], hostNs, k, xs + SampleOf(f, hostNs, k));
      assert xs + SamplesOf(frames, hostNs, k) == (xs + SampleOf(f, hostNs, k)) + SamplesOf(frames[1..], hostNs, k);
    }
  }

  // ----- the deliveries of a camera

  function Arrivals(ds: seq<Delivery>): (times: seq<int>)
    ensures |times| == |ds| && forall i :: 0 <= i < |ds| ==> times[i] == ds[i].hostNs
  {
    seq(|ds|, i requires 0 <= i < |ds| => ds[i].hostNs)
  }

  /** The waits that were measured. */
  function Waits(ds: seq<Delivery>): seq<int> {
    if |ds| == 0 then []
    else
      var d := ds[|ds| - 1];
      Waits(ds[..|ds| - 1]) + if d.waitMs.Some? then [d.waitMs.value] else []
  }

  function FrameCount(ds: seq<Delivery>): nat {
    if |ds| == 0 then 0 else FrameCount(ds[..|ds| - 1]) + |ds[|ds| - 1].frames|
  }

  predicate IsDeliveriesOf(m: Metrics, ds: seq<Delivery>) {
    && m.deliveries == |ds|
    && m.frames == FrameCount(ds)
    && m.intervals == Differences(Arrivals(ds))
    && m.waits == Waits(ds)
    && m.lastDeliveryNs == if |ds| == 0 then None else Some(ds[|ds| - 1].hostNs)
  }

  lemma {:induction false} DeliveriesNext(ds: seq<Delivery>, d: Delivery)
    ensures Waits(ds + [d]) == Waits(ds) + if d.waitMs.Some? then [d.waitMs.value] else []
    ensures Differences(Arrivals(ds + [d]))
            == Differences(Arrivals(ds)) + if |ds| == 0 then [] else [d.hostNs - ds[|ds| - 1].hostNs]
    ensures FrameCount(ds + [d]) == FrameCount(ds) + |d.frames|
  {
    assert (ds + [d])[..|ds|] == ds;
    assert Arrivals(ds + [d]) == Arrivals(ds) + [d.hostNs];
    DifferencesNext(Arrivals(ds), d.hostNs);
  }

  lemma DeliveryCounted(m: Metrics, d: Delivery, ds: seq<Delivery>)
    requires IsDeliveriesOf(m, ds) && SteadyMetrics.CountDelivery(m, d).1 == NoError
    ensures IsDeliveriesOf(SteadyMetrics.CountDelivery(m, d).0.(frames := m.frames + |d.frames|), ds + [d])
  {
    DeliveriesNext(ds, d);
  }

  /** Frames leave the counters of the deliveries alone. */
  lemma {:induction false} FramesKeepDeliveries(m: Metrics, frames: seq<Frame>, hostNs: int)
    ensures var after := AddFrames(m, frames, hostNs).0;
            after == m.(streams := after.streams, frames := after.frames, events := after.events)
    ensures AddFrames(m, frames, hostNs).1 == NoError ==> AddFrames(m, frames, hostNs).0.frames == m.frames + |frames|
    decreases |frames|
  {
    if frames != [] && FrameError(m, frames[0]) == NoError {
      FramesKeepDeliveries(AddFrame(m, frames[0], hostNs), frames[1..], hostNs);
    }
  }

  /** The delivery is recorded in full. */
  predicate IsStored(m: Metrics, d: Delivery, enabled: bool, opts: Options) {
    && enabled && m.warmed && !m.completed && !(opts.fixedDuration && d.late)
    && RecordDelivery(m, d, enabled, opts).storage == NoError
  }

  lemma StoredDelivery(m: Metrics, d: Delivery, enabled: bool, opts: Options)
    requires IsStored(m, d, enabled, opts)
    ensures var counted, after := SteadyMetrics.CountDelivery(m, d), RecordDelivery(m, d, enabled, opts).metrics;
            var stored := AddFrames(counted.0, d.frames, d.hostNs);
            && counted.1 == NoError && stored.1 == NoError
            && after == stored.0.(completed := after.completed)
  {
  }

  lemma StoredKeepsDeliveries(m: Metrics, d: Delivery, enabled: bool, opts: Options, ds: seq<Delivery>)
    requires IsStored(m, d, enabled, opts) && IsDeliveriesOf(m, ds)
    ensures IsDeliveriesOf(RecordDelivery(m, d, enabled, opts).metrics, ds + [d])
  {
    StoredDelivery(m, d, enabled, opts);
    DeliveryCounted(m, d, ds);
    FramesKeepDeliveries(SteadyMetrics.CountDelivery(m, d).0, d.frames, d.hostNs);
  }

  lemma StoredKeepsStream(
      m: Metrics, d: Delivery, enabled: bool, opts: Options, ds: seq<Delivery>, k: SteadyMetrics.Stream)
    requires IsStored(m, d, enabled, opts) && k in m.streams && IsStreamOf(m.streams[k], Samples(ds, k))
    ensures var after := RecordDelivery(m, d, enabled, opts).metrics;
            after.streams.Keys == m.streams.Keys && IsStreamOf(after.streams[k], Samples(ds + [d], k))
  {
    StoredDelivery(m, d, enabled, opts);
    FramesAdded(SteadyMetrics.CountDelivery(m, d).0, d.frames, d.hostNs, k, Samples(ds, k));
    assert (ds + [d])[..|ds|] == ds;
  }

  /** Other deliveries leave the samples as they are. */
  lemma OtherDelivery(m: Metrics, d: Delivery, enabled: bool, opts: Options)
    requires m.completed || !m.warmed || !enabled || (opts.fixedDuration && d.late)
    ensures var after := RecordDelivery(m, d, enabled, opts).metrics;
            && after.deliveries == m.deliveries && after.frames == m.frames && after.intervals == m.intervals
            && after.waits == m.waits && after.lastDeliveryNs == m.lastDeliveryNs && after.streams == m.streams
            && after.events == m.events
  {
  }

  // ----- every run

  /** The metrics are those of the deliveries, and the stream's those of its frames. */
  predicate IsRecordOf(m: Metrics, ds: seq<Delivery>, k: SteadyMetrics.Stream) {
    IsDeliveriesOf(m, ds) && k in m.streams && IsStreamOf(m.streams[k], Samples(ds, k))
  }

  lemma DeliveryRecords(
      opts: Options, m: Metrics, d: Delivery, enabled: bool, ds: seq<Delivery>, k: SteadyMetrics.Stream)
    requires IsRecordOf(m, ds, k) && RecordDelivery(m, d, enabled, opts).storage == NoError
    ensures var counts := enabled && m.warmed && !m.completed && !(opts.fixedDuration && d.late);
            IsRecordOf(RecordDelivery(m, d, enabled, opts).metrics, if counts then ds + [d] else ds, k)
  {
    if IsStored(m, d, enabled, opts) {
      StoredKeepsDeliveries(m, d, enabled, opts, ds);
      StoredKeepsStream(m, d, enabled, opts, ds, k);
    } else {
      OtherDelivery(m, d, enabled, opts);
    }
  }

  lemma StepRecords(
      opts: Options, s: State, a: Action, t: State, c: nat, ds: seq<Delivery>, k: SteadyMetrics.Stream)
    requires Next(opts, s, a, t) && c < |s.cameras| && IsRecordOf(s.cameras[c].metrics, ds, k)
    requires a.Deliver? && a.c == c ==> RecordDelivery(s.cameras[c].metrics, a.d, s.enabled, opts).storage == NoError
    ensures |t.cameras| == |s.cameras|
    ensures IsRecordOf(t.cameras[c].metrics, if IsRecorded(opts, s, a) && a.c == c then ds + [a.d] else ds, k)
  {
    ProbeSafety.MetricsFrame(opts, s, a, t, c);
    if a.Deliver? && a.c == c {
      DeliveryRecords(opts, s.cameras[c].metrics, a.d, s.enabled, ds, k);
    }
  }

  /** In every reachable state in which no buffer was exhausted, the metrics of a
      camera are those of the deliveries it recorded in that run: the intervals
      between them, the waits before them, and for each stream the differences
      of the sensor times of its frames and of the times they reached the host. */
  lemma {:induction false} ReachableSamples(
      opts: Options, plan: StoragePlan, run: seq<State>, acts: seq<Action>, i: nat, c: nat, k: SteadyMetrics.Stream)
    requires IsRun(opts, plan, run, acts) && i < |run| && c < opts.cameras && k in opts.expected
    requires NothingExhausted(opts, run, acts, i)
    ensures |run[i].cameras| == opts.cameras
    ensures IsRecordOf(run[i].cameras[c].metrics, Recorded(opts, run, acts, i, c), k)
  {
    if i == 0 {
      NothingRecorded(plan, opts, k);
    } else {
      ReachableSamples(opts, plan, run, acts, i - 1, c, k);
      assert StepAt(opts, run, acts, i - 1);
      StepRecords(opts, run[i - 1], acts[i - 1], run[i], c, Recorded(opts, run, acts, i - 1, c), k);
    }
  }

  lemma NothingRecorded(plan: StoragePlan, opts: Options, k: SteadyMetrics.Stream)
    requires k in opts.expected
    ensures IsRecordOf(Prepared(plan, opts.expected), [], k)
  {
  }

  /** In delivery-count mode, with deliveries of at most one frame per stream, the
      samples are such in every reachable state. */
  lemma CountedSamples(
      opts: Options, plan: StoragePlan, run: seq<State>, acts: seq<Action>, i: nat, c: nat, k: SteadyMetrics.Stream)
    requires IsRun(opts, plan, run, acts) && i < |run| && c < opts.cameras && k in opts.expected && !opts.fixedDuration
    requires MakeStoragePlan(opts.frames, 0, opts.fps, |opts.expected|, !opts.waitDelivery) == Success(plan)
    requires forall j :: 0 <= j < |acts| ==> ProbeSafety.ProperAction(opts, acts[j])
    ensures |run[i].cameras| == opts.cameras
    ensures IsRecordOf(run[i].cameras[c].metrics, Recorded(opts, run, acts, i, c), k)
  {
    forall j | 0 <= j < i && acts[j].Deliver? && acts[j].c < |run[j].cameras|
      ensures RecordDelivery(run[j].cameras[acts[j].c].metrics, acts[j].d, run[j].enabled, opts).storage == NoError
    {
      ProbeSafety.StorageNeverExhausted(opts, plan, run, acts, j);
    }
    ReachableSamples(opts, plan, run, acts, i, c, k);
  }

  // ----- no buffer grows beyond its capacity

  predicate WithinCapacity(m: Metrics) {
    && |m.intervals| <= m.plan.deliveryCapacity && |m.waits| <= m.plan.deliveryCapacity
    && |m.events| <= m.plan.eventCapacity
    && forall k :: k in m.streams ==>
                     |m.streams[k].sensorGaps| <= m.plan.streamCapacity
                     && |m.streams[k].hostGaps| <= m.plan.streamCapacity
  }

  /** The delivery could not be stored because that buffer is full, or because a
      stream was not expected. */
  predicate IsFull(m: Metrics, frames: seq<Frame>, error: StorageError) {
    match error
    case NoError => true
    case UnexpectedStream => exists i :: 0 <= i < |frames| && frames[i].stream !in m.streams
    case EventsFull => |m.events| == m.plan.eventCapacity
    case SamplesFull =>
      exists k :: && k in m.streams
                  && (|m.streams[k].sensorGaps| == m.plan.streamCapacity
                      || |m.streams[k].hostGaps| == m.plan.streamCapacity)
    case IntervalsFull => |m.intervals| == m.plan.deliveryCapacity
    case WaitsFull => |m.waits| == m.plan.deliveryCapacity
  }

  lemma FrameWithinCapacity(m: Metrics, f: Frame, hostNs: int)
    requires WithinCapacity(m)
    ensures IsFull(m, [f], FrameError(m, f))
    ensures FrameError(m, f) == NoError ==> WithinCapacity(AddFrame(m, f, hostNs))
  {
    assert [f][0] == f;
  }

  lemma {:induction false} FramesWithinCapacity(m: Metrics, frames: seq<Frame>, hostNs: int)
    requires WithinCapacity(m)
    ensures var r := AddFrames(m, frames, hostNs);
            && WithinCapacity(r.0) && IsFull(r.0, frames, r.1)
            && r.0.plan == m.plan && r.0.streams.Keys == m.streams.Keys
    decreases |frames|
  {
    if frames != [] {
      var f := frames[0];
      FrameWithinCapacity(m, f, hostNs);
      if FrameError(m, f) == NoError {
        var next := AddFrame(m, f, hostNs);
        assert next.streams.Keys == m.streams.Keys;
        FramesWithinCapacity(next, frames[1..], hostNs);
        var r := AddFrames(next, frames[1..], hostNs);
        if r.1 == UnexpectedStream {
          var i :| 0 <= i < |frames[1..]| && frames[1..][i].stream !in r.0.streams;
          assert frames[i + 1].stream !in r.0.streams;
        }
      }
    }
  }

  lemma DeliveryWithinCapacity(m: Metrics, d: Delivery, enabled: bool, opts: Options)
    requires WithinCapacity(m)
    ensures var o := RecordDelivery(m, d, enabled, opts);
            WithinCapacity(o.metrics) && IsFull(o.metrics, d.frames, o.storage)
  {
    if !m.completed && m.warmed && enabled && !(opts.fixedDuration && d.late) {
      var counted := SteadyMetrics.CountDelivery(m, d);
      assert WithinCapacity(counted.0);
      if counted.1 == NoError {
        FramesWithinCapacity(counted.0, d.frames, d.hostNs);
      }
    }
  }

  /** In every reachable state, in either mode and for any deliveries, no buffer
      holds more than was allocated for it. */
  lemma {:induction false} CapacityRun(
      opts: Options, plan: StoragePlan, run: seq<State>, acts: seq<Action>, i: nat, c: nat)
    requires IsRun(opts, plan, run, acts) && i < |run| && c < opts.cameras
    ensures |run[i].cameras| == opts.cameras && WithinCapacity(run[i].cameras[c].metrics)
  {
    if i > 0 {
      CapacityRun(opts, plan, run, acts, i - 1, c);
      var s, a := run[i - 1], acts[i - 1];
      assert StepAt(opts, run, acts, i - 1);
      ProbeSafety.MetricsFrame(opts, s, a, run[i], c);
      if a.Deliver? && a.c == c {
        DeliveryWithinCapacity(s.cameras[c].metrics, a.d, s.enabled, opts);
      }
    }
  }

  /** And a delivery is refused only for a full buffer or an unexpected stream. */
  lemma RefusalsAreReal(
      opts: Options, plan: StoragePlan, run: seq<State>, acts: seq<Action>, i: nat, c: nat, d: Delivery)
    requires IsRun(opts, plan, run, acts) && i < |run| && c < opts.cameras
    ensures |run[i].cameras| == opts.cameras
    ensures var o := RecordDelivery(run[i].cameras[c].metrics, d, run[i].enabled, opts);
            IsFull(o.metrics, d.frames, o.storage)
  {
    CapacityRun(opts, plan, run, acts, i, c);
    DeliveryWithinCapacity(run[i].cameras[c].metrics, d, run[i].enabled, opts);
  }
}
