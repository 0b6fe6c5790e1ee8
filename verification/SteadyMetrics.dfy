/** Per-camera measurement state (src/steady_metrics.cpp) and one delivery into
    it (`record_delivery` in src/realsense_steady_probe.cpp, the part under the
    camera's own mutex). */
module SteadyMetrics {
  import opened Wrappers
  import opened Numbers

  type Stream = string

  datatype Frame = Frame(stream: Stream, number: nat, sensorMs: int)

  datatype Event = Event(delivery: nat, stream: Stream, number: nat)

  // ----- storage plan

  const SIZE_LIMIT: nat := 0x1_0000_0000_0000_0000

  datatype StoragePlan = StoragePlan(deliveryCapacity: nat, eventCapacity: nat, streamCapacity: nat)

  /** `checked_product`: `left > max / right` is the overflow test. */
  function CheckedProduct(left: nat, right: nat): Result<nat> {
    if right != 0 && left > (SIZE_LIMIT - 1) / right then Failure("capacity overflows size_t")
    else Success(left * right)
  }

  /** `capacity_with_headroom`; products wrap at 64 bits before the test sees them. */
  function CapacityWithHeadroom(expected: nat, rate: nat): Result<nat> {
    var headroom := Max(rate * 2 % SIZE_LIMIT, (expected + 19) % SIZE_LIMIT / 20);
    if expected > (SIZE_LIMIT - 1 - headroom - 1) % SIZE_LIMIT then Failure("capacity overflows size_t")
    else Success((expected + headroom + 1) % SIZE_LIMIT)
  }

  /** The capacities of a fixed-duration run; `total` is duration times rate. */
  function TimedPlan(total: nat, fps: nat, streams: nat, callback: bool): Result<StoragePlan> {
    var perStream: nat := (total + 999) % SIZE_LIMIT / 1000;
    match CapacityWithHeadroom(perStream, fps)
    case Failure(e) => Failure(e)
    case Success(samples) =>
      match CheckedProduct(samples, streams)
      case Failure(e) => Failure(e)
      case Success(events) =>
        var multiplier := if callback then streams else 1;
        match CapacityWithHeadroom(perStream * multiplier % SIZE_LIMIT, fps * multiplier % SIZE_LIMIT)
        case Failure(e) => Failure(e)
        case Success(deliveries) => Success(StoragePlan(deliveries, events, samples))
  }

  function MakeStoragePlan(frames: int, durationMs: int, fps: int, streams: nat, callback: bool): Result<StoragePlan> {
    if frames <= 0 || durationMs < 0 || fps <= 0 || streams == 0
    then Failure("Invalid steady measurement storage parameters")
    else
      match CheckedProduct(frames, streams)
      case Failure(e) => Failure(e)
      case Success(events) =>
        if durationMs == 0 then Success(StoragePlan(frames, events, frames))
        else TimedPlan(durationMs * fps % SIZE_LIMIT, fps, streams, callback)
  }

  // ----- measurement state

  datatype StreamSamples = StreamSamples(
    frames: nat, drops: nat, last: Option<nat>, lastSensorMs: int, lastHostNs: int,
    sensorGaps: seq<int>, hostGaps: seq<int>)

  datatype WarmupStream = WarmupStream(
    observed: nat, duplicates: nat, gaps: nat, outOfOrder: nat, last: Option<nat>)

  datatype Metrics = Metrics(
    plan: StoragePlan,
    warmupDeliveries: nat,
    healthDeliveries: nat,
    schedulerReady: bool,
    warmed: bool,
    completed: bool,
    deliveries: nat,
    frames: nat,
    lastDeliveryNs: Option<int>,
    intervals: seq<int>,
    waits: seq<int>,
    streams: map<Stream, StreamSamples>,
    warmup: map<Stream, WarmupStream>,
    events: seq<Event>)

  const NO_SAMPLES := StreamSamples(0, 0, None, 0, 0, [], [])
  const NO_WARMUP := WarmupStream(0, 0, 0, 0, None)

  /** `prepare_camera_metrics`: empty buffers of the planned capacity. */
  function Prepared(plan: StoragePlan, expected: set<Stream>): Metrics {
    Metrics(plan, 0, 0, false, false, false, 0, 0, None, [], [],
            map k | k in expected :: NO_SAMPLES, map k | k in expected :: NO_WARMUP, [])
  }

  // ----- warm-up

  function RecordWarmup(w: WarmupStream, number: nat): WarmupStream {
    var counted :=
      if w.last.None? then w
      else if number == w.last.value then w.(duplicates := w.duplicates + 1)
      else if number < w.last.value then w.(outOfOrder := w.outOfOrder + 1)
      else w.(gaps := w.gaps + (number - w.last.value - 1));
    counted.(last := Some(number), observed := w.observed + 1)
  }

  datatype Options = Options(
    cameras: nat,
    frames: nat,
    fixedDuration: bool,
    fps: nat,
    warmupFrames: nat,
    healthWindow: nat,
    modeledScheduler: bool,
    applyAfter: nat,
    waitDelivery: bool,
    hardwareSync: bool,
    expected: set<Stream>,
    gated: bool)
  {
    /** What `parse_args` enforces. */
    predicate Valid() { frames > 0 && fps > 0 && healthWindow <= warmupFrames }

    function HealthStart(): int {
      warmupFrames - Min(warmupFrames, if healthWindow > 0 then healthWindow else Max(2, fps)) + 1
    }

    function ApplyThreshold(): int {
      if applyAfter > 0 then applyAfter else Min(fps, Max(1, warmupFrames / 10))
    }
  }

  /** Warm-up frames of one delivery; an unknown stream is an error. */
  function RecordWarmups(warmup: map<Stream, WarmupStream>, frames: seq<Frame>): (map<Stream, WarmupStream>, bool) {
    if frames == [] then (warmup, true)
    else
      var f := frames[0];
      if f.stream in warmup
      then RecordWarmups(warmup[f.stream := RecordWarmup(warmup[f.stream], f.number)], frames[1..])
      else (RecordWarmups(warmup, frames[1..]).0, false)
  }

  predicate StreamHealthy(key: Stream, w: WarmupStream, deliveries: nat, opts: Options) {
    var allowed := if opts.hardwareSync && "Color#" <= key then Max(1, deliveries / 20) else 0;
    && w.observed >= 2
    && (opts.waitDelivery ==> w.observed == deliveries)
    && w.duplicates <= allowed && w.gaps == 0 && w.outOfOrder == 0
  }

  /** `warmup_health_error` returns no error. */
  predicate WarmupHealthy(m: Metrics, opts: Options) {
    && |m.warmup| == |opts.expected|
    && forall k :: k in m.warmup ==> StreamHealthy(k, m.warmup[k], m.healthDeliveries, opts)
  }

  // ----- measured frames

  datatype StorageError = NoError | UnexpectedStream | EventsFull | SamplesFull | IntervalsFull | WaitsFull

  function AddSample(s: StreamSamples, f: Frame, hostNs: int): StreamSamples {
    var grown :=
      if s.last.None? then s
      else s.(drops := s.drops + (if f.number > s.last.value + 1 then f.number - s.last.value - 1 else 0),
              sensorGaps := s.sensorGaps + [f.sensorMs - s.lastSensorMs],
              hostGaps := s.hostGaps + [hostNs - s.lastHostNs]);
    grown.(last := Some(f.number), lastSensorMs := f.sensorMs, lastHostNs := hostNs, frames := s.frames + 1)
  }

  function FrameError(m: Metrics, f: Frame): StorageError {
    if f.stream !in m.streams then UnexpectedStream
    else if |m.events| >= m.plan.eventCapacity then EventsFull
    else
      var s := m.streams[f.stream];
      if s.last.Some? && (|s.sensorGaps| >= m.plan.streamCapacity || |s.hostGaps| >= m.plan.streamCapacity)
      then SamplesFull else NoError
  }

  /** `record_measured_frame` when nothing is exhausted. */
  function AddFrame(m: Metrics, f: Frame, hostNs: int): Metrics
    requires f.stream in m.streams
  {
    m.(streams := m.streams[f.stream := AddSample(m.streams[f.stream], f, hostNs)],
       frames := m.frames + 1,
       events := m.events + [Event(m.deliveries, f.stream, f.number)])
  }

  /** The frames of one delivery, up to the first storage error. */
  function AddFrames(m: Metrics, frames: seq<Frame>, hostNs: int): (Metrics, StorageError)
    decreases |frames|
  {
    if frames == [] then (m, NoError)
    else if FrameError(m, frames[0]) != NoError then (m, FrameError(m, frames[0]))
    else AddFrames(AddFrame(m, frames[0], hostNs), frames[1..], hostNs)
  }

  datatype Delivery = Delivery(frames: seq<Frame>, hostNs: int, waitMs: Option<int>, late: bool)

  /** What one delivery did under the camera's mutex. */
  datatype Outcome = Outcome(
    metrics: Metrics, healthOk: bool, storage: StorageError,
    becameReady: bool, becameWarm: bool, becameComplete: bool)

  function Unchanged(m: Metrics): Outcome { Outcome(m, true, NoError, false, false, false) }

  /** Counters and health window of a warm-up delivery: the new state, whether
      its streams were all expected, whether the camera became scheduler-ready. */
  function CountWarmup(m: Metrics, d: Delivery, opts: Options): (Metrics, bool, bool) {
    var count := m.warmupDeliveries + 1;
    var inWindow := count >= opts.HealthStart();
    var recorded := if inWindow then RecordWarmups(m.warmup, d.frames) else (m.warmup, true);
    var ready := opts.modeledScheduler && !m.schedulerReady && count >= opts.ApplyThreshold();
    (m.(warmupDeliveries := count,
        healthDeliveries := if inWindow then m.healthDeliveries + 1 else m.healthDeliveries,
        warmup := recorded.0,
        schedulerReady := m.schedulerReady || ready),
     recorded.1, ready)
  }

  function WarmupDelivery(m: Metrics, d: Delivery, opts: Options): Outcome {
    var (counted, known, ready) := CountWarmup(m, d, opts);
    var last := counted.warmupDeliveries >= opts.warmupFrames;
    var healthy := known && (last ==> WarmupHealthy(counted, opts));
    var warm := last && healthy;
    Outcome(counted.(warmed := counted.warmed || warm), healthy, NoError, ready, warm, false)
  }

  /** Delivery counters, interval and wait samples, before the frames. */
  function CountDelivery(m: Metrics, d: Delivery): (Metrics, StorageError) {
    var intervalFull := m.lastDeliveryNs.Some? && |m.intervals| >= m.plan.deliveryCapacity;
    var waitFull := d.waitMs.Some? && |m.waits| >= m.plan.deliveryCapacity;
    var m1 := m.(deliveries := m.deliveries + 1,
                 intervals := if m.lastDeliveryNs.Some? && !intervalFull
                              then m.intervals + [d.hostNs - m.lastDeliveryNs.value] else m.intervals,
                 lastDeliveryNs := Some(d.hostNs),
                 waits := if d.waitMs.Some? && !waitFull then m.waits + [d.waitMs.value] else m.waits);
    (m1, if waitFull then WaitsFull else if intervalFull then IntervalsFull else NoError)
  }

  function MeasuredDelivery(m: Metrics, d: Delivery, opts: Options): Outcome {
    if opts.fixedDuration && d.late then Unchanged(m)
    else
      var counted := CountDelivery(m, d);
      var stored := if counted.1 == NoError then AddFrames(counted.0, d.frames, d.hostNs) else counted;
      var complete := !opts.fixedDuration && stored.0.deliveries >= opts.frames;
      Outcome(if complete then stored.0.(completed := true) else stored.0, true, stored.1, false, false, complete)
  }

  function RecordDelivery(m: Metrics, d: Delivery, enabled: bool, opts: Options): Outcome {
    if m.completed then Unchanged(m)
    else if !m.warmed then WarmupDelivery(m, d, opts)
    else if enabled then MeasuredDelivery(m, d, opts)
    else Unchanged(m)
  }

  // ----- a passed warm-up check

  function WarmupOf(numbers: seq<nat>): WarmupStream {
    if |numbers| == 0 then NO_WARMUP
    else RecordWarmup(WarmupOf(numbers[..|numbers| - 1]), numbers[|numbers| - 1])
  }

  predicate Consecutive(numbers: seq<nat>) {
    forall i :: 0 < i < |numbers| ==> numbers[i] == numbers[i - 1] + 1
  }

  /** Every number repeats the one before it or is the next one. */
  predicate NeverJumps(numbers: seq<nat>) {
    forall i :: 0 < i < |numbers| ==> numbers[i] == numbers[i - 1] || numbers[i] == numbers[i - 1] + 1
  }

  function Repeats(numbers: seq<nat>): nat {
    if |numbers| <= 1 then 0
    else
      var n := |numbers| - 1;
      Repeats(numbers[..n]) + (if numbers[n] == numbers[n - 1] then 1 else 0)
  }

  /** The warm-up counters of a stream: repeats are counted, and the other two
      stay zero exactly when no number was skipped and none fell back. */
  lemma {:induction false} WarmupCountersMeaning(numbers: seq<nat>)
    ensures var w := WarmupOf(numbers);
            && w.observed == |numbers|
            && w.last == (if |numbers| == 0 then None else Some(numbers[|numbers| - 1]))
            && w.duplicates == Repeats(numbers)
            && (w.gaps == 0 && w.outOfOrder == 0 <==> NeverJumps(numbers))
            && (NeverJumps(numbers) && Repeats(numbers) == 0 <==> Consecutive(numbers))
  {
    if |numbers| > 0 {
      var n := |numbers| - 1;
      var pre := numbers[..n];
      WarmupCountersMeaning(pre);
      assert NeverJumps(numbers) <==>
             NeverJumps(pre) && (n > 0 ==> numbers[n] == numbers[n - 1] || numbers[n] == numbers[n - 1] + 1);
      assert Consecutive(numbers) <==> Consecutive(pre) && (n > 0 ==> numbers[n] == numbers[n - 1] + 1);
    }
  }

  // ----- no buffer is exhausted

  /** Each delivery adds at most one sample per buffer and one frame per stream. */
  predicate Fits(m: Metrics) {
    && (m.lastDeliveryNs.Some? <==> m.deliveries > 0)
    && |m.intervals| <= Max(0, m.deliveries - 1)
    && |m.waits| <= m.deliveries
    && |m.events| <= m.deliveries * |m.streams|
    && forall k :: k in m.streams ==> StreamFits(m.streams[k], m.deliveries)
  }

  predicate StreamFits(s: StreamSamples, deliveries: nat) {
    && s.frames <= deliveries
    && (s.last.Some? <==> s.frames > 0)
    && |s.sensorGaps| == |s.hostGaps| == Max(0, s.frames - 1)
  }

  /** At most one frame per expected stream. */
  predicate Proper(frames: seq<Frame>, streams: set<Stream>) {
    && (forall i :: 0 <= i < |frames| ==> frames[i].stream in streams)
    && forall i, j :: 0 <= i < j < |frames| ==> frames[i].stream != frames[j].stream
  }

  predicate Roomy(plan: StoragePlan, deliveries: nat, streams: nat) {
    && deliveries <= plan.deliveryCapacity && deliveries <= plan.streamCapacity
    && deliveries * streams <= plan.eventCapacity
  }

  lemma {:induction false} ProperIsShort(frames: seq<Frame>, streams: set<Stream>)
    requires Proper(frames, streams)
    ensures |frames| <= |streams|
  {
    if frames != [] {
      var n := |frames| - 1;
      ProperIsShort(frames[..n], streams - {frames[n].stream});
    }
  }

  /** Streams still to come have room for one more frame. */
  predicate Filling(m: Metrics, frames: seq<Frame>) {
    && (forall k :: k in m.streams ==> StreamFits(m.streams[k], m.deliveries))
    && (forall i :: 0 <= i < |frames| ==>
                      frames[i].stream in m.streams && m.streams[frames[i].stream].frames < m.deliveries)
    && |m.events| + |frames| <= m.deliveries * |m.streams|
    && Roomy(m.plan, m.deliveries, |m.streams|)
  }

  lemma AddFrameFills(m: Metrics, frames: seq<Frame>, hostNs: int)
    requires frames != [] && Proper(frames, m.streams.Keys) && Filling(m, frames)
    ensures FrameError(m, frames[0]) == NoError
    ensures var after := AddFrame(m, frames[0], hostNs);
            && after.streams.Keys == m.streams.Keys
            && Filling(after, frames[1..]) && Proper(frames[1..], after.streams.Keys)
  {
    var after := AddFrame(m, frames[0], hostNs);
    assert after.streams.Keys == m.streams.Keys;
    assert |after.streams| == |after.streams.Keys| == |m.streams.Keys| == |m.streams|;
    forall i | 0 <= i < |frames[1..]|
      ensures frames[1..][i].stream in after.streams
              && after.streams[frames[1..][i].stream].frames < after.deliveries
    {
      assert frames[1..][i] == frames[i + 1] && frames[i + 1].stream != frames[0].stream;
    }
  }

  lemma {:induction false} AddFramesFills(m: Metrics, frames: seq<Frame>, hostNs: int)
    requires Proper(frames, m.streams.Keys) && Filling(m, frames)
    ensures var r := AddFrames(m, frames, hostNs);
            && r.1 == NoError
            && r.0.streams.Keys == m.streams.Keys
            && Filling(r.0, [])
            && r.0 == m.(streams := r.0.streams, frames := r.0.frames, events := r.0.events)
    decreases |frames|
  {
    if frames != [] {
      AddFrameFills(m, frames, hostNs);
      AddFramesFills(AddFrame(m, frames[0], hostNs), frames[1..], hostNs);
    }
  }

  lemma CountingFits(m: Metrics, d: Delivery)
    requires Fits(m) && Proper(d.frames, m.streams.Keys)
    requires Roomy(m.plan, m.deliveries + 1, |m.streams|)
    ensures var c := CountDelivery(m, d);
            && c.1 == NoError && Filling(c.0, d.frames)
            && c.0.streams == m.streams && c.0.deliveries == m.deliveries + 1
            && |c.0.intervals| <= m.deliveries && |c.0.waits| <= m.deliveries + 1
  {
    ProperIsShort(d.frames, m.streams.Keys);
    var n, k := m.deliveries, |m.streams|;
    assert (n + 1) * k == n * k + k;
    assert |m.streams.Keys| == k;
    forall i | 0 <= i < |d.frames|
      ensures d.frames[i].stream in m.streams && m.streams[d.frames[i].stream].frames < n + 1
    {
      assert StreamFits(m.streams[d.frames[i].stream], n);
    }
  }

  /** A delivery with at most one frame per stream exhausts no buffer as long as
      the plan has room for one more delivery. */
  lemma DeliveryFits(m: Metrics, d: Delivery, opts: Options)
    requires Fits(m) && Proper(d.frames, m.streams.Keys)
    requires Roomy(m.plan, m.deliveries + 1, |m.streams|)
    ensures var o := MeasuredDelivery(m, d, opts);
            o.storage == NoError && Fits(o.metrics) && o.metrics.streams.Keys == m.streams.Keys
  {
    CountingFits(m, d);
    var counted := CountDelivery(m, d).0;
    AddFramesFills(counted, d.frames, d.hostNs);
    var stored := AddFrames(counted, d.frames, d.hostNs).0;
    assert |stored.streams| == |stored.streams.Keys| == |m.streams|;
    assert Fits(stored);
  }

  /** In delivery-count mode the plan is exactly big enough for `frames` deliveries. */
  lemma CountedPlanIsRoomy(frames: int, fps: int, streams: nat, callback: bool)
    requires MakeStoragePlan(frames, 0, fps, streams, callback).Success?
    ensures var plan := MakeStoragePlan(frames, 0, fps, streams, callback).value;
            forall n: nat :: Roomy(plan, n, streams) <==> n <= frames
  {
    var plan := MakeStoragePlan(frames, 0, fps, streams, callback).value;
    forall n: nat ensures Roomy(plan, n, streams) <==> n <= frames {
      if n <= frames {
        assert n * streams <= frames * streams;
      }
    }
  }
}
