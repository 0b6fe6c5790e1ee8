/** The camera's metrics as the probe updates them in place: each method is the
    step of the value model that `SteadyMetrics` reasons about. */
module CameraMetrics {
  import opened Wrappers
  import opened SteadyMetrics

  class CameraState {
    const plan: StoragePlan
    var warmupDeliveries: nat
    var healthDeliveries: nat
    var schedulerReady: bool
    var warmed: bool
    var completed: bool
    var deliveries: nat
    var frames: nat
    var lastDeliveryNs: Option<int>
    var intervals: seq<int>
    var waits: seq<int>
    var streams: map<Stream, StreamSamples>
    var warmup: map<Stream, WarmupStream>
    var events: seq<Event>

    ghost function Value(): Metrics
      reads this
    {
      Metrics(plan, warmupDeliveries, healthDeliveries, schedulerReady, warmed, completed, deliveries, frames,
              lastDeliveryNs, intervals, waits, streams, warmup, events)
    }

    /** `prepare_camera_metrics`: one entry per expected stream. */
    constructor (plan: StoragePlan, expected: seq<Stream>)
      ensures Value() == Prepared(plan, set k | k in expected)
    {
      var samples: map<Stream, StreamSamples> := map[];
      var blank: map<Stream, WarmupStream> := map[];
      for i := 0 to |expected|
        invariant forall k :: k in samples <==> k in expected[..i]
        invariant forall k :: k in blank <==> k in expected[..i]
        invariant forall k :: k in samples ==> samples[k] == NO_SAMPLES
        invariant forall k :: k in blank ==> blank[k] == NO_WARMUP
      {
        samples := samples[expected[i] := NO_SAMPLES];
        blank := blank[expected[i] := NO_WARMUP];
      }
      this.plan := plan;
      warmupDeliveries, healthDeliveries, deliveries, frames := 0, 0, 0, 0;
      schedulerReady, warmed, completed := false, false, false;
      lastDeliveryNs, intervals, waits, events := None, [], [], [];
      streams, warmup := samples, blank;
    }

    method RecordMeasuredFrame(f: Frame, hostNs: int) returns (error: StorageError)
      modifies this
      ensures error == FrameError(old(Value()), f)
      ensures Value() == if error == NoError then AddFrame(old(Value()), f, hostNs) else old(Value())
    {
      if f.stream !in streams { return UnexpectedStream; }
      if |events| >= plan.eventCapacity { return EventsFull; }
      var stream := streams[f.stream];
      if stream.last.Some? {
        if |stream.sensorGaps| >= plan.streamCapacity || |stream.hostGaps| >= plan.streamCapacity {
          return SamplesFull;
        }
        if f.number > stream.last.value + 1 {
          stream := stream.(drops := stream.drops + (f.number - stream.last.value - 1));
        }
        stream := stream.(sensorGaps := stream.sensorGaps + [f.sensorMs - stream.lastSensorMs],
                          hostGaps := stream.hostGaps + [hostNs - stream.lastHostNs]);
      }
      streams := streams[f.stream := stream.(last := Some(f.number), lastSensorMs := f.sensorMs,
                                             lastHostNs := hostNs, frames := stream.frames + 1)];
      frames := frames + 1;
      events := events + [Event(deliveries, f.stream, f.number)];
      error := NoError;
    }

    method RecordFrameset(frameset: seq<Frame>, hostNs: int) returns (error: StorageError)
      modifies this
      ensures (Value(), error) == AddFrames(old(Value()), frameset, hostNs)
    {
      error := NoError;
      var i := 0;
      while i < |frameset|
        invariant 0 <= i <= |frameset| && error == NoError
        invariant AddFrames(old(Value()), frameset, hostNs) == AddFrames(Value(), frameset[i..], hostNs)
      {
        assert frameset[i..][0] == frameset[i] && frameset[i..][1..] == frameset[i + 1..];
        error := RecordMeasuredFrame(frameset[i], hostNs);
        if error != NoError { return; }
        i := i + 1;
      }
    }

    method RecordWarmupFrameset(frameset: seq<Frame>) returns (ok: bool)
      modifies this`warmup
      ensures (warmup, ok) == RecordWarmups(old(warmup), frameset)
    {
      ok := true;
      var i := 0;
      while i < |frameset|
        invariant 0 <= i <= |frameset|
        invariant var all, left := RecordWarmups(old(warmup), frameset), RecordWarmups(warmup, frameset[i..]);
                  all == (left.0, ok && left.1)
      {
        var f := frameset[i];
        assert frameset[i..][0] == f && frameset[i..][1..] == frameset[i + 1..];
        if f.stream in warmup {
          warmup := warmup[f.stream := RecordWarmup(warmup[f.stream], f.number)];
        } else {
          ok := false;
        }
        i := i + 1;
      }
    }

    method CountWarmupDelivery(d: Delivery, opts: Options) returns (known: bool, ready: bool)
      modifies this
      ensures (Value(), known, ready) == CountWarmup(old(Value()), d, opts)
    {
      warmupDeliveries := warmupDeliveries + 1;
      known := true;
      if warmupDeliveries >= opts.HealthStart() {
        healthDeliveries := healthDeliveries + 1;
        known := RecordWarmupFrameset(d.frames);
      }
      ready := opts.modeledScheduler && !schedulerReady && warmupDeliveries >= opts.ApplyThreshold();
      schedulerReady := schedulerReady || ready;
    }

    method Warm(d: Delivery, opts: Options) returns (healthy: bool, ready: bool, warm: bool)
      modifies this
      ensures WarmupDelivery(old(Value()), d, opts) == Outcome(Value(), healthy, NoError, ready, warm, false)
    {
      healthy, ready := CountWarmupDelivery(d, opts);
      warm := false;
      if warmupDeliveries >= opts.warmupFrames {
        var passed := CheckHealth(opts);
        healthy := healthy && passed;
        warm := healthy;
        warmed := warmed || warm;
      }
    }

    /** `warmup_health_error`, stream by stream. */
    method CheckHealth(opts: Options) returns (ok: bool)
      ensures ok == WarmupHealthy(Value(), opts)
    {
      ok := |warmup| == |opts.expected|;
      var left := warmup.Keys;
      while ok && left != {}
        invariant left <= warmup.Keys
        invariant ok ==> |warmup| == |opts.expected|
        invariant ok ==> forall k :: k in warmup && k !in left ==> StreamHealthy(k, warmup[k], healthDeliveries, opts)
        invariant !ok ==> !WarmupHealthy(Value(), opts)
        decreases left
      {
        var k :| k in left;
        ok := StreamHealthy(k, warmup[k], healthDeliveries, opts);
        left := left - {k};
      }
    }

    method Measure(d: Delivery, opts: Options) returns (error: StorageError, complete: bool)
      modifies this
      ensures MeasuredDelivery(old(Value()), d, opts) == Outcome(Value(), true, error, false, false, complete)
    {
      error, complete := NoError, false;
      if opts.fixedDuration && d.late { return; }
      deliveries := deliveries + 1;
      if lastDeliveryNs.Some? {
        if |intervals| >= plan.deliveryCapacity {
          error := IntervalsFull;
        } else {
          intervals := intervals + [d.hostNs - lastDeliveryNs.value];
        }
      }
      lastDeliveryNs := Some(d.hostNs);
      if d.waitMs.Some? {
        if |waits| >= plan.deliveryCapacity {
          error := WaitsFull;
        } else {
          waits := waits + [d.waitMs.value];
        }
      }
      assert CountDelivery(old(Value()), d) == (Value(), error);
      if error == NoError { error := RecordFrameset(d.frames, d.hostNs); }
      if !opts.fixedDuration && deliveries >= opts.frames { completed, complete := true, true; }
    }

    /** `record_delivery` under the camera's mutex, proved against `RecordDelivery`. */
    method Record(d: Delivery, enabled: bool, opts: Options)
      returns (healthy: bool, error: StorageError, ready: bool, warm: bool, complete: bool)
      modifies this
      ensures RecordDelivery(old(Value()), d, enabled, opts)
              == Outcome(Value(), healthy, error, ready, warm, complete)
    {
      healthy, error, ready, warm, complete := true, NoError, false, false, false;
      if completed { return; }
      if !warmed {
        healthy, ready, warm := Warm(d, opts);
      } else if enabled {
        error, complete := Measure(d, opts);
      }
    }
  }
}
