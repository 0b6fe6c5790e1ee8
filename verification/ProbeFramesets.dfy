/** The event file that a reachable probe state stands for, cut into framesets,
    and what E2, E3 and E4 reconstruct from it. */
module ProbeFramesets {
  import opened Wrappers
  import opened Sequences
  import opened SteadyMetrics
  import opened Probe
  import ProbeSafety
  import opened ProbeRecords
  import opened ProbeSamples
  import opened Freshness
  import opened FreshnessMeaning
  import opened FreshnessRebuild
  import opened FreshnessAgreement

  // ----- one delivery

  /** The rows of a measured delivery. */
  function DeliveryRows(c: nat, delivery: nat, frames: seq<Frame>): (rows: seq<Row>)
    ensures |rows| == |frames|
    ensures forall i :: 0 <= i < |rows| ==> rows[i] == Row(c, delivery, frames[i].stream, frames[i].number)
  {
    seq(|frames|, i requires 0 <= i < |frames| => Row(c, delivery, frames[i].stream, frames[i].number))
  }

  /** One frame of each of the streams. */
  predicate Carries(frames: seq<Frame>, streams: set<SteadyMetrics.Stream>) {
    Proper(frames, streams)
    && forall k :: k in streams ==> exists i :: 0 <= i < |frames| && frames[i].stream == k
  }

  /** Each measured delivery of a camera carries the streams of that camera. */
  predicate SameStreams(carried: seq<set<SteadyMetrics.Stream>>, s: State, a: Action) {
    IsMeasured(s, a) && a.c < |carried| ==> carried[a.c] != {} && Carries(a.d.frames, carried[a.c])
  }

  lemma RowsNext(c: nat, events: seq<SteadyMetrics.Event>, e: SteadyMetrics.Event)
    ensures RowsOf(c, events + [e]) == RowsOf(c, events) + [Row(c, e.delivery, e.stream, e.number)]
  {
    assert (events + [e])[..|events|] == events;
  }

  lemma {:induction false} AddedRows(c: nat, m: Metrics, frames: seq<Frame>, hostNs: int)
    requires AddFrames(m, frames, hostNs).1 == NoError
    ensures RowsOf(c, AddFrames(m, frames, hostNs).0.events)
            == RowsOf(c, m.events) + DeliveryRows(c, m.deliveries, frames)
    decreases |frames|
  {
    if frames != [] {
      var f := frames[0];
      RowsNext(c, m.events, Event(m.deliveries, f.stream, f.number));
      AddedRows(c, AddFrame(m, f, hostNs), frames[1..], hostNs);
      assert DeliveryRows(c, m.deliveries, frames)
          == [Row(c, m.deliveries, f.stream, f.number)] + DeliveryRows(c, m.deliveries, frames[1..]);
    }
  }

  /** A frameset of camera `c` with exactly these streams. */
  ghost predicate IsFramesetOf(d: seq<Row>, key: DeliveryKey, streams: set<SteadyMetrics.Stream>) {
    IsFrameset(d) && KeyOf(d) == key && forall k :: HasStream(d, k) <==> k in streams
  }

  lemma DeliveryIsFrameset(c: nat, delivery: nat, frames: seq<Frame>, streams: set<SteadyMetrics.Stream>)
    requires Carries(frames, streams) && streams != {}
    ensures IsFramesetOf(DeliveryRows(c, delivery, frames), (c, delivery), streams)
  {
    var d := DeliveryRows(c, delivery, frames);
    forall k | k in streams ensures HasStream(d, k) {
      var i :| 0 <= i < |frames| && frames[i].stream == k;
      assert d[i].stream == k;
    }
  }

  // ----- the file of one camera

  /** The rows of a camera are its deliveries in order, each with the same streams. */
  ghost predicate IsCameraFile(ds: seq<seq<Row>>, c: nat, streams: set<SteadyMetrics.Stream>) {
    forall j :: 0 <= j < |ds| ==> IsFramesetOf(ds[j], (c, j + 1), streams)
  }

  lemma CountingKeepsEvents(m: Metrics, d: Delivery)
    ensures var counted := SteadyMetrics.CountDelivery(m, d).0;
            counted.events == m.events && counted.deliveries == m.deliveries + 1
  {
  }

  lemma StoredFrames(m: Metrics, d: Delivery, opts: Options)
    requires MeasuredDelivery(m, d, opts).storage == NoError && !opts.fixedDuration
    ensures var after, stored := MeasuredDelivery(m, d, opts).metrics,
                                 AddFrames(SteadyMetrics.CountDelivery(m, d).0, d.frames, d.hostNs);
            stored.1 == NoError && after.events == stored.0.events && after.deliveries == stored.0.deliveries
  {
  }

  lemma MeasuredRows(m: Metrics, d: Delivery, opts: Options, c: nat)
    requires MeasuredDelivery(m, d, opts).storage == NoError && !opts.fixedDuration
    ensures var after := MeasuredDelivery(m, d, opts).metrics;
            && after.deliveries == m.deliveries + 1
            && RowsOf(c, after.events) == RowsOf(c, m.events) + DeliveryRows(c, m.deliveries + 1, d.frames)
  {
    var counted := SteadyMetrics.CountDelivery(m, d).0;
    CountingKeepsEvents(m, d);
    StoredFrames(m, d, opts);
    AddedRows(c, counted, d.frames, d.hostNs);
    ProbeSafety.AddFramesKeepsCounts(counted, d.frames, d.hostNs);
  }

  lemma AppendFrameset(
      ds: seq<seq<Row>>, rows: seq<Row>, c: nat, streams: set<SteadyMetrics.Stream>)
    requires IsCameraFile(ds, c, streams) && IsFramesetOf(rows, (c, |ds| + 1), streams)
    ensures IsCameraFile(ds + [rows], c, streams) && Flatten(ds + [rows]) == Flatten(ds) + rows
  {
    FlattenLast(ds, rows);
  }

  /** The framesets `ds` are what the metrics of camera `c` recorded. */
  ghost predicate Holds(ds: seq<seq<Row>>, m: Metrics, c: nat, streams: set<SteadyMetrics.Stream>) {
    RowsOf(c, m.events) == Flatten(ds) && |ds| == m.deliveries && IsCameraFile(ds, c, streams)
  }

  lemma MeasuredFrameset(
      m: Metrics, d: Delivery, opts: Options, c: nat, streams: set<SteadyMetrics.Stream>, ds: seq<seq<Row>>)
    returns (after: seq<seq<Row>>)
    requires Holds(ds, m, c, streams) && Carries(d.frames, streams) && streams != {}
    requires MeasuredDelivery(m, d, opts).storage == NoError && !opts.fixedDuration
    ensures Holds(after, MeasuredDelivery(m, d, opts).metrics, c, streams)
  {
    var rows := DeliveryRows(c, m.deliveries + 1, d.frames);
    MeasuredRows(m, d, opts, c);
    DeliveryIsFrameset(c, m.deliveries + 1, d.frames, streams);
    AppendFrameset(ds, rows, c, streams);
    after := ds + [rows];
  }

  lemma UnmeasuredKeeps(m: Metrics, d: Delivery, enabled: bool, opts: Options)
    requires m.completed || !m.warmed || !enabled
    ensures var after := RecordDelivery(m, d, enabled, opts).metrics;
            after.events == m.events && after.deliveries == m.deliveries
  {
  }

  /** A delivery-count run of the planned probe whose measured deliveries carry
      one frame of each stream of their camera. */
  predicate SteadyRun(
      opts: Options, plan: StoragePlan, run: seq<State>, acts: seq<Action>,
      carried: seq<set<SteadyMetrics.Stream>>) {
    && IsRun(opts, plan, run, acts) && !opts.fixedDuration && |carried| == opts.cameras
    && MakeStoragePlan(opts.frames, 0, opts.fps, |opts.expected|, !opts.waitDelivery) == Success(plan)
    && (forall k :: 0 <= k < |acts| ==> ProbeSafety.ProperAction(opts, acts[k]))
    && (forall k :: 0 <= k < |acts| ==> SameStreams(carried, run[k], acts[k]))
  }

  lemma StepFramesets(
      opts: Options, s: State, a: Action, t: State, c: nat,
      carried: seq<set<SteadyMetrics.Stream>>, ds: seq<seq<Row>>)
    returns (after: seq<seq<Row>>)
    requires Next(opts, s, a, t) && c < |s.cameras| == |carried| && !opts.fixedDuration
    requires SameStreams(carried, s, a) && Holds(ds, s.cameras[c].metrics, c, carried[c])
    requires a.Deliver? && a.c == c ==> RecordDelivery(s.cameras[c].metrics, a.d, s.enabled, opts).storage == NoError
    ensures |t.cameras| == |s.cameras| && Holds(after, t.cameras[c].metrics, c, carried[c])
  {
    after := ds;
    ProbeSafety.MetricsFrame(opts, s, a, t, c);
    if a.Deliver? && a.c == c {
      if IsMeasured(s, a) {
        after := MeasuredFrameset(s.cameras[c].metrics, a.d, opts, c, carried[c], ds);
      } else {
        UnmeasuredKeeps(s.cameras[c].metrics, a.d, s.enabled, opts);
      }
    }
  }

  lemma {:induction false} CameraFramesets(
      opts: Options, plan: StoragePlan, run: seq<State>, acts: seq<Action>, i: nat, c: nat,
      carried: seq<set<SteadyMetrics.Stream>>)
    returns (ds: seq<seq<Row>>)
    requires SteadyRun(opts, plan, run, acts, carried) && i < |run| && c < opts.cameras
    ensures |run[i].cameras| == opts.cameras && Holds(ds, run[i].cameras[c].metrics, c, carried[c])
  {
    ds := [];
    if i > 0 {
      ds := CameraFramesets(opts, plan, run, acts, i - 1, c, carried);
      assert StepAt(opts, run, acts, i - 1);
      if acts[i - 1].Deliver? {
        ProbeSafety.StorageNeverExhausted(opts, plan, run, acts, i - 1);
      }
      ds := StepFramesets(opts, run[i - 1], acts[i - 1], run[i], c, carried, ds);
    }
  }

  // ----- the file of all cameras

  function TotalDeliveries(cameras: seq<Camera>): nat {
    if |cameras| == 0 then 0
    else TotalDeliveries(cameras[..|cameras| - 1]) + cameras[|cameras| - 1].metrics.deliveries
  }

  ghost predicate IsFile(ds: seq<seq<Row>>, carried: seq<set<SteadyMetrics.Stream>>) {
    && InFileOrder(ds)
    && forall i :: 0 <= i < |ds| ==>
                     KeyOf(ds[i]).0 < |carried| && forall k :: HasStream(ds[i], k) <==> k in carried[KeyOf(ds[i]).0]
  }

  lemma AppendCamera(
      ds: seq<seq<Row>>, last: seq<seq<Row>>,
      carried: seq<set<SteadyMetrics.Stream>>, streams: set<SteadyMetrics.Stream>)
    requires IsFile(ds, carried) && IsCameraFile(last, |carried|, streams)
    ensures IsFile(ds + last, carried + [streams])
  {
    var all, more := ds + last, carried + [streams];
    forall i | 0 <= i < |all|
      ensures IsFrameset(all[i]) && KeyOf(all[i]).0 < |more|
      ensures forall k :: HasStream(all[i], k) <==> k in more[KeyOf(all[i]).0]
      ensures i < |ds| ==> KeyOf(all[i]) == KeyOf(ds[i]) && KeyOf(all[i]).0 < |carried|
      ensures i >= |ds| ==> KeyOf(all[i]) == (|carried|, i - |ds| + 1)
    {
      if i >= |ds| {
        assert IsFramesetOf(last[i - |ds|], (|carried|, i - |ds| + 1), streams);
      }
    }
  }

  lemma {:induction false} FileFramesets(
      opts: Options, plan: StoragePlan, run: seq<State>, acts: seq<Action>, i: nat, n: nat,
      carried: seq<set<SteadyMetrics.Stream>>)
    returns (ds: seq<seq<Row>>)
    requires SteadyRun(opts, plan, run, acts, carried) && i < |run| && n <= |run[i].cameras| == opts.cameras
    ensures Flatten(ds) == Flatten(AllRows(run[i])[..n])
    ensures |ds| == TotalDeliveries(run[i].cameras[..n]) && IsFile(ds, carried[..n])
  {
    ds := [];
    if n > 0 {
      var before := FileFramesets(opts, plan, run, acts, i, n - 1, carried);
      var last := CameraFramesets(opts, plan, run, acts, i, n - 1, carried);
      AppendCamera(before, last, carried[..n - 1], carried[n - 1]);
      FlattenAppend(before, last);
      AddCamera(run[i], n);
      assert carried[..n] == carried[..n - 1] + [carried[n - 1]];
      ds := before + last;
    }
  }

  /** One more camera adds its rows and its deliveries. */
  lemma AddCamera(s: State, n: nat)
    requires 0 < n <= |s.cameras|
    ensures Flatten(AllRows(s)[..n]) == Flatten(AllRows(s)[..n - 1]) + CameraRows(s, n - 1)
    ensures TotalDeliveries(s.cameras[..n])
            == TotalDeliveries(s.cameras[..n - 1]) + s.cameras[n - 1].metrics.deliveries
  {
    assert AllRows(s)[..n][..n - 1] == AllRows(s)[..n - 1];
    assert s.cameras[..n][..n - 1] == s.cameras[..n - 1];
  }

  /** In every reachable state of such a run, if the numbers in the event file
      never decrease, E2, E3 and E4 agree on that file and count exactly the
      deliveries that were recorded. */
  lemma ReachableReconstructionsAgree(
      opts: Options, plan: StoragePlan, run: seq<State>, acts: seq<Action>, i: nat,
      carried: seq<set<SteadyMetrics.Stream>>)
    requires SteadyRun(opts, plan, run, acts, carried) && i < |run|
    requires NeverDecreases(Flatten(AllRows(run[i])))
    ensures var rows := Flatten(AllRows(run[i]));
            var e2, e3, e4 := CountsOf(ProblemRows(rows)), FreshnessRebuild.Measured(rows), Reconstructed(rows);
            && e2.delivered == e3.deliveries == TotalDeliveries(run[i].cameras)
            && e2.stale == e3.totals.stale && e2.gaps == e3.totals.gapBearing
            && e2.problematic == e3.totals.problem == e4.problem
            && e3.totals.duplicates == e4.duplicates
            && e3.totals.gaps == e4.gaps
  {
    ProbeSafety.InvRun(opts, plan, run, acts, i);
    var ds := FileFramesets(opts, plan, run, acts, i, opts.cameras, carried);
    assert AllRows(run[i])[..opts.cameras] == AllRows(run[i]);
    assert run[i].cameras[..opts.cameras] == run[i].cameras;
    assert carried[..opts.cameras] == carried;
    FileIsRegular(ds, carried);
    ReconstructionsAgree(ds);
  }

  lemma FileIsRegular(ds: seq<seq<Row>>, carried: seq<set<SteadyMetrics.Stream>>)
    requires IsFile(ds, carried) && NeverDecreases(Flatten(ds))
    ensures Regular(ds)
  {
  }
}
