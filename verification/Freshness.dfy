/** Frame freshness: the online scan of `analyze_freshness`
    (src/steady_metrics.cpp) and the three reconstructions from the event file
    (reproduction/paper_metrics.py, reproduction/e4_scheduling/metrics.py).

    Each algorithm is a step function folded over the rows; the methods are the
    loops of the source, proved to compute that fold. */
module Freshness {
  import opened Wrappers
  import opened Sequences

  type Stream = string

  datatype Row = Row(camera: nat, delivery: nat, stream: Stream, number: nat)

  type DeliveryKey = (nat, nat)

  type StreamKey = (nat, Stream)

  function DeliveryOf(r: Row): DeliveryKey { (r.camera, r.delivery) }

  function StreamOf(r: Row): StreamKey { (r.camera, r.stream) }

  function Mark(marked: set<DeliveryKey>, key: DeliveryKey, b: bool): set<DeliveryKey> {
    if b then marked + {key} else marked
  }

  // ----- analyze_freshness

  datatype Working = Working(highest: Option<nat>, nonadvancing: nat, outOfOrder: nat, numbers: seq<nat>)

  const NEW_STREAM := Working(None, 0, 0, [])

  predicate AdvancesOver(w: Working, number: nat) {
    w.highest.None? || number > w.highest.value
  }

  function Observe(w: Working, number: nat): Working {
    var seen := w.(numbers := w.numbers + [number]);
    if AdvancesOver(w, number) then seen.(highest := Some(number))
    else seen.(nonadvancing := w.nonadvancing + 1,
               outOfOrder := if number < w.highest.value then w.outOfOrder + 1 else w.outOfOrder)
  }

  /** Open delivery, its two flags, and the classes of the finished ones. */
  datatype Scan = Scan(
    streams: map<StreamKey, Working>,
    current: Option<DeliveryKey>,
    hasAdvance: bool,
    allAdvance: bool,
    fullyFresh: nat,
    partial: nat,
    stale: nat)

  const NEW_SCAN := Scan(map[], None, false, true, 0, 0, 0)

  function FinishDelivery(s: Scan): Scan {
    if s.current.None? then s
    else if !s.hasAdvance then s.(stale := s.stale + 1)
    else if s.allAdvance then s.(fullyFresh := s.fullyFresh + 1)
    else s.(partial := s.partial + 1)
  }

  function WorkingOn(s: Scan, key: StreamKey): Working {
    if key in s.streams then s.streams[key] else NEW_STREAM
  }

  function OpenDelivery(s: Scan, key: DeliveryKey): Scan {
    if s.current == Some(key) then s
    else FinishDelivery(s).(current := Some(key), hasAdvance := false, allAdvance := true)
  }

  function ScanStep(s: Scan, r: Row): Scan {
    var open := OpenDelivery(s, DeliveryOf(r));
    var w := WorkingOn(open, StreamOf(r));
    var advanced := AdvancesOver(w, r.number);
    open.(streams := open.streams[StreamOf(r) := Observe(w, r.number)],
          hasAdvance := open.hasAdvance || advanced,
          allAdvance := open.allAdvance && advanced)
  }

  function ScanRows(rows: seq<Row>): Scan {
    if |rows| == 0 then NEW_SCAN else ScanStep(ScanRows(rows[..|rows| - 1]), rows[|rows| - 1])
  }

  datatype StreamFreshness = StreamFreshness(
    observed: nat, unique: nat, duplicates: int, gaps: int, nonadvancing: nat, outOfOrder: nat)

  /** `std::unique` after a sort: one of each run of equal numbers. */
  function Unique(s: seq<int>): seq<int> {
    if |s| <= 1 then s
    else if s[0] == s[1] then Unique(s[1..])
    else [s[0]] + Unique(s[1..])
  }

  function StreamResult(w: Working): StreamFreshness {
    var sorted := Sort(w.numbers);
    var unique := Unique(sorted);
    StreamFreshness(|sorted|, |unique|, |sorted| - |unique|,
                    if |unique| > 0 then unique[|unique| - 1] - sorted[0] + 1 - |unique| else 0,
                    w.nonadvancing, w.outOfOrder)
  }

  datatype CameraFreshness = CameraFreshness(
    streams: map<StreamKey, StreamFreshness>, fullyFresh: nat, partial: nat, stale: nat)

  function Analyze(rows: seq<Row>): CameraFreshness {
    var s := FinishDelivery(ScanRows(rows));
    CameraFreshness(map k | k in s.streams :: StreamResult(s.streams[k]), s.fullyFresh, s.partial, s.stale)
  }

  method ScanEvents(rows: seq<Row>) returns (s: Scan)
    ensures s == ScanRows(rows)
  {
    s := NEW_SCAN;
    for i := 0 to |rows|
      invariant s == ScanRows(rows[..i])
    {
      assert rows[..i + 1][..i] == rows[..i];
      var r := rows[i];
      if s.current != Some(DeliveryOf(r)) {
        s := FinishDelivery(s).(current := Some(DeliveryOf(r)), hasAdvance := false, allAdvance := true);
      }
      var w := WorkingOn(s, StreamOf(r));
      var advanced := w.highest.None? || r.number > w.highest.value;
      if advanced {
        w := w.(highest := Some(r.number));
      } else {
        w := w.(nonadvancing := w.nonadvancing + 1);
        if r.number < w.highest.value {
          w := w.(outOfOrder := w.outOfOrder + 1);
        }
      }
      s := s.(streams := s.streams[StreamOf(r) := w.(numbers := w.numbers + [r.number])],
              hasAdvance := s.hasAdvance || advanced,
              allAdvance := s.allAdvance && advanced);
    }
    assert rows[..|rows|] == rows;
  }

  method StreamResults(working: map<StreamKey, Working>) returns (streams: map<StreamKey, StreamFreshness>)
    ensures streams == map k | k in working :: StreamResult(working[k])
  {
    streams := map[];
    var left := working.Keys;
    while left != {}
      invariant left <= working.Keys
      invariant streams.Keys == working.Keys - left
      invariant forall k :: k in streams ==> streams[k] == StreamResult(working[k])
      decreases left
    {
      var k :| k in left;
      streams := streams[k := StreamResult(working[k])];
      left := left - {k};
    }
  }

  method AnalyzeFreshness(rows: seq<Row>) returns (result: CameraFreshness)
    ensures result == Analyze(rows)
  {
    var s := ScanEvents(rows);
    s := FinishDelivery(s);
    var streams := StreamResults(s.streams);
    result := CameraFreshness(streams, s.fullyFresh, s.partial, s.stale);
  }

  // ----- E2: frameset_problem_counts

  datatype Problems = Problems(
    highest: map<StreamKey, nat>, deliveries: set<DeliveryKey>, stale: set<DeliveryKey>, gaps: set<DeliveryKey>)

  const NO_PROBLEMS := Problems(map[], {}, {}, {})

  function ProblemStep(p: Problems, r: Row): Problems {
    var k, d := StreamOf(r), DeliveryOf(r);
    Problems(p.highest[k := if k in p.highest && p.highest[k] > r.number then p.highest[k] else r.number],
             p.deliveries + {d},
             if k in p.highest && r.number <= p.highest[k] then p.stale + {d} else p.stale,
             if k in p.highest && r.number > p.highest[k] + 1 then p.gaps + {d} else p.gaps)
  }

  function ProblemRows(rows: seq<Row>): Problems {
    if |rows| == 0 then NO_PROBLEMS else ProblemStep(ProblemRows(rows[..|rows| - 1]), rows[|rows| - 1])
  }

  datatype ProblemCounts = ProblemCounts(delivered: nat, stale: nat, gaps: nat, problematic: nat)

  function CountsOf(p: Problems): ProblemCounts {
    ProblemCounts(|p.deliveries|, |p.stale|, |p.gaps|, |p.stale + p.gaps|)
  }

  method FramesetProblemCounts(rows: seq<Row>) returns (counts: ProblemCounts)
    ensures counts == CountsOf(ProblemRows(rows))
  {
    var highest: map<StreamKey, nat> := map[];
    var deliveries: set<DeliveryKey>, stale: set<DeliveryKey>, gaps: set<DeliveryKey> := {}, {}, {};
    for i := 0 to |rows|
      invariant Problems(highest, deliveries, stale, gaps) == ProblemRows(rows[..i])
    {
      assert rows[..i + 1][..i] == rows[..i];
      var delivery, stream, number := DeliveryOf(rows[i]), StreamOf(rows[i]), rows[i].number;
      deliveries := deliveries + {delivery};
      if stream in highest {
        if number <= highest[stream] {
          stale := stale + {delivery};
        } else if number > highest[stream] + 1 {
          gaps := gaps + {delivery};
        }
      }
      if stream !in highest || number > highest[stream] {
        highest := highest[stream := number];
      }
      assert highest == ProblemRows(rows[..i + 1]).highest;
    }
    assert rows[..|rows|] == rows;
    counts := ProblemCounts(|deliveries|, |stale|, |gaps|, |stale + gaps|);
  }
}
