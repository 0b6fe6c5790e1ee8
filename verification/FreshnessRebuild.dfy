/** The two reconstructions of frameset problems that first group the event
    file by delivery: E3 (reproduction/paper_metrics.py,
    `frameset_freshness_metrics`) and E4 (reproduction/e4_scheduling/metrics.py,
    `reconstruct_freshness`). */
module FreshnessRebuild {
  import opened Wrappers
  import opened OrderedDict
  import opened Numbers
  import opened Freshness

  /** Findings about one delivery. */
  datatype Tally = Tally(stale: bool, gap: bool, duplicates: nat, gaps: nat)

  datatype Totals = Totals(stale: nat, gapBearing: nat, problem: nat, duplicates: nat, gaps: nat)

  function AddTally(t: Totals, y: Tally): Totals {
    Totals(t.stale + One(y.stale), t.gapBearing + One(y.gap), t.problem + One(y.stale || y.gap),
           t.duplicates + y.duplicates, t.gaps + y.gaps)
  }

  // ----- E4: reconstruct_freshness

  type Groups = Dict<DeliveryKey, seq<Row>>

  function GroupRow(g: Groups, r: Row): Groups {
    var key := DeliveryOf(r);
    Put(g, key, (if key in g.items then g.items[key] else []) + [r])
  }

  function GroupRows(rows: seq<Row>): Groups {
    if |rows| == 0 then Dict([], map[]) else GroupRow(GroupRows(rows[..|rows| - 1]), rows[|rows| - 1])
  }

  lemma {:induction false} GroupedAreValid(rows: seq<Row>)
    ensures Valid(GroupRows(rows))
  {
    if rows != [] {
      var n := |rows| - 1;
      GroupedAreValid(rows[..n]);
      var g, key := GroupRows(rows[..n]), DeliveryOf(rows[n]);
      PutValid(g, key, (if key in g.items then g.items[key] else []) + [rows[n]]);
    }
  }

  /** Anything not above the last number seen is a repeat. */
  function JudgeLast(y: Tally, prior: Option<nat>, number: nat): Tally {
    if prior.None? then y
    else if number <= prior.value then y.(stale := true, duplicates := y.duplicates + 1)
    else if number > prior.value + 1 then y.(gap := true, gaps := y.gaps + (number - prior.value - 1))
    else y
  }

  datatype Rebuild = Rebuild(previous: map<StreamKey, nat>, tally: Tally)

  function RebuildRows(previous: map<StreamKey, nat>, rows: seq<Row>): Rebuild {
    if |rows| == 0 then Rebuild(previous, Tally(false, false, 0, 0))
    else
      var b, r := RebuildRows(previous, rows[..|rows| - 1]), rows[|rows| - 1];
      Rebuild(b.previous[StreamOf(r) := r.number], JudgeLast(b.tally, Lookup(b.previous, StreamOf(r)), r.number))
  }

  datatype RebuildRun = RebuildRun(previous: map<StreamKey, nat>, totals: Totals)

  function RebuildGroup(run: RebuildRun, b: Rebuild): RebuildRun {
    RebuildRun(b.previous, AddTally(run.totals, b.tally))
  }

  function RebuildGroups(groups: seq<seq<Row>>): RebuildRun {
    if |groups| == 0 then RebuildRun(map[], Totals(0, 0, 0, 0, 0))
    else
      var run := RebuildGroups(groups[..|groups| - 1]);
      RebuildGroup(run, RebuildRows(run.previous, groups[|groups| - 1]))
  }

  lemma RebuildNext(groups: seq<seq<Row>>, i: nat)
    requires i < |groups|
    ensures var run := RebuildGroups(groups[..i]);
            RebuildGroups(groups[..i + 1]) == RebuildGroup(run, RebuildRows(run.previous, groups[i]))
  {
    assert groups[..i + 1][..i] == groups[..i];
  }

  function ItemsOf<K, V>(d: Dict<K, V>, keys: seq<K>): (items: seq<V>)
    requires forall i :: 0 <= i < |keys| ==> keys[i] in d.items
    ensures |items| == |keys| && forall i :: 0 <= i < |keys| ==> items[i] == d.items[keys[i]]
  {
    seq(|keys|, i requires 0 <= i < |keys| => d.items[keys[i]])
  }

  datatype Reconstruction = Reconstruction(problem: nat, duplicates: nat, gaps: nat)

  function Reconstructed(rows: seq<Row>): Reconstruction {
    var g := GroupRows(rows);
    GroupedAreValid(rows);
    var t := RebuildGroups(ItemsOf(g, g.keys)).totals;
    Reconstruction(t.problem, t.duplicates, t.gaps)
  }

  method ReconstructDelivery(previous: map<StreamKey, nat>, rows: seq<Row>) returns (b: Rebuild)
    ensures b == RebuildRows(previous, rows)
  {
    b := Rebuild(previous, Tally(false, false, 0, 0));
    for i := 0 to |rows|
      invariant b == RebuildRows(previous, rows[..i])
    {
      assert rows[..i + 1][..i] == rows[..i];
      var stream, current := StreamOf(rows[i]), rows[i].number;
      var tally := b.tally;
      if stream in b.previous {
        var prior := b.previous[stream];
        if current <= prior {
          tally := tally.(stale := true, duplicates := tally.duplicates + 1);
        } else if current > prior + 1 {
          tally := tally.(gap := true, gaps := tally.gaps + (current - prior - 1));
        }
      }
      b := Rebuild(b.previous[stream := current], tally);
    }
    assert rows[..|rows|] == rows;
  }

  method GroupDeliveries(rows: seq<Row>) returns (grouped: Groups)
    ensures grouped == GroupRows(rows)
  {
    grouped := Dict([], map[]);
    for i := 0 to |rows|
      invariant grouped == GroupRows(rows[..i])
    {
      assert rows[..i + 1][..i] == rows[..i];
      grouped := GroupRow(grouped, rows[i]);
    }
    assert rows[..|rows|] == rows;
  }

  method ReconstructDeliveries(groups: seq<seq<Row>>) returns (run: RebuildRun)
    ensures run == RebuildGroups(groups)
  {
    run := RebuildRun(map[], Totals(0, 0, 0, 0, 0));
    for i := 0 to |groups|
      invariant run == RebuildGroups(groups[..i])
    {
      RebuildNext(groups, i);
      var b := ReconstructDelivery(run.previous, groups[i]);
      run := RebuildGroup(run, b);
    }
    assert groups[..|groups|] == groups;
  }

  method ReconstructFreshness(rows: seq<Row>) returns (result: Reconstruction)
    ensures result == Reconstructed(rows)
  {
    var grouped := GroupDeliveries(rows);
    GroupedAreValid(rows);
    var run := ReconstructDeliveries(ItemsOf(grouped, grouped.keys));
    result := Reconstruction(run.totals.problem, run.totals.duplicates, run.totals.gaps);
  }

  // ----- E3: frameset_freshness_metrics

  type Component = Dict<Stream, nat>

  const NO_COMPONENT: Component := Dict([], map[])

  function ComponentOf(rows: seq<Row>): Component {
    if |rows| == 0 then NO_COMPONENT
    else Put(ComponentOf(rows[..|rows| - 1]), rows[|rows| - 1].stream, rows[|rows| - 1].number)
  }

  lemma {:induction false} ComponentsAreValid(rows: seq<Row>)
    ensures Valid(ComponentOf(rows))
  {
    if rows != [] {
      var n := |rows| - 1;
      ComponentsAreValid(rows[..n]);
      PutValid(ComponentOf(rows[..n]), rows[n].stream, rows[n].number);
    }
  }

  type Components = Dict<DeliveryKey, Component>

  function CollectRow(g: Components, r: Row): Components {
    var key := DeliveryOf(r);
    Put(g, key, Put(if key in g.items then g.items[key] else NO_COMPONENT, r.stream, r.number))
  }

  function CollectRows(rows: seq<Row>): Components {
    if |rows| == 0 then Dict([], map[]) else CollectRow(CollectRows(rows[..|rows| - 1]), rows[|rows| - 1])
  }

  predicate KeyBefore(a: DeliveryKey, b: DeliveryKey) {
    a.0 < b.0 || (a.0 == b.0 && a.1 < b.1)
  }

  function InsertKey(x: DeliveryKey, s: seq<DeliveryKey>): seq<DeliveryKey> {
    if s == [] || !KeyBefore(s[0], x) then [x] + s else [s[0]] + InsertKey(x, s[1..])
  }

  function SortKeys(s: seq<DeliveryKey>): seq<DeliveryKey> {
    if s == [] then [] else InsertKey(s[0], SortKeys(s[1..]))
  }

  lemma {:induction false} InsertKeyMembers(x: DeliveryKey, s: seq<DeliveryKey>)
    ensures forall k :: k in InsertKey(x, s) <==> k == x || k in s
  {
    if s != [] && KeyBefore(s[0], x) {
      InsertKeyMembers(x, s[1..]);
      assert s == [s[0]] + s[1..];
    }
  }

  lemma {:induction false} SortKeysMembers(s: seq<DeliveryKey>)
    ensures forall k :: k in SortKeys(s) <==> k in s
  {
    if s != [] {
      SortKeysMembers(s[1..]);
      InsertKeyMembers(s[0], SortKeys(s[1..]));
      assert s == [s[0]] + s[1..];
    }
  }

  /** Only an equal number is a repeat; a smaller one is passed over. */
  function JudgeExact(y: Tally, prior: Option<nat>, number: nat): Tally {
    if prior.None? then y
    else if number == prior.value then y.(stale := true, duplicates := y.duplicates + 1)
    else if number > prior.value + 1 then y.(gap := true, gaps := y.gaps + (number - prior.value - 1))
    else y
  }

  function TallyComponent(prior: Component, current: Component, keys: seq<Stream>): Tally
    requires forall i :: 0 <= i < |keys| ==> keys[i] in current.items
  {
    if |keys| == 0 then Tally(false, false, 0, 0)
    else
      var k := keys[|keys| - 1];
      JudgeExact(TallyComponent(prior, current, keys[..|keys| - 1]), Lookup(prior.items, k), current.items[k])
  }

  datatype PathRun = PathRun(previous: map<nat, Component>, totals: Totals)

  function PriorOf(previous: map<nat, Component>, camera: nat): Component {
    if camera in previous then previous[camera] else NO_COMPONENT
  }

  /** One delivery of camera `camera`. */
  function PathStep(run: PathRun, camera: nat, current: Component): PathRun
    requires Valid(current)
  {
    var y := TallyComponent(PriorOf(run.previous, camera), current, current.keys);
    PathRun(run.previous[camera := current], AddTally(run.totals, y))
  }

  lemma {:induction false} CollectedAreValid(rows: seq<Row>)
    ensures Valid(CollectRows(rows)) && ValidItems(CollectRows(rows))
  {
    if rows != [] {
      var n := |rows| - 1;
      CollectedAreValid(rows[..n]);
      var g, key := CollectRows(rows[..n]), DeliveryOf(rows[n]);
      var current := if key in g.items then g.items[key] else NO_COMPONENT;
      PutValid(current, rows[n].stream, rows[n].number);
      PutValid(g, key, Put(current, rows[n].stream, rows[n].number));
    }
  }

  predicate ValidItems(g: Components) {
    forall k :: k in g.items ==> Valid(g.items[k])
  }

  function PathRuns(g: Components, keys: seq<DeliveryKey>): PathRun
    requires ValidItems(g) && forall i :: 0 <= i < |keys| ==> keys[i] in g.items
  {
    if |keys| == 0 then PathRun(map[], Totals(0, 0, 0, 0, 0))
    else
      var k := keys[|keys| - 1];
      PathStep(PathRuns(g, keys[..|keys| - 1]), k.0, g.items[k])
  }

  datatype PathMetrics = PathMetrics(deliveries: nat, totals: Totals)

  function Measured(rows: seq<Row>): PathMetrics {
    var g := CollectRows(rows);
    CollectedAreValid(rows);
    SortKeysMembers(g.keys);
    PathMetrics(|g.keys|, PathRuns(g, SortKeys(g.keys)).totals)
  }

  method MeasureDelivery(prior: Component, current: Component) returns (tally: Tally)
    requires Valid(current)
    ensures tally == TallyComponent(prior, current, current.keys)
  {
    tally := Tally(false, false, 0, 0);
    var keys := current.keys;
    for i := 0 to |keys|
      invariant tally == TallyComponent(prior, current, keys[..i])
    {
      assert keys[..i + 1][..i] == keys[..i];
      var number: int := current.items[keys[i]];
      if keys[i] in prior.items {
        var delta := number - prior.items[keys[i]];
        if delta == 0 {
          tally := tally.(stale := true, duplicates := tally.duplicates + 1);
        } else if delta > 1 {
          tally := tally.(gap := true, gaps := tally.gaps + (delta - 1));
        }
      }
    }
    assert keys[..|keys|] == keys;
  }

  method CollectDeliveries(rows: seq<Row>) returns (deliveries: Components)
    ensures deliveries == CollectRows(rows)
  {
    deliveries := Dict([], map[]);
    for i := 0 to |rows|
      invariant deliveries == CollectRows(rows[..i])
    {
      assert rows[..i + 1][..i] == rows[..i];
      deliveries := CollectRow(deliveries, rows[i]);
    }
    assert rows[..|rows|] == rows;
  }

  method MeasureDeliveries(deliveries: Components, keys: seq<DeliveryKey>) returns (run: PathRun)
    requires ValidItems(deliveries) && forall i :: 0 <= i < |keys| ==> keys[i] in deliveries.items
    ensures run == PathRuns(deliveries, keys)
  {
    run := PathRun(map[], Totals(0, 0, 0, 0, 0));
    for i := 0 to |keys|
      invariant run == PathRuns(deliveries, keys[..i])
    {
      assert keys[..i + 1][..i] == keys[..i];
      var camera, current := keys[i].0, deliveries.items[keys[i]];
      var tally := MeasureDelivery(PriorOf(run.previous, camera), current);
      run := PathRun(run.previous[camera := current], AddTally(run.totals, tally));
    }
    assert keys[..|keys|] == keys;
  }

  method FramesetFreshnessMetrics(rows: seq<Row>) returns (result: PathMetrics)
    ensures result == Measured(rows)
  {
    var deliveries := CollectDeliveries(rows);
    CollectedAreValid(rows);
    SortKeysMembers(deliveries.keys);
    var run := MeasureDeliveries(deliveries, SortKeys(deliveries.keys));
    result := PathMetrics(|deliveries.keys|, run.totals);
  }
}
