/** What E3 counts on any event file: each delivery against the one before it of
    the same camera, stream by stream. */
module FreshnessPath {
  import opened Wrappers
  import opened Numbers
  import opened Sequences
  import opened OrderedDict
  import opened Freshness
  import opened FreshnessMeaning
  import opened FreshnessRebuild
  import opened FreshnessCounts
  import opened FreshnessAgreement

  // ----- the meaning

  /** The number of the last row of the stream in the delivery. */
  function NumberIn(rows: seq<Row>, d: DeliveryKey, s: Stream): Option<nat> {
    if |rows| == 0 then None
    else
      var n := |rows| - 1;
      if DeliveryOf(rows[n]) == d && rows[n].stream == s then Some(rows[n].number) else NumberIn(rows[..n], d, s)
  }

  function StreamsIn(rows: seq<Row>, d: DeliveryKey): set<Stream> {
    set i | 0 <= i < |rows| && DeliveryOf(rows[i]) == d :: rows[i].stream
  }

  /** `e` is the last delivery of the camera before `d`, by number. */
  predicate IsPreviousDelivery(rows: seq<Row>, e: DeliveryKey, d: DeliveryKey) {
    && e in Deliveries(rows) && e.0 == d.0 && e.1 < d.1
    && forall f :: f in Deliveries(rows) && f.0 == d.0 && f.1 < d.1 ==> f.1 <= e.1
  }

  /** What the stream's number in delivery `d` is compared with. */
  ghost function PriorIn(rows: seq<Row>, d: DeliveryKey, s: Stream): Option<nat> {
    if exists e :: IsPreviousDelivery(rows, e, d) then
      var e :| IsPreviousDelivery(rows, e, d);
      NumberIn(rows, e, s)
    else None
  }

  ghost function LeftOutIn(rows: seq<Row>, d: DeliveryKey, s: Stream): nat {
    var current := NumberIn(rows, d, s);
    if current.Some? then LeftOut(PriorIn(rows, d, s), current.value) else 0
  }

  /** The streams with the number of the previous delivery. */
  ghost function Repeated(rows: seq<Row>, d: DeliveryKey): set<Stream> {
    set s | s in StreamsIn(rows, d) && PriorIn(rows, d, s) == NumberIn(rows, d, s)
  }

  /** The streams with numbers left out since the previous delivery. */
  ghost function Skipping(rows: seq<Row>, d: DeliveryKey): set<Stream> {
    set s | s in StreamsIn(rows, d) && LeftOutIn(rows, d, s) > 0
  }

  ghost function LeftOutBy(rows: seq<Row>, d: DeliveryKey): Stream -> nat {
    s => LeftOutIn(rows, d, s)
  }

  ghost function RepeatedCount(rows: seq<Row>): DeliveryKey -> nat {
    d => |Repeated(rows, d)|
  }

  ghost function LeftOutCount(rows: seq<Row>): DeliveryKey -> nat {
    d => SumOver(StreamsIn(rows, d), LeftOutBy(rows, d))
  }

  ghost function StaleIn(rows: seq<Row>, ds: set<DeliveryKey>): set<DeliveryKey> {
    set d | d in ds && Repeated(rows, d) != {}
  }

  ghost function GapsIn(rows: seq<Row>, ds: set<DeliveryKey>): set<DeliveryKey> {
    set d | d in ds && Skipping(rows, d) != {}
  }

  /** The counts over the given deliveries. */
  ghost function CountsOver(rows: seq<Row>, ds: set<DeliveryKey>): Totals {
    Totals(|StaleIn(rows, ds)|, |GapsIn(rows, ds)|, |StaleIn(rows, ds) + GapsIn(rows, ds)|,
           SumOver(ds, RepeatedCount(rows)), SumOver(ds, LeftOutCount(rows)))
  }

  lemma PreviousIsUnique(rows: seq<Row>, a: DeliveryKey, b: DeliveryKey, d: DeliveryKey)
    requires IsPreviousDelivery(rows, a, d) && IsPreviousDelivery(rows, b, d)
    ensures a == b
  {
  }

  lemma PriorOfPrevious(rows: seq<Row>, e: DeliveryKey, d: DeliveryKey, s: Stream)
    requires IsPreviousDelivery(rows, e, d)
    ensures PriorIn(rows, d, s) == NumberIn(rows, e, s)
  {
    forall f | IsPreviousDelivery(rows, f, d) ensures f == e {
      PreviousIsUnique(rows, f, e, d);
    }
  }

  // ----- what was collected

  lemma StreamsNext(pre: seq<Row>, r: Row, d: DeliveryKey)
    ensures StreamsIn(pre + [r], d) == StreamsIn(pre, d) + (if DeliveryOf(r) == d then {r.stream} else {})
  {
    var rows := pre + [r];
    assert forall i :: 0 <= i < |pre| ==> rows[i] == pre[i];
    assert rows[|pre|] == r;
  }

  lemma {:induction false} CollectMeaning(rows: seq<Row>, d: DeliveryKey, s: Stream)
    ensures var g := CollectRows(rows);
            && (d in g.items <==> d in Deliveries(rows))
            && (d in g.items ==> Lookup(g.items[d].items, s) == NumberIn(rows, d, s)
                                 && g.items[d].items.Keys == StreamsIn(rows, d))
            && (d !in g.items ==> NumberIn(rows, d, s).None? && StreamsIn(rows, d) == {})
            && (s in StreamsIn(rows, d) <==> NumberIn(rows, d, s).Some?)
  {
    if |rows| > 0 {
      var n := |rows| - 1;
      CollectMeaning(rows[..n], d, s);
      StreamsNext(rows[..n], rows[n], d);
      assert rows == rows[..n] + [rows[n]];
    }
  }

  predicate ListedOnce(g: Components) {
    NoneTwice(g.keys) && forall d :: d in g.items ==> NoneTwice(g.items[d].keys)
  }

  lemma CollectRowOnce(g: Components, r: Row)
    requires Valid(g) && ValidItems(g) && ListedOnce(g)
    ensures ListedOnce(CollectRow(g, r))
  {
    var current := if DeliveryOf(r) in g.items then g.items[DeliveryOf(r)] else NO_COMPONENT;
    PutOnce(current, r.stream, r.number);
    PutOnce(g, DeliveryOf(r), Put(current, r.stream, r.number));
  }

  lemma {:induction false} CollectedOnce(rows: seq<Row>)
    ensures ListedOnce(CollectRows(rows))
  {
    if |rows| > 0 {
      var n := |rows| - 1;
      CollectedOnce(rows[..n]);
      CollectedAreValid(rows[..n]);
      CollectRowOnce(CollectRows(rows[..n]), rows[n]);
    }
  }

  // ----- the order of the deliveries

  predicate Ascending(keys: seq<DeliveryKey>) {
    forall i, j :: 0 <= i < j < |keys| ==> KeyBefore(keys[i], keys[j])
  }

  lemma {:induction false} InsertKeyAscends(x: DeliveryKey, s: seq<DeliveryKey>)
    requires Ascending(s) && x !in s
    ensures Ascending(InsertKey(x, s))
  {
    if s != [] {
      if KeyBefore(s[0], x) {
        InsertKeyAscends(x, s[1..]);
        InsertKeyMembers(x, s[1..]);
        FirstAscends(s[0], InsertKey(x, s[1..]));
      } else {
        FirstAscends(x, s);
      }
    }
  }

  lemma FirstAscends(x: DeliveryKey, s: seq<DeliveryKey>)
    requires Ascending(s) && forall k :: k in s ==> KeyBefore(x, k)
    ensures Ascending([x] + s)
  {
  }

  lemma {:induction false} SortKeysAscends(s: seq<DeliveryKey>)
    requires NoneTwice(s)
    ensures Ascending(SortKeys(s))
  {
    if s != [] {
      ElemsFirst(s);
      ElemsSize(s[1..]);
      SortKeysAscends(s[1..]);
      SortKeysMembers(s[1..]);
      InsertKeyAscends(s[0], SortKeys(s[1..]));
    }
  }

  /** After the deliveries `keys`, the previous one of a camera is its last among them. */
  lemma {:induction false} PreviousOfCamera(g: Components, keys: seq<DeliveryKey>, camera: nat) returns (j: int)
    requires ValidItems(g) && forall i :: 0 <= i < |keys| ==> keys[i] in g.items
    ensures -1 <= j < |keys| && forall i :: j < i < |keys| ==> keys[i].0 != camera
    ensures j >= 0 ==> keys[j].0 == camera && PriorOf(PathRuns(g, keys).previous, camera) == g.items[keys[j]]
    ensures j < 0 ==> PriorOf(PathRuns(g, keys).previous, camera) == NO_COMPONENT
  {
    j := -1;
    if |keys| > 0 {
      var n := |keys| - 1;
      if keys[n].0 == camera {
        j := n;
      } else {
        j := PreviousOfCamera(g, keys[..n], camera);
      }
    }
  }

  /** Exactly the deliveries of the file, in order. */
  predicate IsOrderOf(keys: seq<DeliveryKey>, rows: seq<Row>) {
    Ascending(keys) && Elems(keys) == Deliveries(rows)
  }

  lemma PreviousInOrder(rows: seq<Row>, keys: seq<DeliveryKey>, n: nat, j: int)
    requires IsOrderOf(keys, rows) && n < |keys| && -1 <= j < n
    requires forall i :: j < i < n ==> keys[i].0 != keys[n].0
    requires j >= 0 ==> keys[j].0 == keys[n].0
    ensures j >= 0 ==> IsPreviousDelivery(rows, keys[j], keys[n])
    ensures j < 0 ==> forall e :: !IsPreviousDelivery(rows, e, keys[n])
  {
    forall e | e in Deliveries(rows) && e.0 == keys[n].0 && e.1 < keys[n].1
      ensures j >= 0 && e.1 <= keys[j].1
    {
      assert e in keys;
      var i :| 0 <= i < |keys| && keys[i] == e;
      assert i < n;
    }
    if j >= 0 {
      assert KeyBefore(keys[j], keys[n]);
      assert keys[j] in keys;
    }
  }

  // ----- one delivery

  lemma PriorFromOrder(rows: seq<Row>, g: Components, keys: seq<DeliveryKey>, n: nat, s: Stream)
    requires g == CollectRows(rows) && ValidItems(g) && IsOrderOf(keys, rows) && n < |keys|
    requires forall i :: 0 <= i < |keys| ==> keys[i] in g.items
    ensures Lookup(PriorOf(PathRuns(g, keys[..n]).previous, keys[n].0).items, s) == PriorIn(rows, keys[n], s)
  {
    var j := PreviousOfCamera(g, keys[..n], keys[n].0);
    PreviousInOrder(rows, keys, n, j);
    if j >= 0 {
      PriorOfPrevious(rows, keys[j], keys[n], s);
      CollectMeaning(rows, keys[j], s);
    }
  }

  /** What one delivery adds, over some of its streams. */
  ghost predicate TalliesOver(y: Tally, rows: seq<Row>, d: DeliveryKey, streams: set<Stream>) {
    && y.duplicates == |Repeated(rows, d) * streams| && (y.stale <==> Repeated(rows, d) * streams != {})
    && y.gaps == SumOver(streams, LeftOutBy(rows, d)) && (y.gap <==> Skipping(rows, d) * streams != {})
  }

  lemma MeetNext<T>(a: set<T>, b: set<T>, x: T)
    requires x !in b
    ensures |a * (b + {x})| == |a * b| + One(x in a)
    ensures a * (b + {x}) != {} <==> a * b != {} || x in a
  {
    assert a * (b + {x}) == a * b + (if x in a then {x} else {});
  }

  lemma StreamJudged(rows: seq<Row>, d: DeliveryKey, s: Stream, number: nat)
    requires s in StreamsIn(rows, d) && NumberIn(rows, d, s) == Some(number)
    ensures var prior := PriorIn(rows, d, s);
            && (s in Repeated(rows, d) <==> prior.Some? && number == prior.value)
            && (s in Skipping(rows, d) <==> prior.Some? && number > prior.value + 1)
            && LeftOutBy(rows, d)(s) == LeftOut(prior, number)
  {
  }

  lemma JudgeAdds(y: Tally, prior: Option<nat>, number: nat)
    ensures var repeats, skips := prior.Some? && number == prior.value, prior.Some? && number > prior.value + 1;
            JudgeExact(y, prior, number)
            == Tally(y.stale || repeats, y.gap || skips, y.duplicates + One(repeats), y.gaps + LeftOut(prior, number))
  {
  }

  lemma StreamAdds(
      y: Tally, z: Tally, repeated: set<Stream>, skipping: set<Stream>, streams: set<Stream>, s: Stream)
    requires s !in streams && y.duplicates == |repeated * streams|
    requires (y.stale <==> repeated * streams != {}) && (y.gap <==> skipping * streams != {})
    requires z.stale == (y.stale || s in repeated) && z.gap == (y.gap || s in skipping)
    requires z.duplicates == y.duplicates + One(s in repeated)
    ensures z.duplicates == |repeated * (streams + {s})|
    ensures (z.stale <==> repeated * (streams + {s}) != {}) && (z.gap <==> skipping * (streams + {s}) != {})
  {
    MeetNext(repeated, streams, s);
    MeetNext(skipping, streams, s);
  }

  lemma TallyStream(y: Tally, rows: seq<Row>, d: DeliveryKey, streams: set<Stream>, s: Stream, number: nat)
    requires TalliesOver(y, rows, d, streams) && s !in streams
    requires s in StreamsIn(rows, d) && NumberIn(rows, d, s) == Some(number)
    ensures TalliesOver(JudgeExact(y, PriorIn(rows, d, s), number), rows, d, streams + {s})
  {
    var z := JudgeExact(y, PriorIn(rows, d, s), number);
    StreamJudged(rows, d, s, number);
    JudgeAdds(y, PriorIn(rows, d, s), number);
    StreamAdds(y, z, Repeated(rows, d), Skipping(rows, d), streams, s);
    SumWith(streams, LeftOutBy(rows, d), s);
  }

  lemma {:induction false} TallyMeaning(
      rows: seq<Row>, d: DeliveryKey, prior: Component, current: Component, keys: seq<Stream>)
    requires NoneTwice(keys)
    requires forall s :: s in keys ==> s in current.items
    requires forall s :: s in keys ==>
                           && s in StreamsIn(rows, d) && NumberIn(rows, d, s) == Some(current.items[s])
                           && Lookup(prior.items, s) == PriorIn(rows, d, s)
    ensures TalliesOver(TallyComponent(prior, current, keys), rows, d, Elems(keys))
  {
    if |keys| > 0 {
      var n := |keys| - 1;
      NoneTwicePrefix(keys);
      ElemsLast(keys);
      TallyMeaning(rows, d, prior, current, keys[..n]);
      var before := TallyComponent(prior, current, keys[..n]);
      TallyStream(before, rows, d, Elems(keys[..n]), keys[n], current.items[keys[n]]);
    }
  }

  lemma DeliveryTally(rows: seq<Row>, g: Components, keys: seq<DeliveryKey>, n: nat)
    requires g == CollectRows(rows) && ValidItems(g) && ListedOnce(g) && IsOrderOf(keys, rows) && n < |keys|
    requires forall i :: 0 <= i < |keys| ==> keys[i] in g.items
    ensures TallyAt(g, keys, n) == TallyFor(rows, keys[n])
  {
    var d := keys[n];
    var prior, current := PriorOf(PathRuns(g, keys[..n]).previous, d.0), g.items[d];
    forall s | s in current.keys
      ensures s in StreamsIn(rows, d) && NumberIn(rows, d, s) == Some(current.items[s])
      ensures Lookup(prior.items, s) == PriorIn(rows, d, s)
    {
      CollectMeaning(rows, d, s);
      PriorFromOrder(rows, g, keys, n, s);
      assert s in Elems(current.keys);
    }
    TallyMeaning(rows, d, prior, current, current.keys);
    CollectMeaning(rows, d, "");
    WholeDelivery(TallyAt(g, keys, n), rows, d);
  }

  // ----- all deliveries

  lemma MarkedNext(rows: seq<Row>, ds: set<DeliveryKey>, d: DeliveryKey)
    ensures StaleIn(rows, ds + {d}) == Mark(StaleIn(rows, ds), d, Repeated(rows, d) != {})
    ensures GapsIn(rows, ds + {d}) == Mark(GapsIn(rows, ds), d, Skipping(rows, d) != {})
  {
  }

  lemma MarkSizes(stale: set<DeliveryKey>, gaps: set<DeliveryKey>, d: DeliveryKey, repeats: bool, skips: bool)
    requires d !in stale && d !in gaps
    ensures |Mark(stale, d, repeats)| == |stale| + One(repeats) && |Mark(gaps, d, skips)| == |gaps| + One(skips)
    ensures |Mark(stale, d, repeats) + Mark(gaps, d, skips)| == |stale + gaps| + One(repeats || skips)
  {
    MarkCount(stale, d, repeats);
    MarkCount(gaps, d, skips);
    MarkCount(stale + gaps, d, repeats || skips);
    assert Mark(stale, d, repeats) + Mark(gaps, d, skips) == Mark(stale + gaps, d, repeats || skips);
  }

  /** What a whole delivery adds. */
  ghost function TallyFor(rows: seq<Row>, d: DeliveryKey): Tally {
    Tally(Repeated(rows, d) != {}, Skipping(rows, d) != {}, RepeatedCount(rows)(d), LeftOutCount(rows)(d))
  }

  lemma WholeDelivery(y: Tally, rows: seq<Row>, d: DeliveryKey)
    requires TalliesOver(y, rows, d, StreamsIn(rows, d))
    ensures y == TallyFor(rows, d)
  {
    assert Repeated(rows, d) * StreamsIn(rows, d) == Repeated(rows, d);
    assert Skipping(rows, d) * StreamsIn(rows, d) == Skipping(rows, d);
  }

  lemma {:induction false} SetsNext(rows: seq<Row>, ds: set<DeliveryKey>, d: DeliveryKey, repeats: bool, skips: bool)
    requires d !in ds && repeats == (Repeated(rows, d) != {}) && skips == (Skipping(rows, d) != {})
    ensures var a, b := CountsOver(rows, ds), CountsOver(rows, ds + {d});
            b.stale == a.stale + One(repeats) && b.gapBearing == a.gapBearing + One(skips)
            && b.problem == a.problem + One(repeats || skips)
  {
    MarkedNext(rows, ds, d);
    MarkSizes(StaleIn(rows, ds), GapsIn(rows, ds), d, repeats, skips);
  }

  lemma {:induction false} SumsNext(rows: seq<Row>, ds: set<DeliveryKey>, d: DeliveryKey)
    requires d !in ds
    ensures var a, b := CountsOver(rows, ds), CountsOver(rows, ds + {d});
            b.duplicates == a.duplicates + RepeatedCount(rows)(d) && b.gaps == a.gaps + LeftOutCount(rows)(d)
  {
    SumWith(ds, RepeatedCount(rows), d);
    SumWith(ds, LeftOutCount(rows), d);
  }

  lemma AddedUp(a: Totals, b: Totals, y: Tally)
    requires b.duplicates == a.duplicates + y.duplicates && b.gaps == a.gaps + y.gaps
    requires b.stale == a.stale + One(y.stale) && b.gapBearing == a.gapBearing + One(y.gap)
    requires b.problem == a.problem + One(y.stale || y.gap)
    ensures b == AddTally(a, y)
  {
  }

  lemma {:induction false} AddDelivery(rows: seq<Row>, ds: set<DeliveryKey>, d: DeliveryKey)
    requires d !in ds
    ensures CountsOver(rows, ds + {d}) == AddTally(CountsOver(rows, ds), TallyFor(rows, d))
  {
    var y := TallyFor(rows, d);
    SetsNext(rows, ds, d, y.stale, y.gap);
    SumsNext(rows, ds, d);
    AddedUp(CountsOver(rows, ds), CountsOver(rows, ds + {d}), y);
  }

  lemma NothingCounted(rows: seq<Row>)
    ensures CountsOver(rows, {}) == Totals(0, 0, 0, 0, 0)
  {
    assert StaleIn(rows, {}) == {} && GapsIn(rows, {}) == {};
  }

  /** What delivery `n` adds. */
  function TallyAt(g: Components, keys: seq<DeliveryKey>, n: nat): Tally
    requires ValidItems(g) && n < |keys| && forall i :: 0 <= i < |keys| ==> keys[i] in g.items
  {
    var current := g.items[keys[n]];
    TallyComponent(PriorOf(PathRuns(g, keys[..n]).previous, keys[n].0), current, current.keys)
  }

  lemma PathNext(g: Components, keys: seq<DeliveryKey>, n: nat)
    requires ValidItems(g) && n < |keys| && forall i :: 0 <= i < |keys| ==> keys[i] in g.items
    ensures PathRuns(g, keys[..n + 1]).totals == AddTally(PathRuns(g, keys[..n]).totals, TallyAt(g, keys, n))
  {
    assert keys[..n + 1][..n] == keys[..n];
  }

  /** The counts over deliveries taken in some order. */
  ghost function CountsAlong(rows: seq<Row>, keys: seq<DeliveryKey>): Totals {
    if |keys| == 0 then Totals(0, 0, 0, 0, 0)
    else AddTally(CountsAlong(rows, keys[..|keys| - 1]), TallyFor(rows, keys[|keys| - 1]))
  }

  lemma {:induction false} AlongMeansOver(rows: seq<Row>, keys: seq<DeliveryKey>)
    requires NoneTwice(keys)
    ensures CountsAlong(rows, keys) == CountsOver(rows, Elems(keys))
  {
    if |keys| == 0 {
      NothingCounted(rows);
      assert Elems(keys) == {};
    } else {
      var n := |keys| - 1;
      NoneTwicePrefix(keys);
      ElemsLast(keys);
      AlongMeansOver(rows, keys[..n]);
      AddDelivery(rows, Elems(keys[..n]), keys[n]);
    }
  }

  predicate IsFromFile(rows: seq<Row>, g: Components, keys: seq<DeliveryKey>) {
    && g == CollectRows(rows) && ValidItems(g) && ListedOnce(g) && IsOrderOf(keys, rows)
    && forall i :: 0 <= i < |keys| ==> keys[i] in g.items
  }

  lemma {:induction false} AddedAlong(
      rows: seq<Row>, keys: seq<DeliveryKey>, totals: seq<Totals>, tallies: seq<Tally>, n: nat)
    requires n <= |keys| == |tallies| && |totals| == |keys| + 1 && totals[0] == Totals(0, 0, 0, 0, 0)
    requires forall m :: 0 <= m < |keys| ==> totals[m + 1] == AddTally(totals[m], tallies[m])
    requires forall m :: 0 <= m < |keys| ==> tallies[m] == TallyFor(rows, keys[m])
    ensures totals[n] == CountsAlong(rows, keys[..n])
  {
    if n > 0 {
      AddedAlong(rows, keys, totals, tallies, n - 1);
      assert keys[..n][..n - 1] == keys[..n - 1];
    }
  }

  lemma {:induction false} PathCounts(rows: seq<Row>, g: Components, keys: seq<DeliveryKey>)
    requires IsFromFile(rows, g, keys)
    ensures PathRuns(g, keys).totals == CountsAlong(rows, keys)
  {
    var n := |keys|;
    var totals := seq(n + 1, m requires 0 <= m <= n => PathRuns(g, keys[..m]).totals);
    var tallies := seq(n, m requires 0 <= m < n => TallyAt(g, keys, m));
    forall m | 0 <= m < n ensures totals[m + 1] == AddTally(totals[m], tallies[m]) {
      PathNext(g, keys, m);
    }
    forall m | 0 <= m < n ensures tallies[m] == TallyFor(rows, keys[m]) {
      DeliveryTally(rows, g, keys, m);
    }
    AddedAlong(rows, keys, totals, tallies, n);
    assert keys[..n] == keys;
  }

  lemma {:induction false} CollectedKeys(rows: seq<Row>)
    ensures CollectRows(rows).items.Keys == Deliveries(rows)
  {
    if |rows| > 0 {
      CollectedKeys(rows[..|rows| - 1]);
    }
  }

  /** On any file E3 counts, over all deliveries, the streams that have the number
      of the camera's previous delivery, the numbers left out since that one, and
      the deliveries with such a stream; a stream that falls back, or that the
      previous delivery lacks, counts for nothing. */
  lemma {:induction false} PathMetricsMeaning(rows: seq<Row>)
    ensures Measured(rows) == PathMetrics(|Deliveries(rows)|, CountsOver(rows, Deliveries(rows)))
  {
    var g := CollectRows(rows);
    var keys := SortKeys(g.keys);
    CollectedAreValid(rows);
    CollectedOnce(rows);
    SortedOrder(rows, g);
    PathCounts(rows, g, keys);
    AlongMeansOver(rows, keys);
  }

  lemma SortedOrder(rows: seq<Row>, g: Components)
    requires g == CollectRows(rows) && Valid(g) && ListedOnce(g)
    ensures IsOrderOf(SortKeys(g.keys), rows) && NoneTwice(SortKeys(g.keys)) && |g.keys| == |Deliveries(rows)|
    ensures forall i :: 0 <= i < |SortKeys(g.keys)| ==> SortKeys(g.keys)[i] in g.items
  {
    CollectedKeys(rows);
    SortKeysMembers(g.keys);
    SortKeysAscends(g.keys);
    assert Elems(SortKeys(g.keys)) == Elems(g.keys);
    SortKeysSize(g.keys);
  }

  lemma {:induction false} SortKeysSize(s: seq<DeliveryKey>)
    ensures |SortKeys(s)| == |s|
  {
    if s != [] {
      SortKeysSize(s[1..]);
      InsertKeySize(s[0], SortKeys(s[1..]));
    }
  }

  lemma {:induction false} InsertKeySize(x: DeliveryKey, s: seq<DeliveryKey>)
    ensures |InsertKey(x, s)| == |s| + 1
  {
    if s != [] && KeyBefore(s[0], x) {
      InsertKeySize(x, s[1..]);
    }
  }
}
