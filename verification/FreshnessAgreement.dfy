/** The reconstructions of E2, E3 and E4 agree on the event files of cameras
    that deliver the same streams every time with numbers that never decrease. */
module FreshnessAgreement {
  import opened Wrappers
  import opened Sequences
  import opened Numbers
  import opened OrderedDict
  import opened Freshness
  import opened FreshnessRebuild

  /** Rows of one delivery, each stream once. */
  predicate IsFrameset(d: seq<Row>) {
    d != [] && SharesKey(d, KeyOf(d)) && StreamsDiffer(d)
  }

  predicate SharesKey(d: seq<Row>, key: DeliveryKey) {
    forall i :: 0 <= i < |d| ==> DeliveryOf(d[i]) == key
  }

  predicate StreamsDiffer(d: seq<Row>) {
    forall i, j :: 0 <= i < j < |d| ==> d[i].stream != d[j].stream
  }

  function KeyOf(d: seq<Row>): DeliveryKey
    requires d != []
  {
    DeliveryOf(d[0])
  }

  predicate HasStream(d: seq<Row>, s: Stream) {
    exists i :: 0 <= i < |d| && d[i].stream == s
  }

  /** In file order: by camera, then by delivery. */
  predicate InFileOrder(ds: seq<seq<Row>>) {
    && (forall i :: 0 <= i < |ds| ==> IsFrameset(ds[i]))
    && (forall i, j :: 0 <= i < j < |ds| ==> KeyBefore(KeyOf(ds[i]), KeyOf(ds[j])))
  }

  /** The file cut into deliveries: rows of one delivery each, no delivery twice. */
  predicate IsCut(ds: seq<seq<Row>>) {
    && (forall i :: 0 <= i < |ds| ==> ds[i] != [] && SharesKey(ds[i], KeyOf(ds[i])))
    && (forall i, j :: 0 <= i < j < |ds| ==> KeyOf(ds[i]) != KeyOf(ds[j]))
  }

  lemma FileOrderCuts(ds: seq<seq<Row>>)
    requires InFileOrder(ds)
    ensures IsCut(ds)
  {
    forall i, j | 0 <= i < j < |ds| ensures KeyOf(ds[i]) != KeyOf(ds[j]) {
      assert KeyBefore(KeyOf(ds[i]), KeyOf(ds[j]));
    }
  }

  /** All deliveries of a camera carry the same streams. */
  ghost predicate StreamsRemain(ds: seq<seq<Row>>)
    requires InFileOrder(ds)
  {
    forall i, j, s :: 0 <= i < j < |ds| && KeyOf(ds[i]).0 == KeyOf(ds[j]).0 && HasStream(ds[i], s) ==>
                        HasStream(ds[j], s)
  }

  predicate NeverDecreases(rows: seq<Row>) {
    forall i, j :: 0 <= i < j < |rows| && StreamOf(rows[i]) == StreamOf(rows[j]) ==> rows[i].number <= rows[j].number
  }

  ghost predicate Regular(ds: seq<seq<Row>>) {
    InFileOrder(ds) && StreamsRemain(ds) && NeverDecreases(Flatten(ds))
  }

  // ----- the last number of each stream

  function LastSeen(rows: seq<Row>): map<StreamKey, nat> {
    if rows == [] then map[]
    else LastSeen(rows[..|rows| - 1])[StreamOf(rows[|rows| - 1]) := rows[|rows| - 1].number]
  }

  lemma {:induction false} LastSeenIsARow(rows: seq<Row>, key: StreamKey) returns (i: nat)
    requires key in LastSeen(rows)
    ensures i < |rows| && StreamOf(rows[i]) == key && rows[i].number == LastSeen(rows)[key]
  {
    var n := |rows| - 1;
    if StreamOf(rows[n]) == key {
      i := n;
    } else {
      i := LastSeenIsARow(rows[..n], key);
    }
  }

  lemma {:induction false} LastSeenAppend(a: seq<Row>, b: seq<Row>, key: StreamKey)
    ensures Lookup(LastSeen(a + b), key) ==
            if key in LastSeen(b) then Some(LastSeen(b)[key]) else Lookup(LastSeen(a), key)
  {
    if b == [] {
      assert a + b == a;
    } else {
      var n := |b| - 1;
      LastSeenAppend(a, b[..n], key);
      assert (a + b)[..|a| + n] == a + b[..n];
    }
  }

  lemma PriorIsNotAbove(pre: seq<Row>, r: Row)
    requires NeverDecreases(pre + [r])
    ensures var prior := Lookup(LastSeen(pre), StreamOf(r)); prior.Some? ==> prior.value <= r.number
  {
    var rows := pre + [r];
    if StreamOf(r) in LastSeen(pre) {
      var i := LastSeenIsARow(pre, StreamOf(r));
      assert rows[i] == pre[i] && rows[|pre|] == r;
    }
  }

  lemma NeverDecreasesPrefix(rows: seq<Row>, more: seq<Row>)
    requires NeverDecreases(rows + more)
    ensures NeverDecreases(rows)
  {
    assert forall i :: 0 <= i < |rows| ==> (rows + more)[i] == rows[i];
  }

  // ----- findings of one delivery against the numbers seen before it

  function TallyOf(seen: map<StreamKey, nat>, d: seq<Row>): Tally {
    if d == [] then Tally(false, false, 0, 0)
    else
      var r := d[|d| - 1];
      JudgeExact(TallyOf(seen, d[..|d| - 1]), Lookup(seen, StreamOf(r)), r.number)
  }

  function Reference(ds: seq<seq<Row>>): Totals {
    if ds == [] then Totals(0, 0, 0, 0, 0)
    else
      var n := |ds| - 1;
      AddTally(Reference(ds[..n]), TallyOf(LastSeen(Flatten(ds[..n])), ds[n]))
  }

  /** Inside a delivery the rows before a new stream do not touch it. */
  lemma {:induction false} Untouched(d: seq<Row>, key: StreamKey)
    requires forall i :: 0 <= i < |d| ==> d[i].stream != key.1
    ensures key !in LastSeen(d)
  {
    if d != [] {
      Untouched(d[..|d| - 1], key);
    }
  }

  /** The number a row of a delivery is compared with is the one seen before the delivery. */
  lemma SeenBeforeDelivery(before: seq<Row>, d: seq<Row>, r: Row)
    requires StreamsDiffer(d + [r])
    ensures Lookup(LastSeen(before + d), StreamOf(r)) == Lookup(LastSeen(before), StreamOf(r))
  {
    assert forall i :: 0 <= i < |d| ==> d[i] == (d + [r])[i];
    assert (d + [r])[|d|] == r;
    Untouched(d, StreamOf(r));
    LastSeenAppend(before, d, StreamOf(r));
  }

  lemma StreamsDifferPrefix(d: seq<Row>, r: Row)
    requires StreamsDiffer(d + [r])
    ensures StreamsDiffer(d)
  {
    assert forall i :: 0 <= i < |d| ==> d[i] == (d + [r])[i];
  }

  // ----- E4

  lemma {:induction false} RebuildSeesLast(before: seq<Row>, d: seq<Row>)
    ensures RebuildRows(LastSeen(before), d).previous == LastSeen(before + d)
  {
    if d == [] {
      assert before + d == before;
    } else {
      var n := |d| - 1;
      RebuildSeesLast(before, d[..n]);
      assert (before + d)[..|before| + n] == before + d[..n];
    }
  }

  lemma {:induction false} RebuildTally(before: seq<Row>, d: seq<Row>)
    requires StreamsDiffer(d) && NeverDecreases(before + d)
    ensures RebuildRows(LastSeen(before), d).tally == TallyOf(LastSeen(before), d)
  {
    if d != [] {
      var n := |d| - 1;
      var pre, r := d[..n], d[n];
      assert d == pre + [r] && before + d == (before + pre) + [r];
      StreamsDifferPrefix(pre, r);
      NeverDecreasesPrefix(before + pre, [r]);
      RebuildTally(before, pre);
      RebuildSeesLast(before, pre);
      SeenBeforeDelivery(before, pre, r);
      PriorIsNotAbove(before + pre, r);
    }
  }

  lemma {:induction false} RebuildMatches(ds: seq<seq<Row>>)
    requires Regular(ds)
    ensures RebuildGroups(ds).previous == LastSeen(Flatten(ds)) && RebuildGroups(ds).totals == Reference(ds)
  {
    if ds != [] {
      var n := |ds| - 1;
      RegularPrefix(ds);
      RebuildMatches(ds[..n]);
      RebuildSeesLast(Flatten(ds[..n]), ds[n]);
      RebuildTally(Flatten(ds[..n]), ds[n]);
    }
  }

  lemma RegularPrefix(ds: seq<seq<Row>>)
    requires ds != [] && Regular(ds)
    ensures Regular(ds[..|ds| - 1])
  {
    var n := |ds| - 1;
    var pre := ds[..n];
    assert forall i :: 0 <= i < n ==> pre[i] == ds[i];
    NeverDecreasesPrefix(Flatten(pre), ds[n]);
  }

  // ----- E2

  lemma {:induction false} HighestIsLast(rows: seq<Row>)
    requires NeverDecreases(rows)
    ensures ProblemRows(rows).highest == LastSeen(rows)
  {
    if rows != [] {
      var n := |rows| - 1;
      var pre, r := rows[..n], rows[n];
      assert rows == pre + [r];
      NeverDecreasesPrefix(pre, [r]);
      HighestIsLast(pre);
      PriorIsNotAbove(pre, r);
    }
  }

  lemma MarkTwice(a: set<DeliveryKey>, key: DeliveryKey, b: bool, c: bool)
    ensures Mark(Mark(a, key, b), key, c) == Mark(a, key, b || c)
  {
  }

  lemma MarkRow(p: Problems, r: Row, y: Tally, prior: Option<nat>)
    requires prior == Lookup(p.highest, StreamOf(r)) && (prior.Some? ==> prior.value <= r.number)
    ensures var q, z, key := ProblemStep(p, r), JudgeExact(Tally(false, false, 0, 0), prior, r.number), DeliveryOf(r);
            && q.stale == Mark(p.stale, key, z.stale) && q.gaps == Mark(p.gaps, key, z.gap)
            && q.deliveries == Mark(p.deliveries, key, true)
            && JudgeExact(y, prior, r.number).stale == (y.stale || z.stale)
            && JudgeExact(y, prior, r.number).gap == (y.gap || z.gap)
  {
  }

  lemma ProblemNext(pre: seq<Row>, r: Row)
    ensures ProblemRows(pre + [r]) == ProblemStep(ProblemRows(pre), r)
  {
    assert (pre + [r])[..|pre|] == pre;
  }

  lemma {:induction false} ProblemsOfDelivery(before: seq<Row>, d: seq<Row>, key: DeliveryKey)
    requires SharesKey(d, key) && StreamsDiffer(d) && NeverDecreases(before + d)
    ensures var p, q, y := ProblemRows(before), ProblemRows(before + d), TallyOf(LastSeen(before), d);
            && q.stale == Mark(p.stale, key, y.stale)
            && q.gaps == Mark(p.gaps, key, y.gap)
            && q.deliveries == Mark(p.deliveries, key, d != [])
  {
    if d == [] {
      assert before + d == before;
    } else {
      var n := |d| - 1;
      var pre, r := d[..n], d[n];
      assert d == pre + [r] && before + d == (before + pre) + [r];
      StreamsDifferPrefix(pre, r);
      NeverDecreasesPrefix(before + pre, [r]);
      ProblemsOfDelivery(before, pre, key);
      HighestIsLast(before + pre);
      SeenBeforeDelivery(before, pre, r);
      PriorIsNotAbove(before + pre, r);
      ProblemNext(before + pre, r);
      var p, y := ProblemRows(before), TallyOf(LastSeen(before), pre);
      var prior := Lookup(LastSeen(before), StreamOf(r));
      var z := JudgeExact(Tally(false, false, 0, 0), prior, r.number);
      MarkRow(ProblemRows(before + pre), r, y, prior);
      MarkTwice(p.stale, key, y.stale, z.stale);
      MarkTwice(p.gaps, key, y.gap, z.gap);
      MarkTwice(p.deliveries, key, pre != [], true);
    }
  }

  function Keys(ds: seq<seq<Row>>): (keys: seq<DeliveryKey>)
    requires forall i :: 0 <= i < |ds| ==> ds[i] != []
    ensures |keys| == |ds| && forall i :: 0 <= i < |ds| ==> keys[i] == KeyOf(ds[i])
  {
    if ds == [] then [] else Keys(ds[..|ds| - 1]) + [KeyOf(ds[|ds| - 1])]
  }

  lemma NewKey(ds: seq<seq<Row>>)
    requires ds != [] && IsCut(ds)
    ensures var n := |ds| - 1; KeyOf(ds[n]) !in Keys(ds[..n])
  {
    var n := |ds| - 1;
    assert forall i :: 0 <= i < n ==> Keys(ds[..n])[i] == KeyOf(ds[i]);
  }

  lemma MarkCount(a: set<DeliveryKey>, key: DeliveryKey, b: bool)
    requires key !in a
    ensures |Mark(a, key, b)| == |a| + One(b)
  {
  }

  function CountsLike(delivered: nat, t: Totals): ProblemCounts {
    ProblemCounts(delivered, t.stale, t.gapBearing, t.problem)
  }

  lemma CountDelivery(p: Problems, q: Problems, key: DeliveryKey, y: Tally, delivered: nat, t: Totals)
    requires p.stale <= p.deliveries && p.gaps <= p.deliveries && key !in p.deliveries
    requires q.stale == Mark(p.stale, key, y.stale) && q.gaps == Mark(p.gaps, key, y.gap)
    requires q.deliveries == p.deliveries + {key}
    requires CountsOf(p) == CountsLike(delivered, t)
    ensures CountsOf(q) == CountsLike(delivered + 1, AddTally(t, y))
  {
    MarkCount(p.stale, key, y.stale);
    MarkCount(p.gaps, key, y.gap);
    assert q.stale + q.gaps == Mark(p.stale + p.gaps, key, y.stale || y.gap);
    MarkCount(p.stale + p.gaps, key, y.stale || y.gap);
  }

  lemma {:induction false} ProblemsMatch(ds: seq<seq<Row>>)
    requires Regular(ds)
    ensures var p := ProblemRows(Flatten(ds));
            && p.stale <= p.deliveries && p.gaps <= p.deliveries && p.deliveries == Elems(Keys(ds))
            && CountsOf(p) == CountsLike(|ds|, Reference(ds))
  {
    if ds != [] {
      var n := |ds| - 1;
      RegularPrefix(ds);
      FileOrderCuts(ds);
      ProblemsMatch(ds[..n]);
      var p, q := ProblemRows(Flatten(ds[..n])), ProblemRows(Flatten(ds));
      var y := TallyOf(LastSeen(Flatten(ds[..n])), ds[n]);
      ProblemsOfDelivery(Flatten(ds[..n]), ds[n], KeyOf(ds[n]));
      NewKey(ds);
      CountDelivery(p, q, KeyOf(ds[n]), y, n, Reference(ds[..n]));
      LastKey(ds);
    }
  }

  lemma LastKey(ds: seq<seq<Row>>)
    requires ds != [] && IsCut(ds)
    ensures var n := |ds| - 1; Elems(Keys(ds)) == Elems(Keys(ds[..n])) + {KeyOf(ds[n])}
  {
    ElemsLast(Keys(ds));
    assert Keys(ds)[..|ds| - 1] == Keys(ds[..|ds| - 1]);
  }

  // ----- grouping

  lemma GroupAgain(g: Groups, key: DeliveryKey, earlier: seq<Row>, r: Row)
    requires DeliveryOf(r) == key
    ensures GroupRow(Dict(g.keys + [key], g.items[key := earlier]), r) ==
            Dict(g.keys + [key], g.items[key := earlier + [r]])
  {
    assert g.items[key := earlier][key := earlier + [r]] == g.items[key := earlier + [r]];
  }

  lemma GroupFirst(before: seq<Row>, r: Row)
    requires DeliveryOf(r) !in GroupRows(before).items
    ensures var g, key := GroupRows(before), DeliveryOf(r);
            GroupRows(before + [r]) == Dict(g.keys + [key], g.items[key := [r]])
  {
    assert (before + [r])[..|before|] == before;
    assert GroupRows(before + [r]) == GroupRow(GroupRows(before), r);
    var none: seq<Row> := [];
    assert none + [r] == [r];
  }

  /** Grouping reads the deliveries off the file. */
  lemma {:induction false} GroupDelivery(before: seq<Row>, d: seq<Row>, key: DeliveryKey)
    requires SharesKey(d, key) && key !in GroupRows(before).items && d != []
    ensures var g := GroupRows(before);
            GroupRows(before + d) == Dict(g.keys + [key], g.items[key := d])
  {
    var n := |d| - 1;
    assert d == d[..n] + [d[n]];
    if n > 0 {
      GroupNext(before, d);
      GroupDelivery(before, d[..n], key);
      GroupAgain(GroupRows(before), key, d[..n], d[n]);
    } else {
      assert d == [d[0]];
      GroupFirst(before, d[0]);
    }
  }

  lemma {:induction false} GroupNext(before: seq<Row>, d: seq<Row>)
    requires d != []
    ensures var n := |d| - 1; GroupRows(before + d) == GroupRow(GroupRows(before + d[..n]), d[n])
  {
    assert (before + d)[..|before| + |d| - 1] == before + d[..|d| - 1];
  }

  lemma {:induction false} GroupLast(ds: seq<seq<Row>>)
    requires ds != [] && IsCut(ds)
    ensures var n := |ds| - 1;
            var g, key := GroupRows(Flatten(ds[..n])), KeyOf(ds[n]);
            GroupRows(Flatten(ds)) == Dict(g.keys + [key], g.items[key := ds[n]])
    decreases |ds|, 0
  {
    var n := |ds| - 1;
    GroupKeys(ds[..n]);
    GroupedAreValid(Flatten(ds[..n]));
    NewKey(ds);
    GroupDelivery(Flatten(ds[..n]), ds[n], KeyOf(ds[n]));
  }

  lemma {:induction false} GroupKeys(ds: seq<seq<Row>>)
    requires IsCut(ds)
    ensures GroupRows(Flatten(ds)).keys == Keys(ds)
    decreases |ds|, 1
  {
    if ds != [] {
      GroupKeys(ds[..|ds| - 1]);
      GroupLast(ds);
    }
  }

  lemma {:induction false} GroupItem(ds: seq<seq<Row>>, i: nat)
    requires IsCut(ds) && i < |ds|
    ensures KeyOf(ds[i]) in GroupRows(Flatten(ds)).items && GroupRows(Flatten(ds)).items[KeyOf(ds[i])] == ds[i]
  {
    var n := |ds| - 1;
    GroupLast(ds);
    if i < n {
      GroupItem(ds[..n], i);
      assert ds[..n][i] == ds[i];
      NewKey(ds);
      assert Keys(ds[..n])[i] == KeyOf(ds[i]);
    }
  }

  lemma GroupsAreDeliveries(ds: seq<seq<Row>>)
    requires IsCut(ds)
    ensures var g := GroupRows(Flatten(ds));
            && g.keys == Keys(ds)
            && forall i :: 0 <= i < |ds| ==> KeyOf(ds[i]) in g.items && g.items[KeyOf(ds[i])] == ds[i]
  {
    GroupKeys(ds);
    forall i | 0 <= i < |ds|
      ensures var g := GroupRows(Flatten(ds)); KeyOf(ds[i]) in g.items && g.items[KeyOf(ds[i])] == ds[i]
    {
      GroupItem(ds, i);
    }
  }

  /** E3 collects the same deliveries as E4. */
  lemma {:induction false} CollectedLikeGrouped(rows: seq<Row>)
    ensures var c, g := CollectRows(rows), GroupRows(rows);
            && c.keys == g.keys && c.items.Keys == g.items.Keys
            && forall k :: k in g.items ==> c.items[k] == ComponentOf(g.items[k])
  {
    if rows != [] {
      var n := |rows| - 1;
      CollectedLikeGrouped(rows[..n]);
      var g, r := GroupRows(rows[..n]), rows[n];
      var earlier := if DeliveryOf(r) in g.items then g.items[DeliveryOf(r)] else [];
      assert (earlier + [r])[..|earlier|] == earlier;
    }
  }

  lemma {:induction false} AscendingStaySorted(keys: seq<DeliveryKey>)
    requires forall i, j :: 0 <= i < j < |keys| ==> KeyBefore(keys[i], keys[j])
    ensures SortKeys(keys) == keys
  {
    if keys != [] {
      AscendingStaySorted(keys[1..]);
    }
  }

  // ----- E3

  function PathOver(ds: seq<seq<Row>>): PathRun
    requires forall i :: 0 <= i < |ds| ==> ds[i] != []
  {
    if ds == [] then PathRun(map[], Totals(0, 0, 0, 0, 0))
    else
      var n := |ds| - 1;
      ComponentsAreValid(ds[n]);
      PathStep(PathOver(ds[..n]), KeyOf(ds[n]).0, ComponentOf(ds[n]))
  }

  lemma {:induction false} ComponentIsLast(d: seq<Row>, camera: nat, s: Stream)
    requires forall i :: 0 <= i < |d| ==> d[i].camera == camera
    ensures Lookup(ComponentOf(d).items, s) == Lookup(LastSeen(d), (camera, s))
  {
    if d != [] {
      ComponentIsLast(d[..|d| - 1], camera, s);
    }
  }

  lemma {:induction false} FlattenRow(ds: seq<seq<Row>>, i: nat) returns (k: nat, j: nat)
    requires i < |Flatten(ds)|
    ensures k < |ds| && j < |ds[k]| && ds[k][j] == Flatten(ds)[i]
  {
    var n := |ds| - 1;
    var before := Flatten(ds[..n]);
    if i < |before| {
      k, j := FlattenRow(ds[..n], i);
    } else {
      k, j := n, i - |before|;
    }
  }

  /** A camera's latest delivery has every stream the camera ever delivered. */
  lemma SeenInLatest(ds: seq<seq<Row>>, s: Stream)
    requires ds != [] && InFileOrder(ds) && StreamsRemain(ds)
    requires (KeyOf(ds[|ds| - 1]).0, s) in LastSeen(Flatten(ds))
    ensures HasStream(ds[|ds| - 1], s)
  {
    var i := LastSeenIsARow(Flatten(ds), (KeyOf(ds[|ds| - 1]).0, s));
    var k, j := FlattenRow(ds, i);
    assert DeliveryOf(ds[k][j]) == KeyOf(ds[k]);
    assert HasStream(ds[k], s);
  }

  lemma {:induction false} HasLastSeen(d: seq<Row>, camera: nat, s: Stream)
    requires HasStream(d, s) && forall i :: 0 <= i < |d| ==> d[i].camera == camera
    ensures (camera, s) in LastSeen(d)
  {
    var n := |d| - 1;
    if d[n].stream != s {
      assert exists i :: 0 <= i < n && d[..n][i].stream == s by {
        var i :| 0 <= i < |d| && d[i].stream == s;
        assert d[..n][i].stream == s;
      }
      HasLastSeen(d[..n], camera, s);
    }
  }

  /** What E3 compares a stream with is the last number seen of it. */
  lemma {:induction false} PriorIsLastSeen(ds: seq<seq<Row>>, camera: nat, s: Stream)
    requires Regular(ds)
    ensures Lookup(PriorOf(PathOver(ds).previous, camera).items, s) == Lookup(LastSeen(Flatten(ds)), (camera, s))
  {
    if ds != [] {
      var n := |ds| - 1;
      var before, d := Flatten(ds[..n]), ds[n];
      RegularPrefix(ds);
      PriorIsLastSeen(ds[..n], camera, s);
      LastSeenAppend(before, d, (camera, s));
      var c := KeyOf(d).0;
      assert forall i :: 0 <= i < |d| ==> DeliveryOf(d[i]).0 == c;
      if camera == c {
        ComponentIsLast(d, camera, s);
        if (camera, s) in LastSeen(Flatten(ds)) {
          SeenInLatest(ds, s);
          HasLastSeen(d, camera, s);
        }
      } else if (camera, s) in LastSeen(d) {
        var i := LastSeenIsARow(d, (camera, s));
        assert false;
      }
    }
  }

  function Streams(d: seq<Row>): (s: seq<Stream>)
    ensures |s| == |d| && forall i :: 0 <= i < |d| ==> s[i] == d[i].stream
  {
    seq(|d|, i requires 0 <= i < |d| => d[i].stream)
  }

  lemma {:induction false} ComponentKeys(d: seq<Row>)
    requires StreamsDiffer(d)
    ensures ComponentOf(d).keys == Streams(d)
  {
    if d != [] {
      var n := |d| - 1;
      var pre, r := d[..n], d[n];
      assert d == pre + [r];
      StreamsDifferPrefix(pre, r);
      ComponentKeys(pre);
      ComponentsAreValid(pre);
      assert r.stream !in Streams(pre) by {
        assert forall i :: 0 <= i < n ==> Streams(pre)[i] == d[i].stream;
      }
      assert Streams(d) == Streams(pre) + [r.stream];
    }
  }

  lemma {:induction false} ComponentItem(d: seq<Row>, i: nat)
    requires StreamsDiffer(d) && i < |d|
    ensures var c := ComponentOf(d); d[i].stream in c.items && c.items[d[i].stream] == d[i].number
  {
    var n := |d| - 1;
    if i < n {
      assert d == d[..n] + [d[n]];
      StreamsDifferPrefix(d[..n], d[n]);
      ComponentItem(d[..n], i);
    }
  }

  lemma {:induction false} ComponentTally(
      prior: Component, current: Component, keys: seq<Stream>, seen: map<StreamKey, nat>, d: seq<Row>)
    requires |keys| == |d|
    requires forall i :: 0 <= i < |d| ==>
                           && keys[i] == d[i].stream && d[i].stream in current.items
                           && current.items[d[i].stream] == d[i].number
                           && Lookup(prior.items, d[i].stream) == Lookup(seen, StreamOf(d[i]))
    ensures TallyComponent(prior, current, keys) == TallyOf(seen, d)
  {
    if d != [] {
      var n := |d| - 1;
      ComponentTally(prior, current, keys[..n], seen, d[..n]);
    }
  }

  lemma {:induction false} PathMatches(ds: seq<seq<Row>>)
    requires Regular(ds)
    ensures PathOver(ds).totals == Reference(ds)
  {
    if ds != [] {
      var n := |ds| - 1;
      var before, d := ds[..n], ds[n];
      RegularPrefix(ds);
      PathMatches(before);
      var prior, seen := PriorOf(PathOver(before).previous, KeyOf(d).0), LastSeen(Flatten(before));
      ComponentKeys(d);
      ComponentsAreValid(d);
      forall i | 0 <= i < |d|
        ensures d[i].stream in ComponentOf(d).items && ComponentOf(d).items[d[i].stream] == d[i].number
        ensures Lookup(prior.items, d[i].stream) == Lookup(seen, StreamOf(d[i]))
      {
        ComponentItem(d, i);
        assert DeliveryOf(d[i]) == KeyOf(d);
        PriorIsLastSeen(before, KeyOf(d).0, d[i].stream);
      }
      ComponentTally(prior, ComponentOf(d), ComponentOf(d).keys, seen, d);
    }
  }

  lemma {:induction false} PathRunsOver(g: Components, ds: seq<seq<Row>>)
    requires InFileOrder(ds) && ValidItems(g)
    requires forall i :: 0 <= i < |ds| ==> KeyOf(ds[i]) in g.items && g.items[KeyOf(ds[i])] == ComponentOf(ds[i])
    ensures PathRuns(g, Keys(ds)) == PathOver(ds)
  {
    if ds != [] {
      var n := |ds| - 1;
      assert forall i :: 0 <= i < n ==> ds[..n][i] == ds[i];
      PathRunsOver(g, ds[..n]);
      PathRunsLast(g, Keys(ds[..n]), KeyOf(ds[n]));
      assert Keys(ds) == Keys(ds[..n]) + [KeyOf(ds[n])];
    }
  }

  lemma PathRunsLast(g: Components, keys: seq<DeliveryKey>, k: DeliveryKey)
    requires ValidItems(g) && k in g.items && forall i :: 0 <= i < |keys| ==> keys[i] in g.items
    ensures PathRuns(g, keys + [k]) == PathStep(PathRuns(g, keys), k.0, g.items[k])
  {
    assert (keys + [k])[..|keys|] == keys;
  }

  lemma MeasuredOf(ds: seq<seq<Row>>)
    requires Regular(ds)
    ensures Measured(Flatten(ds)) == PathMetrics(|ds|, Reference(ds))
  {
    var rows := Flatten(ds);
    FileOrderCuts(ds);
    GroupsAreDeliveries(ds);
    CollectedLikeGrouped(rows);
    CollectedAreValid(rows);
    SortKeysMembers(Keys(ds));
    AscendingStaySorted(Keys(ds));
    PathRunsOver(CollectRows(rows), ds);
    PathMatches(ds);
  }

  lemma ReconstructedOf(ds: seq<seq<Row>>)
    requires Regular(ds)
    ensures var t := Reference(ds); Reconstructed(Flatten(ds)) == Reconstruction(t.problem, t.duplicates, t.gaps)
  {
    var g := GroupRows(Flatten(ds));
    GroupedAreValid(Flatten(ds));
    FileOrderCuts(ds);
    GroupsAreDeliveries(ds);
    assert ItemsOf(g, g.keys) == ds;
    RebuildMatches(ds);
  }

  /** E2, E3 and E4 count the same problem framesets; E2 and E3 the same stale
      and gap-bearing ones; E3 and E4 the same duplicates and gaps. */
  lemma ReconstructionsAgree(ds: seq<seq<Row>>)
    requires Regular(ds)
    ensures var rows := Flatten(ds);
            var e2, e3, e4 := CountsOf(ProblemRows(rows)), Measured(rows), Reconstructed(rows);
            && e2.delivered == e3.deliveries == |ds|
            && e2.stale == e3.totals.stale && e2.gaps == e3.totals.gapBearing
            && e2.problematic == e3.totals.problem == e4.problem
            && e3.totals.duplicates == e4.duplicates
            && e3.totals.gaps == e4.gaps
  {
    ProblemsMatch(ds);
    MeasuredOf(ds);
    ReconstructedOf(ds);
  }
}
