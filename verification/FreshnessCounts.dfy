/** What E2, E3 and E4 count on any event file, whether or not numbers fall back. */
module FreshnessCounts {
  import opened Wrappers
  import opened Numbers
  import opened Sequences
  import opened OrderedDict
  import opened Freshness
  import opened FreshnessMeaning
  import opened FreshnessRebuild
  import opened FreshnessAgreement

  // ----- E4: against the last earlier number of the stream

  /** Row `j` is the last row of its stream before row `i`. */
  predicate IsPriorRow(rows: seq<Row>, j: int, i: int) {
    && 0 <= j < i < |rows| && StreamOf(rows[j]) == StreamOf(rows[i])
    && forall k :: j < k < i ==> StreamOf(rows[k]) != StreamOf(rows[i])
  }

  /** The number is at most the last earlier one of the stream. */
  ghost predicate FallsBack(rows: seq<Row>, i: int) {
    exists j :: IsPriorRow(rows, j, i) && rows[i].number <= rows[j].number
  }

  /** Numbers were left out since the last earlier one of the stream. */
  ghost predicate LeavesOut(rows: seq<Row>, i: int) {
    exists j :: IsPriorRow(rows, j, i) && rows[i].number > rows[j].number + 1
  }

  /** The number of the last row of the stream. */
  function LastNumber(rows: seq<Row>, key: StreamKey): Option<nat> {
    if |rows| == 0 then None
    else
      var n := |rows| - 1;
      if StreamOf(rows[n]) == key then Some(rows[n].number) else LastNumber(rows[..n], key)
  }

  function LeftOut(prior: Option<nat>, number: nat): nat {
    if prior.Some? && number > prior.value then number - prior.value - 1 else 0
  }

  ghost function RepeatPositions(rows: seq<Row>): set<nat> {
    set i | 0 <= i < |rows| && FallsBack(rows, i)
  }

  /** How many numbers were left out, over all rows. */
  function LeftOutNumbers(rows: seq<Row>): nat {
    if |rows| == 0 then 0
    else
      var n := |rows| - 1;
      LeftOutNumbers(rows[..n]) + LeftOut(LastNumber(rows[..n], StreamOf(rows[n])), rows[n].number)
  }

  ghost function ProblemDeliveries(rows: seq<Row>): set<DeliveryKey> {
    set i | 0 <= i < |rows| && (FallsBack(rows, i) || LeavesOut(rows, i)) :: DeliveryOf(rows[i])
  }

  /** The last row of the stream, if there is one. */
  lemma {:induction false} LastNumberRow(rows: seq<Row>, key: StreamKey) returns (j: int)
    ensures LastNumber(rows, key) == Lookup(LastSeen(rows), key)
    ensures j < |rows| && forall k :: 0 <= k < |rows| && k > j ==> StreamOf(rows[k]) != key
    ensures LastNumber(rows, key).None? ==> j == -1
    ensures LastNumber(rows, key).Some? ==>
              0 <= j && StreamOf(rows[j]) == key && rows[j].number == LastNumber(rows, key).value
  {
    j := -1;
    if |rows| > 0 {
      var n := |rows| - 1;
      if StreamOf(rows[n]) == key {
        j := n;
      } else {
        j := LastNumberRow(rows[..n], key);
      }
    }
  }

  lemma EarlierPriors(pre: seq<Row>, r: Row, j: int, i: int)
    requires i < |pre|
    ensures IsPriorRow(pre + [r], j, i) == IsPriorRow(pre, j, i)
  {
    assert forall k :: 0 <= k < |pre| ==> (pre + [r])[k] == pre[k];
  }

  lemma PriorIsUnique(rows: seq<Row>, j: int, k: int, i: int)
    requires IsPriorRow(rows, j, i) && IsPriorRow(rows, k, i)
    ensures j == k
  {
  }

  /** The last number decides about the next row. */
  lemma LastRowJudged(pre: seq<Row>, r: Row)
    ensures var prior := Lookup(LastSeen(pre), StreamOf(r));
            && LastNumber(pre, StreamOf(r)) == prior
            && (FallsBack(pre + [r], |pre|) <==> prior.Some? && r.number <= prior.value)
            && (LeavesOut(pre + [r], |pre|) <==> prior.Some? && r.number > prior.value + 1)
  {
    var rows, n := pre + [r], |pre|;
    var j := LastNumberRow(pre, StreamOf(r));
    assert forall k :: 0 <= k < n ==> rows[k] == pre[k];
    if j >= 0 {
      assert IsPriorRow(rows, j, n);
      forall k | IsPriorRow(rows, k, n) ensures k == j {
        PriorIsUnique(rows, k, j, n);
      }
    }
  }

  lemma EarlierRowsJudged(pre: seq<Row>, r: Row, i: nat)
    requires i < |pre|
    ensures FallsBack(pre + [r], i) == FallsBack(pre, i) && LeavesOut(pre + [r], i) == LeavesOut(pre, i)
  {
    forall j ensures IsPriorRow(pre + [r], j, i) == IsPriorRow(pre, j, i) {
      EarlierPriors(pre, r, j, i);
    }
    assert forall j :: 0 <= j < |pre| ==> (pre + [r])[j] == pre[j];
  }

  lemma RepeatsNext(pre: seq<Row>, r: Row)
    ensures RepeatPositions(pre + [r]) == RepeatPositions(pre) + (if FallsBack(pre + [r], |pre|) then {|pre|} else {})
    ensures |RepeatPositions(pre + [r])| == |RepeatPositions(pre)| + One(FallsBack(pre + [r], |pre|))
  {
    forall i | 0 <= i < |pre| ensures FallsBack(pre + [r], i) == FallsBack(pre, i) {
      EarlierRowsJudged(pre, r, i);
    }
    assert RepeatPositions(pre + [r])
        == RepeatPositions(pre) + (if FallsBack(pre + [r], |pre|) then {|pre|} else {});
  }

  lemma LeftOutNext(pre: seq<Row>, r: Row)
    ensures LeftOutNumbers(pre + [r]) == LeftOutNumbers(pre) + LeftOut(LastNumber(pre, StreamOf(r)), r.number)
  {
    assert (pre + [r])[..|pre|] == pre;
  }

  lemma ProblemsNext(pre: seq<Row>, r: Row)
    ensures ProblemDeliveries(pre + [r])
            == Mark(ProblemDeliveries(pre), DeliveryOf(r), FallsBack(pre + [r], |pre|) || LeavesOut(pre + [r], |pre|))
  {
    var rows := pre + [r];
    forall i | 0 <= i < |pre|
      ensures rows[i] == pre[i] && FallsBack(rows, i) == FallsBack(pre, i) && LeavesOut(rows, i) == LeavesOut(pre, i)
    {
      EarlierRowsJudged(pre, r, i);
    }
    assert rows[|pre|] == r;
  }

  /** What the judgement of one more row adds. */
  lemma RowCounts(rows: seq<Row>, r: Row, y: Tally)
    ensures var z := JudgeLast(y, Lookup(LastSeen(rows), StreamOf(r)), r.number);
            && |RepeatPositions(rows + [r])| + y.duplicates == |RepeatPositions(rows)| + z.duplicates
            && LeftOutNumbers(rows + [r]) + y.gaps == LeftOutNumbers(rows) + z.gaps
            && exists b :: (z.stale || z.gap) == (y.stale || y.gap || b)
                           && ProblemDeliveries(rows + [r]) == Mark(ProblemDeliveries(rows), DeliveryOf(r), b)
  {
    LastRowJudged(rows, r);
    RepeatsNext(rows, r);
    LeftOutNext(rows, r);
    ProblemsNext(rows, r);
    var b := FallsBack(rows + [r], |rows|) || LeavesOut(rows + [r], |rows|);
    var z := JudgeLast(y, Lookup(LastSeen(rows), StreamOf(r)), r.number);
    assert (z.stale || z.gap) == (y.stale || y.gap || b);
  }

  lemma {:induction false} TallyCounts(before: seq<Row>, d: seq<Row>, key: DeliveryKey)
    requires SharesKey(d, key)
    ensures var y := RebuildRows(LastSeen(before), d).tally;
            && |RepeatPositions(before + d)| == |RepeatPositions(before)| + y.duplicates
            && LeftOutNumbers(before + d) == LeftOutNumbers(before) + y.gaps
            && ProblemDeliveries(before + d) == Mark(ProblemDeliveries(before), key, y.stale || y.gap)
  {
    if d == [] {
      assert before + d == before;
    } else {
      var n := |d| - 1;
      var pre, r := d[..n], d[n];
      assert before + d == (before + pre) + [r];
      TallyCounts(before, pre, key);
      RebuildSeesLast(before, pre);
      RowCounts(before + pre, r, RebuildRows(LastSeen(before), pre).tally);
    }
  }

  lemma {:induction false} RebuildKeepsLast(ds: seq<seq<Row>>)
    ensures RebuildGroups(ds).previous == LastSeen(Flatten(ds))
  {
    if |ds| > 0 {
      var n := |ds| - 1;
      RebuildKeepsLast(ds[..n]);
      RebuildSeesLast(Flatten(ds[..n]), ds[n]);
    }
  }

  lemma {:induction false} ProblemsAreOfKeys(ds: seq<seq<Row>>)
    requires IsCut(ds)
    ensures forall d :: d in ProblemDeliveries(Flatten(ds)) ==> d in Keys(ds)
  {
    forall i | 0 <= i < |Flatten(ds)| ensures DeliveryOf(Flatten(ds)[i]) in Keys(ds) {
      var k, j := FlattenRow(ds, i);
      assert DeliveryOf(ds[k][j]) == KeyOf(ds[k]) == Keys(ds)[k];
    }
  }

  lemma {:induction false} RebuildCounts(ds: seq<seq<Row>>)
    requires IsCut(ds)
    ensures var t, rows := RebuildGroups(ds).totals, Flatten(ds);
            && t.duplicates == |RepeatPositions(rows)| && t.gaps == LeftOutNumbers(rows)
            && t.problem == |ProblemDeliveries(rows)|
  {
    if |ds| > 0 {
      var n := |ds| - 1;
      var before, d := Flatten(ds[..n]), ds[n];
      RebuildCounts(ds[..n]);
      RebuildKeepsLast(ds[..n]);
      TallyCounts(before, d, KeyOf(d));
      ProblemsAreOfKeys(ds[..n]);
      NewKey(ds);
      var y := RebuildRows(LastSeen(before), d).tally;
      MarkCount(ProblemDeliveries(before), KeyOf(d), y.stale || y.gap);
    }
  }

  /** Rows of one delivery stand together, so the file can be cut into its deliveries. */
  lemma {:induction false} ContiguousCuts(rows: seq<Row>) returns (ds: seq<seq<Row>>)
    requires Contiguous(rows)
    ensures IsCut(ds) && Flatten(ds) == rows && Elems(Keys(ds)) == Deliveries(rows)
    ensures rows != [] ==> ds != [] && KeyOf(ds[|ds| - 1]) == DeliveryOf(rows[|rows| - 1])
  {
    ds := [];
    if |rows| > 0 {
      var n := |rows| - 1;
      var before := ContiguousCuts(rows[..n]);
      if n > 0 && DeliveryOf(rows[n]) == DeliveryOf(rows[n - 1]) {
        ds := ExtendCut(before, rows[n]);
      } else {
        ds := before + [[rows[n]]];
        NewCut(before, rows[n]);
      }
    }
  }

  lemma NewCut(ds: seq<seq<Row>>, r: Row)
    requires IsCut(ds) && DeliveryOf(r) !in Keys(ds)
    ensures var more := ds + [[r]];
            IsCut(more) && Flatten(more) == Flatten(ds) + [r] && Elems(Keys(more)) == Elems(Keys(ds)) + {DeliveryOf(r)}
  {
    var more := ds + [[r]];
    FlattenLast(ds, [r]);
    forall i | 0 <= i < |ds| ensures more[i] == ds[i] && KeyOf(ds[i]) != DeliveryOf(r) {
      assert Keys(ds)[i] == KeyOf(ds[i]);
    }
    assert KeyOf(more[|ds|]) == DeliveryOf(r);
    LastKey(more);
    assert more[..|ds|] == ds;
  }

  lemma ExtendCut(ds: seq<seq<Row>>, r: Row) returns (more: seq<seq<Row>>)
    requires IsCut(ds) && ds != [] && KeyOf(ds[|ds| - 1]) == DeliveryOf(r)
    ensures IsCut(more) && Flatten(more) == Flatten(ds) + [r] && Elems(Keys(more)) == Elems(Keys(ds))
    ensures more != [] && KeyOf(more[|more| - 1]) == DeliveryOf(r)
  {
    var n := |ds| - 1;
    var last := ds[n] + [r];
    more := ds[..n] + [last];
    FlattenLast(ds[..n], last);
    assert Flatten(ds) == Flatten(ds[..n]) + ds[n];
    assert last[0] == ds[n][0];
    assert forall i :: 0 <= i < n ==> more[i] == ds[i];
    assert Keys(more) == Keys(ds);
  }

  /** On a file whose deliveries stand together E4 counts the rows that fall back
      to or below the last number of their stream, the numbers left out since
      that one, and the deliveries with such a row. */
  lemma ReconstructionMeaning(rows: seq<Row>)
    requires Contiguous(rows)
    ensures Reconstructed(rows)
            == Reconstruction(|ProblemDeliveries(rows)|, |RepeatPositions(rows)|, LeftOutNumbers(rows))
  {
    var ds := ContiguousCuts(rows);
    var g := GroupRows(rows);
    GroupedAreValid(rows);
    GroupsAreDeliveries(ds);
    assert ItemsOf(g, g.keys) == ds;
    RebuildCounts(ds);
  }

  // ----- E2: against the highest earlier number of the stream

  /** The stream was seen before, and numbers were left out above all of its earlier ones. */
  predicate JumpsOver(rows: seq<Row>, i: int) {
    && 0 <= i < |rows|
    && (exists j :: 0 <= j < i && StreamOf(rows[j]) == StreamOf(rows[i]))
    && forall j :: 0 <= j < i && StreamOf(rows[j]) == StreamOf(rows[i]) ==> rows[j].number + 1 < rows[i].number
  }

  function GapDeliveries(rows: seq<Row>): set<DeliveryKey> {
    set i | 0 <= i < |rows| && JumpsOver(rows, i) :: DeliveryOf(rows[i])
  }

  lemma GapsNext(pre: seq<Row>, r: Row)
    ensures GapDeliveries(pre + [r]) == Mark(GapDeliveries(pre), DeliveryOf(r), JumpsOver(pre + [r], |pre|))
  {
    var rows := pre + [r];
    assert forall i :: 0 <= i < |pre| ==> rows[i] == pre[i];
    assert rows[|pre|] == r;
    assert forall i :: 0 <= i < |pre| ==> JumpsOver(rows, i) == JumpsOver(pre, i);
  }

  lemma {:induction false} SeenMeansNumbered(rows: seq<Row>, key: StreamKey)
    ensures FreshnessMeaning.Numbers(rows, key) != [] <==> exists j :: 0 <= j < |rows| && StreamOf(rows[j]) == key
  {
    if |rows| > 0 {
      var n := |rows| - 1;
      SeenMeansNumbered(rows[..n], key);
      assert forall j :: 0 <= j < n ==> rows[..n][j] == rows[j];
      if j :| 0 <= j < n && StreamOf(rows[..n][j]) == key {
        assert StreamOf(rows[j]) == key;
      }
    }
  }

  /** The running maximum decides whether the next row jumps. */
  lemma HighestJumps(pre: seq<Row>, r: Row)
    ensures var p, key := ProblemRows(pre), StreamOf(r);
            JumpsOver(pre + [r], |pre|) <==> key in p.highest && r.number > p.highest[key] + 1
  {
    var rows, key := pre + [r], StreamOf(r);
    assert forall j :: 0 <= j < |pre| ==> rows[j] == pre[j];
    SeenMeansNumbered(pre, key);
    ProblemHighest(pre, key);
    WorkingHighest(FreshnessMeaning.Numbers(pre, key));
    if r.number > 0 {
      HighestBounds(pre, key, r.number - 1);
    }
  }

  /** E2 marks as gaps exactly the deliveries with a row that jumps over numbers. */
  lemma {:induction false} GapsMeanJumps(rows: seq<Row>)
    ensures ProblemRows(rows).gaps == GapDeliveries(rows)
  {
    if |rows| > 0 {
      var n := |rows| - 1;
      var pre, r := rows[..n], rows[n];
      assert rows == pre + [r];
      GapsMeanJumps(pre);
      HighestJumps(pre, r);
      GapsNext(pre, r);
    }
  }

  /** E2's counts, for any rows. */
  lemma ProblemCountsMeaning(rows: seq<Row>)
    ensures CountsOf(ProblemRows(rows))
            == ProblemCounts(|Deliveries(rows)|, |Repeating(rows)|, |GapDeliveries(rows)|,
                             |Repeating(rows) + GapDeliveries(rows)|)
  {
    StaleMeansRepeating(rows);
    GapsMeanJumps(rows);
  }
}
