/** Overlap of scheduler residency and interrupt time with a stage
    (tools/realsense_steady_bench/analyze_capture_residual.py). */
module Overlap {
  import opened Sequences
  import opened Numbers

  datatype Span = Span(begin: int, end: int)

  function Shared(s: Span, begin: int, end: int): nat {
    Max(0, Min(end, s.end) - Max(begin, s.begin))
  }

  /** Time shared with the stage, interval by interval. */
  function Naive(spans: seq<Span>, begin: int, end: int): nat {
    if spans == [] then 0 else Shared(spans[0], begin, end) + Naive(spans[1..], begin, end)
  }

  /** The scan that stops at the first interval after the stage. */
  function Scan(spans: seq<Span>, begin: int, end: int): nat {
    if spans == [] || spans[0].begin >= end then 0
    else Shared(spans[0], begin, end) + Scan(spans[1..], begin, end)
  }

  predicate BeginSorted(spans: seq<Span>) {
    forall i, j :: 0 <= i < j < |spans| ==> spans[i].begin <= spans[j].begin
  }

  function Begins(spans: seq<Span>): (starts: seq<int>)
    ensures |starts| == |spans| && forall i :: 0 <= i < |spans| ==> starts[i] == spans[i].begin
  {
    seq(|spans|, i requires 0 <= i < |spans| => spans[i].begin)
  }

  /** `k` splits the sorted list into the values up to `x` and those above. */
  predicate SplitsAt(starts: seq<int>, x: int, k: nat) {
    && k <= |starts|
    && (forall i :: 0 <= i < k ==> starts[i] <= x)
    && (forall i :: k <= i < |starts| ==> x < starts[i])
  }

  method BisectRight(starts: seq<int>, x: int) returns (k: nat)
    requires Sorted(starts)
    ensures SplitsAt(starts, x, k)
  {
    var high := |starts|;
    k := 0;
    while k < high
      invariant k <= high <= |starts|
      invariant forall i :: 0 <= i < k ==> starts[i] <= x
      invariant forall i :: high <= i < |starts| ==> x < starts[i]
    {
      var middle := (k + high) / 2;
      if x < starts[middle] {
        high := middle;
      } else {
        k := middle + 1;
      }
    }
  }

  /** Number of intervals that begin by `x`. */
  function BegunBy(spans: seq<Span>, x: int): nat {
    if spans == [] || spans[0].begin > x then 0 else 1 + BegunBy(spans[1..], x)
  }

  lemma {:induction false} BegunSplits(spans: seq<Span>, x: int, k: nat)
    requires SplitsAt(Begins(spans), x, k)
    ensures k == BegunBy(spans, x)
  {
    if spans != [] {
      assert Begins(spans)[0] == spans[0].begin;
      if k > 0 {
        assert forall i :: 0 <= i < |spans| - 1 ==> Begins(spans[1..])[i] == Begins(spans)[i + 1];
        BegunSplits(spans[1..], x, k - 1);
      }
    }
  }

  lemma {:induction false} BegunBounds(spans: seq<Span>, x: int)
    ensures BegunBy(spans, x) <= |spans|
    ensures forall i :: 0 <= i < BegunBy(spans, x) ==> spans[i].begin <= x
  {
    if spans != [] && spans[0].begin <= x {
      BegunBounds(spans[1..], x);
      assert forall i :: 1 <= i < |spans| ==> spans[i] == spans[1..][i - 1];
    }
  }

  /** Where the scan starts: at the last interval that begins by `begin`. */
  function StartIndex(spans: seq<Span>, begin: int): (k: nat)
    ensures k <= |spans|
  {
    BegunBounds(spans, begin);
    var k := BegunBy(spans, begin);
    if k == 0 then 0 else k - 1
  }

  method FindStart(spans: seq<Span>, starts: seq<int>, begin: int) returns (index: nat)
    requires starts == Begins(spans) && BeginSorted(spans)
    ensures index == StartIndex(spans, begin)
  {
    var k := BisectRight(starts, begin);
    BegunSplits(spans, begin, k);
    index := if k == 0 then 0 else k - 1;
  }

  function Overlapping(spans: seq<Span>, begin: int, end: int): nat {
    if spans == [] || end <= begin then 0 else Scan(spans[StartIndex(spans, begin)..], begin, end)
  }

  method IntervalOverlap(spans: seq<Span>, starts: seq<int>, begin: int, end: int) returns (total: nat)
    requires starts == Begins(spans) && BeginSorted(spans)
    ensures total == Overlapping(spans, begin, end)
  {
    total := 0;
    if spans == [] || end <= begin {
      return;
    }
    var index := FindStart(spans, starts, begin);
    ghost var expected := Scan(spans[index..], begin, end);
    while index < |spans|
      invariant index <= |spans|
      invariant total + Scan(spans[index..], begin, end) == expected
    {
      if spans[index].begin >= end {
        break;
      }
      assert spans[index..][1..] == spans[index + 1..];
      total := total + Max(0, Min(end, spans[index].end) - Max(begin, spans[index].begin));
      index := index + 1;
    }
  }

  // ----- the scan against the sum

  lemma {:induction false} NothingAfter(spans: seq<Span>, begin: int, end: int)
    requires forall i :: 0 <= i < |spans| ==> spans[i].begin >= end
    ensures Naive(spans, begin, end) == 0
  {
    if spans != [] {
      NothingAfter(spans[1..], begin, end);
    }
  }

  lemma {:induction false} ScanIsNaive(spans: seq<Span>, begin: int, end: int)
    requires BeginSorted(spans)
    ensures Scan(spans, begin, end) == Naive(spans, begin, end)
  {
    if spans != [] {
      if spans[0].begin >= end {
        assert forall i :: 0 <= i < |spans| ==> spans[0].begin <= spans[i].begin;
        NothingAfter(spans, begin, end);
      } else {
        ScanIsNaive(spans[1..], begin, end);
      }
    }
  }

  lemma {:induction false} NaiveSplit(spans: seq<Span>, k: nat, begin: int, end: int)
    requires k <= |spans|
    ensures Naive(spans, begin, end) == Naive(spans[..k], begin, end) + Naive(spans[k..], begin, end)
  {
    if k == 0 {
      assert spans[0..] == spans;
    } else {
      NaiveSplit(spans[1..], k - 1, begin, end);
      assert spans[..k][1..] == spans[1..][..k - 1];
      assert spans[k..] == spans[1..][k - 1..];
    }
  }

  predicate EndBy(spans: seq<Span>, x: int) {
    forall i :: 0 <= i < |spans| ==> spans[i].end <= x
  }

  lemma {:induction false} NothingBefore(spans: seq<Span>, begin: int, end: int)
    requires begin < end && forall i :: 0 <= i < |spans| ==> spans[i].begin <= begin
    ensures Naive(spans, begin, end) == 0 <==> EndBy(spans, begin)
  {
    if spans != [] {
      NothingBefore(spans[1..], begin, end);
      assert spans == [spans[0]] + spans[1..];
      assert EndBy(spans, begin) <==> spans[0].end <= begin && EndBy(spans[1..], begin);
    }
  }

  /** The scan computes the overlap with all intervals exactly when every interval
      before the one it starts at has ended by the start of the stage. */
  lemma OverlapIsExactIff(spans: seq<Span>, begin: int, end: int)
    requires BeginSorted(spans) && begin < end
    ensures Overlapping(spans, begin, end) <= Naive(spans, begin, end)
    ensures Overlapping(spans, begin, end) == Naive(spans, begin, end) <==>
            EndBy(spans[..StartIndex(spans, begin)], begin)
  {
    var k := StartIndex(spans, begin);
    BegunBounds(spans, begin);
    NaiveSplit(spans, k, begin, end);
    ScanIsNaive(spans[k..], begin, end);
    NothingBefore(spans[..k], begin, end);
  }

  /** Sorted intervals that do not overlap. */
  predicate Disjoint(spans: seq<Span>) {
    && (forall i :: 0 <= i < |spans| ==> spans[i].begin <= spans[i].end)
    && (forall i, j :: 0 <= i < j < |spans| ==> spans[i].end <= spans[j].begin)
  }

  lemma DisjointIsSorted(spans: seq<Span>)
    requires Disjoint(spans)
    ensures BeginSorted(spans)
  {
    forall i, j | 0 <= i < j < |spans| ensures spans[i].begin <= spans[j].begin {
      assert spans[i].begin <= spans[i].end;
    }
  }

  /** On intervals that do not overlap the scan is exact. */
  lemma DisjointOverlapIsExact(spans: seq<Span>, begin: int, end: int)
    requires Disjoint(spans)
    ensures BeginSorted(spans)
    ensures Overlapping(spans, begin, end) == Naive(spans, begin, end)
    ensures begin <= end ==> Naive(spans, begin, end) <= end - begin
  {
    DisjointIsSorted(spans);
    if begin < end {
      var k := StartIndex(spans, begin);
      BegunBounds(spans, begin);
      assert EndBy(spans[..k], begin) by {
        forall i | 0 <= i < k ensures spans[..k][i].end <= begin {
          assert spans[i].end <= spans[k].begin;
        }
      }
      OverlapIsExactIff(spans, begin, end);
    } else {
      EmptyStage(spans, begin, end);
    }
    if begin <= end {
      NaiveBound(spans, begin, end);
    }
  }

  lemma {:induction false} EmptyStage(spans: seq<Span>, begin: int, end: int)
    requires end <= begin
    ensures Naive(spans, begin, end) == 0
  {
    if spans != [] {
      EmptyStage(spans[1..], begin, end);
    }
  }

  lemma {:induction false} NaiveBound(spans: seq<Span>, begin: int, end: int)
    requires Disjoint(spans) && begin <= end
    ensures Naive(spans, begin, end) <= end - begin
    ensures spans != [] ==> Naive(spans, begin, end) <= Max(0, end - Max(begin, spans[0].begin))
    decreases |spans|
  {
    if spans != [] {
      var rest := spans[1..];
      NaiveBound(rest, begin, end);
      if rest != [] {
        assert spans[0].end <= spans[1].begin && rest[0] == spans[1];
        assert spans[0].begin <= spans[0].end;
      }
    }
  }

  /** An interval nested in an earlier one hides it from the scan. */
  lemma NestedIntervalHidesOuter()
    ensures var spans := [Span(0, 100), Span(10, 20)];
            BeginSorted(spans) && Overlapping(spans, 50, 60) == 0 && Naive(spans, 50, 60) == 10
  {
    var spans := [Span(0, 100), Span(10, 20)];
    var last := [Span(10, 20)];
    assert spans[1..] == last && last[1..] == [] && last == spans[1..];
    assert BegunBy(last, 50) == 1;
    assert StartIndex(spans, 50) == 1;
    assert Scan([], 50, 60) == 0 && Naive([], 50, 60) == 0;
    assert Scan(last, 50, 60) == 0 && Naive(last, 50, 60) == 0;
  }
}
