/** When a burst threshold is chosen and which periods are stable, in terms of the
    distances between releases alone. */
module ThreadMeaning {
  import opened Wrappers
  import opened Sequences
  import opened LogicalJobs
  import opened ThreadModel

  // ----- the positive gaps

  lemma {:induction false} PositiveAreGaps(gaps: seq<int>, x: int)
    ensures x in Positive(gaps) <==> x > 0 && x in gaps
  {
    if |gaps| > 0 {
      var n := |gaps| - 1;
      PositiveAreGaps(gaps[..n], x);
      assert gaps == gaps[..n] + [gaps[n]];
    }
  }

  lemma SortedGapMembers(gaps: seq<int>, x: int)
    ensures x in Sort(Positive(gaps)) <==> x > 0 && x in gaps
  {
    PositiveAreGaps(gaps, x);
    PositiveGaps(gaps);
    assert x in Sort(Positive(gaps)) <==> x in multiset(Sort(Positive(gaps)));
    assert x in Positive(gaps) <==> x in multiset(Positive(gaps));
  }

  lemma {:induction false} CountAntitone(s: seq<int>, x: int, y: int)
    requires x <= y
    ensures CountFrom(s, y) <= CountFrom(s, x) <= |s|
  {
    if |s| > 0 {
      CountAntitone(s[..|s| - 1], x, y);
    }
  }

  /** In a sorted list the element at `r` tells how many reach a value. */
  lemma {:induction false} CountAtRank(p: seq<int>, r: nat, x: int)
    requires Sorted(p) && r < |p|
    ensures p[r] >= x ==> CountFrom(p, x) >= |p| - r
    ensures p[r] < x ==> CountFrom(p, x) < |p| - r
  {
    var n := |p| - 1;
    if r < n {
      assert p[r] <= p[n];
      CountAtRank(p[..n], r, x);
    } else {
      CountAtLast(p, x);
    }
  }

  lemma {:induction false} CountAtLast(p: seq<int>, x: int)
    requires Sorted(p) && p != []
    ensures p[|p| - 1] < x ==> CountFrom(p, x) == 0
    ensures p[|p| - 1] >= x ==> CountFrom(p, x) >= 1
  {
    var n := |p| - 1;
    if n > 0 {
      assert p[n - 1] <= p[n];
      CountAtLast(p[..n], x);
    }
  }

  /** How many gaps there are, and how many reach a positive value. */
  lemma SortedGapCounts(gaps: seq<int>, x: int)
    requires x > 0
    ensures CountFrom(Sort(Positive(gaps)), x) == CountFrom(gaps, x)
    ensures |Sort(Positive(gaps))| == CountFrom(gaps, 1)
  {
    var p := Sort(Positive(gaps));
    PositiveGaps(gaps);
    CountSort(Positive(gaps), x);
    CountPositive(gaps, x);
    CountSort(Positive(gaps), 1);
    CountPositive(gaps, 1);
    if |p| > 0 {
      CountAtRank(p, 0, 1);
      CountAntitone(p, 1, 1);
    }
  }

  // ----- the threshold

  /** Two positive gaps with none between them. */
  predicate IsStep(gaps: seq<int>, lower: int, upper: int) {
    && 0 < lower < upper && lower in gaps && upper in gaps
    && forall i :: 0 <= i < |gaps| ==> gaps[i] <= lower || upper <= gaps[i]
  }

  /** The step has the larger ratio, or the same one and is not higher up. */
  predicate Leads(lower: int, upper: int, l: int, u: int) {
    upper * l > u * lower || (upper * l == u * lower && lower <= l)
  }

  /** No other step has a larger ratio, and those with the same one are higher up. */
  ghost predicate IsSteepestStep(gaps: seq<int>, lower: int, upper: int) {
    && IsStep(gaps, lower, upper)
    && forall l, u :: IsStep(gaps, l, u) ==> Leads(lower, upper, l, u)
  }

  /** Of at least four positive gaps, the steepest step is at least fourfold, with
      two gaps or more above it that are between a twentieth and nine tenths of all. */
  ghost predicate Separates(gaps: seq<int>, lower: int, upper: int) {
    var all, above := CountFrom(gaps, 1), CountFrom(gaps, upper);
    && all >= 4 && IsSteepestStep(gaps, lower, upper) && upper >= 4 * lower
    && above >= 2 && all <= 20 * above && 10 * above <= 9 * all
  }

  predicate RisesAt(p: seq<int>, i: int) { 0 <= i && i + 1 < |p| && p[i] < p[i + 1] }

  lemma {:induction false} LastOf(p: seq<int>, x: int) returns (i: nat)
    requires x in p
    ensures i < |p| && p[i] == x && forall j :: i < j < |p| ==> p[j] != x
  {
    var n := |p| - 1;
    if p[n] == x {
      i := n;
    } else {
      assert p == p[..n] + [p[n]];
      i := LastOf(p[..n], x);
    }
  }

  lemma StepHasIndex(gaps: seq<int>, lower: int, upper: int) returns (i: nat)
    requires IsStep(gaps, lower, upper)
    ensures var p := Sort(Positive(gaps)); RisesAt(p, i) && p[i] == lower && p[i + 1] == upper
  {
    var p := Sort(Positive(gaps));
    PositiveGaps(gaps);
    SortedGapMembers(gaps, lower);
    SortedGapMembers(gaps, upper);
    i := LastOf(p, lower);
    var j :| 0 <= j < |p| && p[j] == upper;
    assert i < j;
    assert p[i] <= p[i + 1] <= p[j];
    NothingBetween(gaps, lower, upper, p[i + 1]);
  }

  lemma NothingBetween(gaps: seq<int>, lower: int, upper: int, x: int)
    requires IsStep(gaps, lower, upper) && x in Sort(Positive(gaps))
    ensures x <= lower || upper <= x
  {
    SortedGapMembers(gaps, x);
    var k :| 0 <= k < |gaps| && gaps[k] == x;
  }

  lemma IndexIsStep(gaps: seq<int>, i: int)
    requires RisesAt(Sort(Positive(gaps)), i)
    ensures var p := Sort(Positive(gaps)); IsStep(gaps, p[i], p[i + 1])
  {
    var p := Sort(Positive(gaps));
    PositiveGaps(gaps);
    SortedGapMembers(gaps, p[i]);
    SortedGapMembers(gaps, p[i + 1]);
    forall k | 0 <= k < |gaps| ensures gaps[k] <= p[i] || p[i + 1] <= gaps[k] {
      SortedGapMembers(gaps, gaps[k]);
      if gaps[k] > 0 {
        var j :| 0 <= j < |p| && p[j] == gaps[k];
        assert j <= i || i + 1 <= j;
      }
    }
  }

  lemma SteepestIsUnique(gaps: seq<int>, a: Threshold, b: Threshold)
    requires IsSteepestStep(gaps, a.lower, a.upper) && IsSteepestStep(gaps, b.lower, b.upper)
    ensures a == b
  {
    assert a.upper * b.lower == b.upper * a.lower;
    SameFactor(a.upper, b.upper, a.lower);
  }

  lemma SameFactor(a: int, b: int, c: int)
    requires c > 0 && a * c == b * c
    ensures a == b
  {
    assert (a - b) * c == 0;
  }

  lemma BestLeads(p: seq<int>, best: int, i: nat)
    requires AllPositive(p) && Sorted(p) && p != [] && best == Steepest(p, |p| - 1) && RisesAt(p, i)
    ensures best >= 0 && Leads(p[best], p[best + 1], p[i], p[i + 1])
  {
    SteepestMeaning(p, |p| - 1);
    if 0 <= i < best {
      assert Steeper(p, best, i);
    } else if i > best >= 0 {
      assert !Steeper(p, i, best);
      assert p[best] <= p[i];
    }
  }

  lemma StepAgainstBest(gaps: seq<int>, best: int, l: int, u: int)
    requires var p := Sort(Positive(gaps)); p != [] && best == Steepest(p, |p| - 1) && IsStep(gaps, l, u)
    ensures best >= 0 && var p := Sort(Positive(gaps)); Leads(p[best], p[best + 1], l, u)
  {
    PositiveGaps(gaps);
    var i := StepHasIndex(gaps, l, u);
    BestLeads(Sort(Positive(gaps)), best, i);
  }

  lemma BestRises(p: seq<int>, best: int)
    requires AllPositive(p) && p != [] && best == Steepest(p, |p| - 1) >= 0
    ensures RisesAt(p, best)
  {
    SteepestMeaning(p, |p| - 1);
  }

  lemma BestIsSteepest(gaps: seq<int>, best: int)
    requires var p := Sort(Positive(gaps)); p != [] && best == Steepest(p, |p| - 1)
    ensures var p := Sort(Positive(gaps));
            if best >= 0 then IsSteepestStep(gaps, p[best], p[best + 1]) else forall l, u :: !IsStep(gaps, l, u)
  {
    var p := Sort(Positive(gaps));
    PositiveGaps(gaps);
    if best >= 0 {
      BestRises(p, best);
      IndexIsStep(gaps, best);
    }
    forall l, u | IsStep(gaps, l, u) ensures best >= 0 && Leads(p[best], p[best + 1], l, u) {
      StepAgainstBest(gaps, best, l, u);
    }
  }

  lemma ChosenThreshold(gaps: seq<int>, best: nat, t: Threshold)
    requires var p := Sort(Positive(gaps));
             |p| >= 4 && best == Steepest(p, |p| - 1) && IsSteepestStep(gaps, p[best], p[best + 1])
    ensures var p := Sort(Positive(gaps)); ThresholdAt(p, best) == Some(t) <==> Separates(gaps, t.lower, t.upper)
  {
    var p := Sort(Positive(gaps));
    SortedGapCounts(gaps, 1);
    UpperCount(gaps, best);
    if IsSteepestStep(gaps, t.lower, t.upper) {
      SteepestIsUnique(gaps, t, Threshold(p[best], p[best + 1]));
    }
  }

  /** A threshold is chosen between two gaps exactly when they separate two clusters. */
  lemma ThresholdExactly(activations: seq<Activation>, t: Threshold)
    ensures var ordered := ByRelease(activations);
            ThresholdOf(ordered) == Some(t) <==> Separates(Gaps(ordered), t.lower, t.upper)
  {
    var gaps := Gaps(ByRelease(activations));
    var p := Sort(Positive(gaps));
    SortedGapCounts(gaps, 1);
    if |p| >= 4 {
      var best := Steepest(p, |p| - 1);
      BestIsSteepest(gaps, best);
      if best >= 0 {
        ChosenThreshold(gaps, best, t);
      }
    }
  }

  // ----- stable periods

  /** The distances between the starts of neighbouring jobs. */
  function StartGaps(jobs: seq<Job>): seq<int> { Gaps(Firsts(jobs)) }

  lemma {:induction false} FirstsMeaning(jobs: seq<Job>)
    requires forall k :: 0 <= k < |jobs| ==> jobs[k] != []
    ensures |Firsts(jobs)| == |jobs| && forall k :: 0 <= k < |jobs| ==> Firsts(jobs)[k] == jobs[k][0]
  {
    if |jobs| > 0 {
      FirstsMeaning(jobs[..|jobs| - 1]);
    }
  }

  lemma {:induction false} StartGapsMeaning(jobs: seq<Job>)
    requires forall k :: 0 <= k < |jobs| ==> jobs[k] != []
    ensures |StartGaps(jobs)| == if jobs == [] then 0 else |jobs| - 1
    ensures forall k :: 0 <= k < |StartGaps(jobs)| ==>
                          StartGaps(jobs)[k] == jobs[k + 1][0].release - jobs[k][0].release
  {
    FirstsMeaning(jobs);
    GapsMeaning(Firsts(jobs));
  }

  /** Of the positive gaps, `v` is the one with `r` gaps before it in ascending order. */
  predicate IsRanked(gaps: seq<int>, r: int, v: int) {
    && v > 0 && v in gaps
    && CountFrom(gaps, v + 1) < CountFrom(gaps, 1) - r <= CountFrom(gaps, v)
  }

  /** The one or two gaps in the middle. */
  predicate AreMiddle(gaps: seq<int>, low: int, high: int) {
    var n := CountFrom(gaps, 1);
    IsRanked(gaps, (n - 1) / 2, low) && IsRanked(gaps, n / 2, high)
  }

  /** Twice the median of the positive gaps. */
  ghost predicate IsDoubleMedian(gaps: seq<int>, d: int) {
    exists low, high :: AreMiddle(gaps, low, high) && d == low + high
  }

  /** A positive gap between 80 and 120 percent of the median. */
  predicate IsStable(x: int, doubleMedian: int) {
    x > 0 && 80 * doubleMedian <= 100 * (2 * x) <= 120 * doubleMedian
  }

  function StablePositions(gaps: seq<int>, doubleMedian: int): set<int> {
    set k | 0 <= k < |gaps| && IsStable(gaps[k], doubleMedian)
  }

  lemma RankIsUnique(gaps: seq<int>, r: int, a: int, b: int)
    requires IsRanked(gaps, r, a) && IsRanked(gaps, r, b)
    ensures a == b
  {
    if a < b {
      CountAntitone(gaps, a + 1, b);
    } else if b < a {
      CountAntitone(gaps, b + 1, a);
    }
  }

  lemma SortedIsRanked(gaps: seq<int>, r: nat)
    requires r < |Sort(Positive(gaps))|
    ensures IsRanked(gaps, r, Sort(Positive(gaps))[r])
  {
    var p := Sort(Positive(gaps));
    PositiveGaps(gaps);
    assert p[r] in p;
    SortedGapMembers(gaps, p[r]);
    CountAtRank(p, r, p[r]);
    CountAtRank(p, r, p[r] + 1);
    SortedGapCounts(gaps, p[r]);
    SortedGapCounts(gaps, p[r] + 1);
  }

  lemma MiddleIsUnique(gaps: seq<int>, a: int, b: int, low: int, high: int)
    requires AreMiddle(gaps, a, b) && AreMiddle(gaps, low, high)
    ensures a == low && b == high
  {
    var n := CountFrom(gaps, 1);
    RankIsUnique(gaps, (n - 1) / 2, a, low);
    RankIsUnique(gaps, n / 2, b, high);
  }

  lemma {:induction false} DoubleMedianOf(s: seq<int>)
    requires s != []
    ensures var p, n := Sort(s), |s|;
            |p| == n && DoubleMedian(s) == p[(n - 1) / 2] + p[n / 2]
  {
    SortSorts(s);
    SameElems(Sort(s), s);
  }

  lemma {:induction false} SortedMiddle(gaps: seq<int>) returns (low: int, high: int)
    requires Positive(gaps) != []
    ensures AreMiddle(gaps, low, high) && low + high == DoubleMedian(Positive(gaps))
  {
    var p, n := Sort(Positive(gaps)), |Positive(gaps)|;
    DoubleMedianOf(Positive(gaps));
    SortedGapCounts(gaps, 1);
    low, high := p[(n - 1) / 2], p[n / 2];
    SortedIsRanked(gaps, (n - 1) / 2);
    SortedIsRanked(gaps, n / 2);
  }

  lemma MedianMeaning(gaps: seq<int>)
    requires Positive(gaps) != []
    ensures forall d :: IsDoubleMedian(gaps, d) <==> d == DoubleMedian(Positive(gaps))
  {
    var a, b := SortedMiddle(gaps);
    forall d | IsDoubleMedian(gaps, d) ensures d == a + b {
      var low, high :| AreMiddle(gaps, low, high) && d == low + high;
      MiddleIsUnique(gaps, a, b, low, high);
    }
  }

  lemma NearIsStable(x: int, d: int)
    requires x > 0
    ensures Near(x, d) <==> IsStable(x, d)
  {
  }

  lemma StableNext(pre: seq<int>, x: int, d: int)
    ensures StablePositions(pre + [x], d) == StablePositions(pre, d) + (if IsStable(x, d) then {|pre|} else {})
    ensures |StablePositions(pre + [x], d)| == |StablePositions(pre, d)| + (if IsStable(x, d) then 1 else 0)
  {
    var gaps := pre + [x];
    assert forall k :: 0 <= k < |pre| ==> gaps[k] == pre[k];
    assert StablePositions(gaps, d) == StablePositions(pre, d) + (if IsStable(x, d) then {|pre|} else {});
  }

  lemma {:induction false} KeepNext(pre: seq<int>, x: int, d: int)
    ensures Keep(pre + [x], d) == Keep(pre, d) + (if Near(x, d) then [x] else [])
  {
    assert (pre + [x])[..|pre|] == pre;
  }

  lemma {:induction false} PositiveNext(pre: seq<int>, x: int)
    ensures Positive(pre + [x]) == Positive(pre) + (if x > 0 then [x] else [])
  {
    assert (pre + [x])[..|pre|] == pre;
  }

  /** One more gap is kept exactly when it is stable. */
  lemma {:induction false} KeptNext(pre: seq<int>, x: int, d: int)
    ensures Keep(Positive(pre + [x]), d) == Keep(Positive(pre), d) + (if IsStable(x, d) then [x] else [])
  {
    PositiveNext(pre, x);
    if x > 0 {
      KeepNext(Positive(pre), x, d);
      NearIsStable(x, d);
    } else {
      assert Positive(pre) + [] == Positive(pre);
    }
  }

  lemma {:induction false} KeepMeaning(gaps: seq<int>, d: int)
    ensures |Keep(Positive(gaps), d)| == |StablePositions(gaps, d)|
    ensures forall x :: x in Keep(Positive(gaps), d) <==> x in gaps && IsStable(x, d)
  {
    if |gaps| > 0 {
      var n := |gaps| - 1;
      var pre, x := gaps[..n], gaps[n];
      assert gaps == pre + [x];
      KeepMeaning(pre, d);
      KeptNext(pre, x, d);
      StableNext(pre, x, d);
    } else {
      assert StablePositions(gaps, d) == {};
    }
  }

  /** The stable periods found are those of the median `d`. */
  ghost predicate IsStableResult(gaps: seq<int>, d: int, result: Option<seq<int>>) {
    var n, count := CountFrom(gaps, 1), |StablePositions(gaps, d)|;
    && (result.Some? <==> count >= 2 && 2 * count >= n)
    && (result.Some? ==> forall x :: x in result.value <==> x in gaps && IsStable(x, d))
  }

  /** A thread has stable periods exactly when its jobs have at least two positive
      distances and at least two and half of them are within a fifth of their
      median, and these are its stable periods. */
  lemma {:induction false} StablePeriodsMeaning(jobs: seq<Job>)
    ensures var gaps := StartGaps(jobs);
            if CountFrom(gaps, 1) < 2 then StablePeriods(jobs) == None
            else && (exists d :: IsDoubleMedian(gaps, d))
                 && forall d :: IsDoubleMedian(gaps, d) ==> IsStableResult(gaps, d, StablePeriods(jobs))
  {
    var gaps := StartGaps(jobs);
    var periods := Positive(gaps);
    SortedGapCounts(gaps, 1);
    if |periods| > 0 {
      DoubleMedianOf(periods);
    }
    if |periods| >= 2 {
      MedianMeaning(gaps);
      assert IsDoubleMedian(gaps, DoubleMedian(periods));
      KeptAreStable(gaps, StablePeriods(jobs));
    }
  }

  lemma {:induction false} KeptAreStable(gaps: seq<int>, result: Option<seq<int>>)
    requires var periods := Positive(gaps);
             && |periods| >= 2
             && var stable := Keep(periods, DoubleMedian(periods));
                result == if |stable| < 2 || 2 * |stable| < |periods| then None else Some(stable)
    ensures IsStableResult(gaps, DoubleMedian(Positive(gaps)), result)
  {
    DoubleMedianOf(Positive(gaps));
    SortedGapCounts(gaps, 1);
    KeepMeaning(gaps, DoubleMedian(Positive(gaps)));
  }
}
