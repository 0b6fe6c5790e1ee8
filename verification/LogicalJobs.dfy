/** Burst clustering of thread activations into logical jobs
    (tools/realsense_steady_bench/generate_deadline_profile.py).

    Times are whole nanoseconds.  The threshold sqrt(lower * upper) is kept as
    the pair of gaps it separates, and ratios are compared by cross-multiplying. */
module LogicalJobs {
  import opened Wrappers
  import opened Sequences

  datatype Activation = Activation(release: int, execution: int)

  type Job = seq<Activation>

  // ----- order of release

  function InsertByRelease(a: Activation, s: seq<Activation>): seq<Activation> {
    if |s| == 0 || a.release <= s[0].release then [a] + s else [s[0]] + InsertByRelease(a, s[1..])
  }

  function ByRelease(s: seq<Activation>): seq<Activation> {
    if |s| == 0 then [] else InsertByRelease(s[0], ByRelease(s[1..]))
  }

  predicate InOrder(s: seq<Activation>) {
    forall i :: 0 < i < |s| ==> s[i - 1].release <= s[i].release
  }

  lemma {:induction false} InsertKeepsOrder(a: Activation, s: seq<Activation>)
    requires InOrder(s)
    ensures InOrder(InsertByRelease(a, s)) && multiset(InsertByRelease(a, s)) == multiset(s) + multiset{a}
    ensures InsertByRelease(a, s)[0] == if |s| == 0 || a.release <= s[0].release then a else s[0]
  {
    if s != [] && a.release > s[0].release {
      assert s == [s[0]] + s[1..];
      InsertKeepsOrder(a, s[1..]);
    }
  }

  lemma {:induction false} ByReleaseSorts(s: seq<Activation>)
    ensures InOrder(ByRelease(s)) && multiset(ByRelease(s)) == multiset(s)
  {
    if s != [] {
      ByReleaseSorts(s[1..]);
      InsertKeepsOrder(s[0], ByRelease(s[1..]));
      assert s == [s[0]] + s[1..];
    }
  }

  // ----- gaps

  function Gaps(s: seq<Activation>): seq<int> {
    if |s| <= 1 then [] else Gaps(s[..|s| - 1]) + [s[|s| - 1].release - s[|s| - 2].release]
  }

  function Positive(gaps: seq<int>): seq<int> {
    if |gaps| == 0 then []
    else
      var n := |gaps| - 1;
      Positive(gaps[..n]) + (if gaps[n] > 0 then [gaps[n]] else [])
  }

  lemma {:induction false} PositiveIsPositive(gaps: seq<int>)
    ensures forall i :: 0 <= i < |Positive(gaps)| ==> Positive(gaps)[i] > 0
  {
    if gaps != [] {
      PositiveIsPositive(gaps[..|gaps| - 1]);
    }
  }

  predicate AllPositive(s: seq<int>) {
    forall i :: 0 <= i < |s| ==> s[i] > 0
  }

  // ----- the largest relative step between sorted gaps

  /** The step at `i` is steeper than at `j`: p[i+1]/p[i] > p[j+1]/p[j]. */
  predicate Steeper(p: seq<int>, i: int, j: int)
    requires 0 <= i < |p| - 1 && 0 <= j < |p| - 1
  {
    p[i + 1] * p[j] > p[j + 1] * p[i]
  }

  /** Among the first `n` steps, the first of the steepest ones, if any rises at all. */
  predicate SteepestOf(p: seq<int>, n: int, best: int)
    requires n < |p|
  {
    if best < 0 then best == -1 && forall j :: 0 <= j < n ==> p[j + 1] <= p[j]
    else
      && best < n
      && p[best + 1] > p[best]
      && (forall j :: 0 <= j < n ==> !Steeper(p, j, best))
      && (forall j :: 0 <= j < best ==> Steeper(p, best, j))
  }

  lemma StepsAreTransitive(p: seq<int>, i: int, j: int, k: int)
    requires 0 <= i < |p| - 1 && 0 <= j < |p| - 1 && 0 <= k < |p| - 1 && AllPositive(p)
    requires Steeper(p, i, j) && !Steeper(p, k, j)
    ensures Steeper(p, i, k)
  {
    Cross(p[i + 1], p[i], p[j + 1], p[j], p[k + 1], p[k]);
  }

  lemma Cross(a: int, b: int, c: int, d: int, e: int, f: int)
    requires a > 0 && b > 0 && c > 0 && d > 0 && e > 0 && f > 0
    requires a * d > c * b && e * d <= c * f
    ensures a * f > e * b
  {
    assert (a * d) * f > (c * b) * f;
    assert (c * f) * b >= (e * d) * b;
    assert d * (a * f) > d * (e * b);
  }

  lemma NewSteepest(p: seq<int>, i: nat, best: int)
    requires AllPositive(p) && i < |p| - 1 && SteepestOf(p, i, best)
    requires if best < 0 then p[i + 1] > p[i] else Steeper(p, i, best)
    ensures SteepestOf(p, i + 1, i)
  {
    forall j | 0 <= j < i ensures Steeper(p, i, j) && !Steeper(p, j, i) {
      if best >= 0 {
        StepsAreTransitive(p, i, best, j);
      } else {
        Flatter(p[i + 1], p[i], p[j + 1], p[j]);
      }
    }
    if best >= 0 {
      Rises(p[i + 1], p[i], p[best + 1], p[best]);
    }
  }

  lemma Rises(a: int, b: int, c: int, d: int)
    requires a * d > c * b && c > d > 0 && a > 0 && b > 0
    ensures a > b
  {
    assert c * b > d * b;
    assert d * a > d * b;
  }

  /** The best index after the first `n` steps. */
  function Steepest(p: seq<int>, n: nat): (best: int)
    requires n < |p|
    ensures -1 <= best < n
  {
    if n == 0 then -1
    else
      var best := Steepest(p, n - 1);
      if (if best < 0 then p[n] > p[n - 1] else Steeper(p, n - 1, best)) then n - 1 else best
  }

  /** It is the first of the steepest steps, if any step rises. */
  lemma {:induction false} SteepestMeaning(p: seq<int>, n: nat)
    requires AllPositive(p) && n < |p|
    ensures SteepestOf(p, n, Steepest(p, n))
  {
    if n > 0 {
      SteepestMeaning(p, n - 1);
      var best := Steepest(p, n - 1);
      if (if best < 0 then p[n] > p[n - 1] else Steeper(p, n - 1, best)) {
        NewSteepest(p, n - 1, best);
      }
    }
  }

  method SteepestStep(p: seq<int>) returns (best: int)
    requires AllPositive(p) && p != []
    ensures best == Steepest(p, |p| - 1)
  {
    best := -1;
    var upper, lower := 1, 1;
    for i := 0 to |p| - 1
      invariant best == Steepest(p, i)
      invariant if best < 0 then upper == lower == 1 else upper == p[best + 1] && lower == p[best]
    {
      if p[i + 1] * lower > upper * p[i] {
        best := i;
        upper, lower := p[i + 1], p[i];
      }
    }
  }

  lemma Flatter(a: int, b: int, c: int, d: int)
    requires a > b > 0 && 0 < c <= d
    ensures a * d > c * b
  {
    assert a * d >= a * c;
    assert a * c > b * c;
  }

  // ----- the threshold

  datatype Threshold = Threshold(lower: int, upper: int)

  /** The gap is at least sqrt(lower * upper). */
  predicate Reaches(gap: int, t: Threshold) {
    gap >= 0 && gap * gap >= t.lower * t.upper
  }

  /** Two clusters: a step by at least four, with enough gaps above it. */
  predicate Clusters(p: seq<int>, best: int)
    requires -1 <= best < |p|
  {
    && 0 <= best < |p| - 1
    && p[best + 1] >= 4 * p[best]
    && var count := |p| - best - 1;
       count >= 2 && |p| <= 20 * count && 10 * count <= 9 * |p|
  }

  function ThresholdAt(p: seq<int>, best: int): Option<Threshold>
    requires -1 <= best < |p|
  {
    if Clusters(p, best) then Some(Threshold(p[best], p[best + 1])) else None
  }

  function SortedGaps(ordered: seq<Activation>): seq<int> {
    Sort(Positive(Gaps(ordered)))
  }

  function ThresholdOf(ordered: seq<Activation>): Option<Threshold> {
    var p := SortedGaps(ordered);
    if |p| < 4 then None else ThresholdAt(p, Steepest(p, |p| - 1))
  }

  method FindThreshold(ordered: seq<Activation>) returns (t: Option<Threshold>)
    ensures t == ThresholdOf(ordered)
  {
    var p := SortedGaps(ordered);
    PositiveGaps(Gaps(ordered));
    t := None;
    if |p| >= 4 {
      var best := SteepestStep(p);
      t := ThresholdAt(p, best);
    }
  }

  lemma PositiveGaps(gaps: seq<int>)
    ensures AllPositive(Sort(Positive(gaps))) && Sorted(Sort(Positive(gaps)))
    ensures multiset(Sort(Positive(gaps))) == multiset(Positive(gaps))
  {
    var p, q := Sort(Positive(gaps)), Positive(gaps);
    SortSorts(q);
    PositiveIsPositive(gaps);
    forall i | 0 <= i < |p| ensures p[i] > 0 {
      assert p[i] in multiset(p);
      assert p[i] in multiset(q);
    }
  }

  // ----- grouping

  predicate Cuts(gap: int, t: Option<Threshold>) {
    t.None? || Reaches(gap, t.value)
  }

  function Group(s: seq<Activation>, t: Option<Threshold>): (jobs: seq<Job>)
    ensures s != [] ==> jobs != []
  {
    if |s| == 0 then []
    else if |s| == 1 then [[s[0]]]
    else
      var n := |s| - 1;
      Place(Group(s[..n], t), s[n], Cuts(s[n].release - s[n - 1].release, t))
  }

  /** The activation opens a new job or continues the last one. */
  function Place(jobs: seq<Job>, a: Activation, cut: bool): (more: seq<Job>)
    requires jobs != []
    ensures more != []
  {
    if cut then jobs + [[a]] else jobs[..|jobs| - 1] + [jobs[|jobs| - 1] + [a]]
  }

  lemma {:induction false} GroupNext(s: seq<Activation>, i: nat, t: Option<Threshold>)
    requires 0 < i < |s|
    ensures Group(s[..i + 1], t) == Place(Group(s[..i], t), s[i], Cuts(s[i].release - s[i - 1].release, t))
  {
    assert s[..i + 1][..i] == s[..i];
  }

  method GroupJobs(ordered: seq<Activation>, t: Option<Threshold>) returns (jobs: seq<Job>)
    requires ordered != []
    ensures jobs == Group(ordered, t)
  {
    jobs := [[ordered[0]]];
    assert ordered[..1] == [ordered[0]];
    for i := 1 to |ordered|
      invariant jobs == Group(ordered[..i], t)
    {
      GroupNext(ordered, i, t);
      var gap := ordered[i].release - ordered[i - 1].release;
      jobs := Place(jobs, ordered[i], Cuts(gap, t));
    }
    assert ordered[..|ordered|] == ordered;
  }

  method SplitLogicalJobs(activations: seq<Activation>) returns (jobs: seq<Job>, t: Option<Threshold>)
    ensures jobs == JobsOf(activations) && t == ThresholdOf(ByRelease(activations))
  {
    var ordered := ByRelease(activations);
    t := FindThreshold(ordered);
    if ordered == [] {
      jobs := [];
    } else {
      jobs := GroupJobs(ordered, t);
    }
  }

  /** The logical jobs of a thread. */
  function JobsOf(activations: seq<Activation>): seq<Job> {
    var ordered := ByRelease(activations);
    Group(ordered, ThresholdOf(ordered))
  }

  // ----- nothing is lost

  function Execution(s: seq<Activation>): int {
    if |s| == 0 then 0 else Execution(s[..|s| - 1]) + s[|s| - 1].execution
  }

  function TotalExecution(jobs: seq<Job>): int {
    if |jobs| == 0 then 0 else TotalExecution(jobs[..|jobs| - 1]) + Execution(jobs[|jobs| - 1])
  }

  lemma {:induction false} JobsAreNonempty(s: seq<Activation>, t: Option<Threshold>)
    ensures forall k :: 0 <= k < |Group(s, t)| ==> Group(s, t)[k] != []
  {
    if |s| > 1 {
      JobsAreNonempty(s[..|s| - 1], t);
    }
  }

  lemma FlattenExtended(jobs: seq<Job>, a: Activation)
    requires jobs != []
    ensures var m := |jobs| - 1; Flatten(jobs[..m] + [jobs[m] + [a]]) == Flatten(jobs) + [a]
  {
    var m := |jobs| - 1;
    FlattenLast(jobs[..m], jobs[m] + [a]);
    assert Flatten(jobs[..m]) + (jobs[m] + [a]) == Flatten(jobs) + [a];
  }

  lemma FlattenSingle(job: Job)
    ensures Flatten([job]) == job
  {
    var one := [job];
    assert |one[..0]| == 0 && one[0] == job;
    assert Flatten(one) == Flatten(one[..0]) + job;
  }

  lemma PlacePartitions(jobs: seq<Job>, a: Activation, cut: bool)
    requires jobs != []
    ensures Flatten(Place(jobs, a, cut)) == Flatten(jobs) + [a]
  {
    FlattenLast(jobs, [a]);
    FlattenExtended(jobs, a);
  }

  lemma GroupLast(pre: seq<Activation>, a: Activation, t: Option<Threshold>)
    requires |pre| > 0
    ensures Group(pre + [a], t) == Place(Group(pre, t), a, Cuts(a.release - pre[|pre| - 1].release, t))
  {
    assert (pre + [a])[..|pre|] == pre;
  }

  lemma PartitionStep(pre: seq<Activation>, a: Activation, t: Option<Threshold>)
    requires |pre| > 0 && Flatten(Group(pre, t)) == pre
    ensures Flatten(Group(pre + [a], t)) == pre + [a]
  {
    var jobs, cut := Group(pre, t), Cuts(a.release - pre[|pre| - 1].release, t);
    GroupLast(pre, a, t);
    PlacePartitions(jobs, a, cut);
  }

  lemma SinglePartitions(a: Activation, t: Option<Threshold>)
    ensures Flatten(Group([a], t)) == [a]
  {
    FlattenSingle([a]);
  }

  lemma {:induction false} GroupPartitions(s: seq<Activation>, t: Option<Threshold>)
    ensures Flatten(Group(s, t)) == s
  {
    var n := |s| - 1;
    if n == 0 {
      assert s == [s[0]];
      SinglePartitions(s[0], t);
    } else if n > 0 {
      var pre, a := s[..n], s[n];
      assert s == pre + [a];
      GroupPartitions(pre, t);
      PartitionStep(pre, a, t);
    } else {
      assert |Group(s, t)| == 0;
    }
  }

  lemma {:induction false} ExecutionAppend(a: seq<Activation>, b: seq<Activation>)
    ensures Execution(a + b) == Execution(a) + Execution(b)
  {
    if |b| == 0 {
      assert a + b == a;
    } else {
      var n := |b| - 1;
      ExecutionAppend(a, b[..n]);
      assert (a + b)[..|a| + n] == a + b[..n];
    }
  }

  lemma {:induction false} FlattenExecution(jobs: seq<Job>)
    ensures Execution(Flatten(jobs)) == TotalExecution(jobs)
  {
    if jobs != [] {
      var n := |jobs| - 1;
      FlattenExecution(jobs[..n]);
      ExecutionAppend(Flatten(jobs[..n]), jobs[n]);
    }
  }

  lemma {:induction false} InsertExecution(a: Activation, s: seq<Activation>)
    ensures Execution(InsertByRelease(a, s)) == a.execution + Execution(s)
  {
    ExecutionOne(a);
    if |s| == 0 || a.release <= s[0].release {
      ExecutionAppend([a], s);
    } else {
      InsertExecution(a, s[1..]);
      ExecutionOne(s[0]);
      ExecutionAppend([s[0]], InsertByRelease(a, s[1..]));
      ExecutionAppend([s[0]], s[1..]);
      assert s == [s[0]] + s[1..];
    }
  }

  lemma ExecutionOne(a: Activation)
    ensures Execution([a]) == a.execution
  {
    assert [a][..0] == [];
  }

  lemma {:induction false} SortingKeepsExecution(s: seq<Activation>)
    ensures Execution(ByRelease(s)) == Execution(s)
  {
    if s != [] {
      SortingKeepsExecution(s[1..]);
      InsertExecution(s[0], ByRelease(s[1..]));
      ExecutionOne(s[0]);
      ExecutionAppend([s[0]], s[1..]);
      assert s == [s[0]] + s[1..];
    }
  }

  /** The jobs are the release-sorted activations cut
      into nonempty pieces, and their execution adds up to that of the input. */
  lemma JobsPartitionActivations(activations: seq<Activation>)
    ensures var jobs := JobsOf(activations);
            && Flatten(jobs) == ByRelease(activations)
            && InOrder(Flatten(jobs)) && multiset(Flatten(jobs)) == multiset(activations)
            && (forall k :: 0 <= k < |jobs| ==> jobs[k] != [])
            && TotalExecution(jobs) == Execution(activations)
  {
    var ordered := ByRelease(activations);
    var t := ThresholdOf(ordered);
    ByReleaseSorts(activations);
    GroupPartitions(ordered, t);
    JobsAreNonempty(ordered, t);
    FlattenExecution(Group(ordered, t));
    SortingKeepsExecution(activations);
  }

  // ----- the cuts are the upper cluster

  /** Number of gaps that reach `x`. */
  function CountFrom(gaps: seq<int>, x: int): nat {
    if |gaps| == 0 then 0 else CountFrom(gaps[..|gaps| - 1], x) + (if gaps[|gaps| - 1] >= x then 1 else 0)
  }

  lemma {:induction false} CountAppend(a: seq<int>, b: seq<int>, x: int)
    ensures CountFrom(a + b, x) == CountFrom(a, x) + CountFrom(b, x)
  {
    if |b| == 0 {
      assert a + b == a;
    } else {
      var n := |b| - 1;
      CountAppend(a, b[..n], x);
      assert (a + b)[..|a| + n] == a + b[..n];
    }
  }

  lemma CountOne(y: int, x: int)
    ensures CountFrom([y], x) == if y >= x then 1 else 0
  {
    assert [y][..0] == [];
  }

  lemma {:induction false} CountInsert(y: int, s: seq<int>, x: int)
    ensures CountFrom(Insert(y, s), x) == CountFrom([y], x) + CountFrom(s, x)
  {
    if |s| == 0 || y <= s[0] {
      CountAppend([y], s, x);
    } else {
      CountInsert(y, s[1..], x);
      CountAppend([s[0]], Insert(y, s[1..]), x);
      CountAppend([s[0]], s[1..], x);
      assert s == [s[0]] + s[1..];
    }
  }

  lemma {:induction false} CountSort(s: seq<int>, x: int)
    ensures CountFrom(Sort(s), x) == CountFrom(s, x)
  {
    if s != [] {
      CountSort(s[1..], x);
      CountInsert(s[0], Sort(s[1..]), x);
      CountAppend([s[0]], s[1..], x);
      assert s == [s[0]] + s[1..];
    }
  }

  lemma {:induction false} CountPositive(gaps: seq<int>, x: int)
    requires x > 0
    ensures CountFrom(Positive(gaps), x) == CountFrom(gaps, x)
  {
    if gaps != [] {
      var n := |gaps| - 1;
      CountPositive(gaps[..n], x);
      CountAppend(Positive(gaps[..n]), if gaps[n] > 0 then [gaps[n]] else [], x);
      CountOne(gaps[n], x);
    }
  }

  /** In a sorted list the elements from `x` on stand at the end. */
  lemma {:induction false} CountSorted(p: seq<int>, k: nat, x: int)
    requires k <= |p|
    requires forall i :: 0 <= i < k ==> p[i] < x
    requires forall i :: k <= i < |p| ==> p[i] >= x
    ensures CountFrom(p, x) == |p| - k
  {
    if p != [] {
      var n := |p| - 1;
      CountSorted(p[..n], if k <= n then k else n, x);
    }
  }

  lemma BelowThreshold(gap: int, t: Threshold)
    requires 0 <= gap <= t.lower < t.upper && t.lower > 0
    ensures !Reaches(gap, t)
  {
    assert gap * gap <= gap * t.lower;
    assert gap * t.lower <= t.lower * t.lower;
    assert t.lower * t.lower < t.lower * t.upper;
  }

  lemma AboveThreshold(gap: int, t: Threshold)
    requires 0 < t.lower < t.upper <= gap
    ensures Reaches(gap, t)
  {
    assert gap * gap >= t.upper * gap;
    assert t.upper * gap >= t.upper * t.upper;
    assert t.upper * t.upper >= t.upper * t.lower;
  }

  /** The threshold lies between two neighbouring sorted gaps. */
  lemma ThresholdSeparates(p: seq<int>, best: nat, gap: int)
    requires AllPositive(p) && Sorted(p) && best + 1 < |p| && p[best] < p[best + 1]
    requires gap == 0 || gap in p
    ensures SplitBy(gap, Threshold(p[best], p[best + 1]))
  {
    var t := Threshold(p[best], p[best + 1]);
    if gap >= t.upper {
      AboveThreshold(gap, t);
    } else {
      if gap in p {
        var i :| 0 <= i < |p| && p[i] == gap;
        assert i <= best;
      }
      BelowThreshold(gap, t);
    }
  }

  predicate SplitBy(gap: int, t: Threshold) {
    if Reaches(gap, t) then gap >= t.upper else gap <= t.lower
  }

  predicate Splits(gaps: seq<int>, t: Threshold) {
    forall i :: 0 <= i < |gaps| ==> SplitBy(gaps[i], t)
  }

  lemma {:induction false} PositiveMembers(gaps: seq<int>, i: nat)
    requires i < |gaps| && gaps[i] > 0
    ensures gaps[i] in Positive(gaps)
  {
    var n := |gaps| - 1;
    if i < n {
      PositiveMembers(gaps[..n], i);
    }
  }

  lemma {:induction false} GapsMeaning(s: seq<Activation>)
    ensures |Gaps(s)| == if |s| == 0 then 0 else |s| - 1
    ensures forall i :: 0 <= i < |Gaps(s)| ==> Gaps(s)[i] == s[i + 1].release - s[i].release
  {
    if |s| > 1 {
      GapsMeaning(s[..|s| - 1]);
    }
  }

  lemma GapsAreSorted(gaps: seq<int>, i: nat)
    requires i < |gaps| && gaps[i] > 0
    ensures gaps[i] in Sort(Positive(gaps))
  {
    PositiveMembers(gaps, i);
    PositiveGaps(gaps);
    assert gaps[i] in multiset(Positive(gaps));
    assert gaps[i] in multiset(Sort(Positive(gaps)));
  }

  lemma EveryGapSplits(ordered: seq<Activation>, best: nat)
    requires InOrder(ordered)
    requires var p := Sort(Positive(Gaps(ordered))); best + 1 < |p| && p[best] < p[best + 1]
    ensures var p := Sort(Positive(Gaps(ordered))); Splits(Gaps(ordered), Threshold(p[best], p[best + 1]))
  {
    var gaps := Gaps(ordered);
    var p := Sort(Positive(gaps));
    PositiveGaps(gaps);
    GapsMeaning(ordered);
    forall i | 0 <= i < |gaps| ensures SplitBy(gaps[i], Threshold(p[best], p[best + 1])) {
      assert ordered[(i + 1) - 1].release <= ordered[i + 1].release;
      if gaps[i] > 0 {
        GapsAreSorted(gaps, i);
      }
      ThresholdSeparates(p, best, gaps[i]);
    }
  }

  function Last(job: Job): Activation
    requires job != []
  {
    job[|job| - 1]
  }

  /** Gaps inside the job are at most `lower`. */
  predicate Tight(job: Job, lower: int) {
    forall i :: 0 < i < |job| ==> job[i].release - job[i - 1].release <= lower
  }

  predicate ApartAt(jobs: seq<Job>, k: nat, upper: int) {
    0 < k < |jobs| && jobs[k - 1] != [] && jobs[k] != [] && jobs[k][0].release - Last(jobs[k - 1]).release >= upper
  }

  /** Gaps between neighbouring jobs are at least `upper`. */
  predicate Apart(jobs: seq<Job>, upper: int) {
    forall k :: 0 < k < |jobs| ==> ApartAt(jobs, k, upper)
  }

  predicate AllTight(jobs: seq<Job>, lower: int) {
    forall k :: 0 <= k < |jobs| ==> Tight(jobs[k], lower)
  }

  lemma LastOfGroup(s: seq<Activation>, t: Option<Threshold>)
    requires s != []
    ensures var jobs := Group(s, t); jobs[|jobs| - 1] != [] && Last(jobs[|jobs| - 1]) == s[|s| - 1]
  {
  }

  lemma GapsOfPrefix(s: seq<Activation>)
    requires |s| > 1
    ensures Gaps(s) == Gaps(s[..|s| - 1]) + [s[|s| - 1].release - s[|s| - 2].release]
  {
  }

  lemma {:induction false} GroupCount(s: seq<Activation>, t: Threshold)
    requires s != [] && t.lower < t.upper && Splits(Gaps(s), t)
    ensures |Group(s, Some(t))| == CountFrom(Gaps(s), t.upper) + 1
  {
    if |s| > 1 {
      var n := |s| - 1;
      GapsOfPrefix(s);
      var before, gap := Gaps(s[..n]), s[n].release - s[n - 1].release;
      SplitsPrefix(before, gap, t);
      GroupCount(s[..n], t);
      CountAppend(before, [gap], t.upper);
      CountOne(gap, t.upper);
    }
  }

  lemma SplitsPrefix(before: seq<int>, gap: int, t: Threshold)
    requires Splits(before + [gap], t)
    ensures Splits(before, t) && SplitBy(gap, t)
  {
    var gaps := before + [gap];
    assert gaps[|before|] == gap;
    assert forall i :: 0 <= i < |before| ==> gaps[i] == before[i];
  }

  lemma {:induction false} GroupSeparates(s: seq<Activation>, t: Threshold)
    requires Splits(Gaps(s), t) && t.lower < t.upper
    ensures AllTight(Group(s, Some(t)), t.lower) && Apart(Group(s, Some(t)), t.upper)
  {
    if |s| > 1 {
      var n := |s| - 1;
      var jobs := Group(s[..n], Some(t));
      GapsOfPrefix(s);
      var gap := s[n].release - s[n - 1].release;
      SplitsPrefix(Gaps(s[..n]), gap, t);
      GroupSeparates(s[..n], t);
      LastOfGroup(s[..n], Some(t));
      if Cuts(gap, Some(t)) {
        NewJob(jobs, s[n], t.lower, t.upper);
      } else {
        ExtendJob(jobs, s[n], t.lower, t.upper);
      }
    }
  }

  lemma NewJob(jobs: seq<Job>, a: Activation, lower: int, upper: int)
    requires jobs != [] && AllTight(jobs, lower) && Apart(jobs, upper)
    requires var last := jobs[|jobs| - 1]; last != [] && a.release - Last(last).release >= upper
    ensures AllTight(jobs + [[a]], lower) && Apart(jobs + [[a]], upper)
  {
    var more := jobs + [[a]];
    forall k | 0 < k < |more| ensures ApartAt(more, k, upper) {
      if k < |jobs| {
        assert ApartAt(jobs, k, upper);
      }
    }
  }

  lemma ExtendJob(jobs: seq<Job>, a: Activation, lower: int, upper: int)
    requires jobs != [] && AllTight(jobs, lower) && Apart(jobs, upper)
    requires var last := jobs[|jobs| - 1]; last != [] && a.release - Last(last).release <= lower
    ensures var m := |jobs| - 1; var more := jobs[..m] + [jobs[m] + [a]];
            AllTight(more, lower) && Apart(more, upper)
  {
    var m := |jobs| - 1;
    var more := jobs[..m] + [jobs[m] + [a]];
    assert forall k :: 0 <= k < m ==> more[k] == jobs[k];
    assert more[m] == jobs[m] + [a] && more[m][0] == jobs[m][0];
    assert Tight(jobs[m], lower);
    forall k | 0 < k < |more| ensures ApartAt(more, k, upper) {
      assert ApartAt(jobs, k, upper);
    }
  }

  /** A chosen threshold cuts exactly at the gaps of the upper cluster: inside a
      job all gaps belong to the lower cluster, between jobs to the upper one, and
      there is one job more than there are gaps in the upper cluster. */
  lemma CutsAreTheUpperCluster(activations: seq<Activation>)
    ensures var ordered, jobs := ByRelease(activations), JobsOf(activations);
            var t, p := ThresholdOf(ordered), SortedGaps(ordered);
            if t.None? then |jobs| == |activations| && forall k :: 0 <= k < |jobs| ==> |jobs[k]| == 1
            else
              var best := Steepest(p, |p| - 1);
              && 0 <= best < |p| - 1 && t.value == Threshold(p[best], p[best + 1]) && p[best + 1] >= 4 * p[best]
              && AllTight(jobs, p[best]) && Apart(jobs, p[best + 1])
              && |jobs| == (|p| - best - 1) + 1
  {
    var ordered := ByRelease(activations);
    ByReleaseSorts(activations);
    SameElems(ordered, activations);
    if ThresholdOf(ordered).None? {
      NoThreshold(ordered);
    } else {
      ThresholdCuts(ordered);
    }
  }

  lemma ThresholdCuts(ordered: seq<Activation>)
    requires InOrder(ordered) && ThresholdOf(ordered).Some?
    ensures var t, p := ThresholdOf(ordered).value, SortedGaps(ordered);
            var best, jobs := Steepest(p, |p| - 1), Group(ordered, Some(t));
            && 0 <= best < |p| - 1 && t == Threshold(p[best], p[best + 1]) && p[best + 1] >= 4 * p[best]
            && AllTight(jobs, t.lower) && Apart(jobs, t.upper)
            && |jobs| == (|p| - best - 1) + 1
  {
    var t, p := ThresholdOf(ordered).value, SortedGaps(ordered);
    var best := Steepest(p, |p| - 1);
    PositiveGaps(Gaps(ordered));
    SteepestMeaning(p, |p| - 1);
    EveryGapSplits(ordered, best);
    UpperCount(Gaps(ordered), best);
    CutJobs(ordered, t);
  }

  lemma CutJobs(ordered: seq<Activation>, t: Threshold)
    requires Splits(Gaps(ordered), t) && t.lower < t.upper
    ensures AllTight(Group(ordered, Some(t)), t.lower) && Apart(Group(ordered, Some(t)), t.upper)
    ensures |ordered| > 0 ==> |Group(ordered, Some(t))| == CountFrom(Gaps(ordered), t.upper) + 1
  {
    GroupSeparates(ordered, t);
    if |ordered| > 0 {
      GroupCount(ordered, t);
    }
  }

  lemma UpperCount(gaps: seq<int>, best: nat)
    requires var p := Sort(Positive(gaps)); best + 1 < |p| && p[best] < p[best + 1]
    ensures var p := Sort(Positive(gaps)); CountFrom(gaps, p[best + 1]) == |p| - best - 1
  {
    var p := Sort(Positive(gaps));
    PositiveGaps(gaps);
    CountSorted(p, best + 1, p[best + 1]);
    CountSort(Positive(gaps), p[best + 1]);
    CountPositive(gaps, p[best + 1]);
  }

  lemma {:induction false} NoThreshold(s: seq<Activation>)
    ensures |Group(s, None)| == |s| && forall k :: 0 <= k < |s| ==> |Group(s, None)[k]| == 1
  {
    if |s| > 1 {
      NoThreshold(s[..|s| - 1]);
    }
  }
}
