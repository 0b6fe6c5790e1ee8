/** Period and execution demand of one traced thread
    (tools/realsense_steady_bench/generate_deadline_profile.py). */
module ThreadModel {
  import opened Wrappers
  import opened Sequences
  import opened LogicalJobs
  import opened DeadlineProfile
  import opened ThreadIdentity

  function Firsts(jobs: seq<Job>): seq<Activation> {
    if |jobs| == 0 then []
    else
      var n := |jobs| - 1;
      Firsts(jobs[..n]) + (if jobs[n] == [] then [] else [jobs[n][0]])
  }

  /** Distances between the starts of neighbouring jobs. */
  function Periods(jobs: seq<Job>): seq<int> {
    Positive(Gaps(Firsts(jobs)))
  }

  /** Twice the median, which may lie halfway between two elements. */
  function DoubleMedian(s: seq<int>): int
    requires s != []
  {
    var sorted := Sort(s);
    SortSorts(s);
    SameElems(sorted, s);
    var n := |sorted|;
    if n % 2 == 1 then 2 * sorted[n / 2] else sorted[n / 2 - 1] + sorted[n / 2]
  }

  /** Within 20 percent of the median. */
  predicate Near(period: int, doubleMedian: int) {
    2 * doubleMedian <= 5 * period <= 3 * doubleMedian
  }

  function Keep(periods: seq<int>, doubleMedian: int): (stable: seq<int>)
    ensures forall i :: 0 <= i < |stable| ==> stable[i] in periods && Near(stable[i], doubleMedian)
  {
    if |periods| == 0 then []
    else
      var n := |periods| - 1;
      Keep(periods[..n], doubleMedian) + (if Near(periods[n], doubleMedian) then [periods[n]] else [])
  }

  function StablePeriods(jobs: seq<Job>): Option<seq<int>> {
    var periods := Periods(jobs);
    if |periods| < 2 then None
    else
      var stable := Keep(periods, DoubleMedian(periods));
      if |stable| < 2 || 2 * |stable| < |periods| then None else Some(stable)
  }

  /** The longest job. */
  function LongestJob(jobs: seq<Job>): int
    requires |jobs| > 0
  {
    var n := |jobs| - 1;
    if n == 0 then Execution(jobs[0])
    else
      var m := LongestJob(jobs[..n]);
      if m >= Execution(jobs[n]) then m else Execution(jobs[n])
  }

  lemma {:induction false} LongestJobMeaning(jobs: seq<Job>)
    requires |jobs| > 0
    ensures forall k :: 0 <= k < |jobs| ==> Execution(jobs[k]) <= LongestJob(jobs)
    ensures exists k :: 0 <= k < |jobs| && Execution(jobs[k]) == LongestJob(jobs)
  {
    var n := |jobs| - 1;
    if n > 0 {
      LongestJobMeaning(jobs[..n]);
      assert forall k :: 0 <= k < n ==> jobs[..n][k] == jobs[k];
      var k :| 0 <= k < n && Execution(jobs[..n][k]) == LongestJob(jobs[..n]);
      assert Execution(jobs[k]) == LongestJob(jobs[..n]);
    }
    assert Execution(jobs[n]) <= LongestJob(jobs);
  }

  function ModelOf(activations: seq<Activation>): Option<Model> {
    var jobs := JobsOf(activations);
    var stable := StablePeriods(jobs);
    if stable.None? || jobs == [] || LongestJob(jobs) <= 0 then None
    else Some(Model(Least(stable.value), LongestJob(jobs)))
  }

  /** A thread's model bounds each of its jobs and each of its stable periods,
      and both bounds are reached. */
  lemma ModelBoundsThread(activations: seq<Activation>)
    requires ModelOf(activations).Some?
    ensures var m, jobs := ModelOf(activations).value, JobsOf(activations);
            && m.execution > 0 && m.period > 0
            && (forall k :: 0 <= k < |jobs| ==> Execution(jobs[k]) <= m.execution)
            && (exists k :: 0 <= k < |jobs| && Execution(jobs[k]) == m.execution)
            && (forall i :: 0 <= i < |StablePeriods(jobs).value| ==> m.period <= StablePeriods(jobs).value[i])
            && m.period in StablePeriods(jobs).value
  {
    var jobs := JobsOf(activations);
    PositiveIsPositive(Gaps(Firsts(jobs)));
    LeastMeaning(StablePeriods(jobs).value);
    LongestJobMeaning(jobs);
  }

  // ----- the threads of one trace

  type Trace = map<Identity, seq<Activation>>

  predicate Modelable(trace: Trace) {
    forall id :: id in trace ==> ModelOf(trace[id]).Some?
  }

  method ModelThread(activations: seq<Activation>) returns (model: Option<Model>)
    ensures model == ModelOf(activations)
  {
    var jobs, threshold := SplitLogicalJobs(activations);
    var stable := StablePeriods(jobs);
    if stable.None? || jobs == [] || LongestJob(jobs) <= 0 {
      return None;
    }
    return Some(Model(Least(stable.value), LongestJob(jobs)));
  }

  predicate IsModelled(trace: Trace, models: Models) {
    models.Keys == trace.Keys && forall id :: id in trace ==> ModelOf(trace[id]) == Some(models[id])
  }

  /** All threads of a trace, or none if one of them has no model; `model` stands
      for `ModelOf` in the specification. */
  method CollectModels(trace: Trace, ghost model: seq<Activation> -> Option<Model>) returns (models: Option<Models>)
    requires forall a :: model(a) == ModelOf(a)
    ensures models.Some? <==> forall id :: id in trace ==> model(trace[id]).Some?
    ensures models.Some? ==> && models.value.Keys == trace.Keys
                             && forall id :: id in trace ==> model(trace[id]) == Some(models.value[id])
  {
    var found: Models := map[];
    var left := trace.Keys;
    while left != {}
      invariant left <= trace.Keys && found.Keys == trace.Keys - left
      invariant forall id :: id in found ==> model(trace[id]) == Some(found[id])
      decreases left
    {
      var id :| id in left;
      var m := ModelThread(trace[id]);
      assert model(trace[id]) == m;
      if m.None? {
        return None;
      }
      found := found[id := m.value];
      left := left - {id};
    }
    return Some(found);
  }

  method TraceThreads(trace: Trace) returns (models: Option<Models>)
    ensures models.Some? <==> Modelable(trace)
    ensures models.Some? ==> IsModelled(trace, models.value)
  {
    models := CollectModels(trace, ModelOf);
  }
}
