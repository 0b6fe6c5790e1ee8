/** Scheduler residency of a thread and its split over a stage
    (tools/realsense_steady_bench/analyze_capture_residual.py,
    `running_intervals` and `stage_cpu_ns`). */
module StageCpu {
  import opened Wrappers
  import opened Numbers
  import opened Overlap

  datatype Run = Run(span: Span, cpu: int)

  // ----- running_intervals

  datatype Switch = SwitchedIn(ts: int, cpu: int) | SwitchedOut(ts: int) | Unrelated(ts: int)

  datatype Residency = Residency(active: Option<Switch>, runs: seq<Run>)

  function Follow(s: Residency, e: Switch): Residency {
    match e
    case SwitchedIn(_, _) => s.(active := Some(e))
    case SwitchedOut(ts) =>
      if s.active.Some? && s.active.value.SwitchedIn? then
        var a := s.active.value;
        Residency(None, if ts > a.ts then s.runs + [Run(Span(a.ts, ts), a.cpu)] else s.runs)
      else s
    case Unrelated(_) => s
  }

  function FollowAll(events: seq<Switch>): Residency {
    if events == [] then Residency(None, []) else Follow(FollowAll(events[..|events| - 1]), events[|events| - 1])
  }

  method RunningIntervals(events: seq<Switch>) returns (runs: seq<Run>)
    ensures runs == FollowAll(events).runs
  {
    runs := [];
    var active: Option<Switch> := None;
    for i := 0 to |events|
      invariant Residency(active, runs) == FollowAll(events[..i])
      invariant active.Some? ==> active.value.SwitchedIn?
    {
      assert events[..i + 1][..i] == events[..i];
      if events[i].SwitchedIn? {
        active := Some(events[i]);
      } else if events[i].SwitchedOut? && active.Some? {
        var begin, cpu, end := active.value.ts, active.value.cpu, events[i].ts;
        if end > begin {
          runs := runs + [Run(Span(begin, end), cpu)];
        }
        active := None;
      }
    }
    assert events[..|events|] == events;
  }

  predicate TimeSorted(events: seq<Switch>) {
    forall i, j :: 0 <= i < j < |events| ==> events[i].ts <= events[j].ts
  }

  function Spans(runs: seq<Run>): (spans: seq<Span>)
    ensures |spans| == |runs| && forall i :: 0 <= i < |runs| ==> spans[i] == runs[i].span
  {
    seq(|runs|, i requires 0 <= i < |runs| => runs[i].span)
  }

  lemma FollowKeepsDisjoint(s: Residency, e: Switch, time: int)
    requires Disjoint(Spans(s.runs)) && time <= e.ts && EndBy(Spans(s.runs), time)
    requires s.active.Some? ==> s.active.value.ts <= time && EndBy(Spans(s.runs), s.active.value.ts)
    ensures var t := Follow(s, e);
            && Disjoint(Spans(t.runs)) && EndBy(Spans(t.runs), e.ts)
            && (t.active.Some? ==> t.active.value.ts <= e.ts && EndBy(Spans(t.runs), t.active.value.ts))
  {
    var t := Follow(s, e);
    if |t.runs| > |s.runs| {
      var spans, more := Spans(s.runs), Spans(t.runs);
      assert more == spans + [Span(s.active.value.ts, e.ts)];
    }
  }

  lemma {:induction false} RunsInTime(events: seq<Switch>)
    requires TimeSorted(events)
    ensures var s := FollowAll(events);
            && Disjoint(Spans(s.runs))
            && (events != [] ==> EndBy(Spans(s.runs), events[|events| - 1].ts))
            && (events == [] ==> s == Residency(None, []))
            && (s.active.Some? ==> events != [] && s.active.value.ts <= events[|events| - 1].ts
                                   && EndBy(Spans(s.runs), s.active.value.ts))
  {
    if events != [] {
      var n := |events| - 1;
      RunsInTime(events[..n]);
      FollowKeepsDisjoint(FollowAll(events[..n]), events[n], if n == 0 then events[0].ts else events[n - 1].ts);
    }
  }

  /** The intervals of a time-sorted trace are sorted and do not overlap. */
  lemma RunsAreDisjoint(events: seq<Switch>)
    requires TimeSorted(events)
    ensures Disjoint(Spans(FollowAll(events).runs))
  {
    RunsInTime(events);
  }

  /** The last switch-in, if no switch-out followed it. */
  function ActiveIn(events: seq<Switch>): Option<Switch> {
    if events == [] then None
    else
      var n := |events| - 1;
      if events[n].SwitchedIn? then Some(events[n])
      else if events[n].SwitchedOut? then None
      else ActiveIn(events[..n])
  }

  /** The switch-out at `j` ends run `r`, which the switch-in before it began. */
  predicate EndsRun(events: seq<Switch>, j: nat, r: Run) {
    && j < |events| && events[j].SwitchedOut?
    && var a := ActiveIn(events[..j]);
       a.Some? && a.value.SwitchedIn? && events[j].ts > a.value.ts
       && r == Run(Span(a.value.ts, events[j].ts), a.value.cpu)
  }

  lemma {:induction false} ActiveIsLastIn(events: seq<Switch>)
    ensures FollowAll(events).active == ActiveIn(events)
    ensures ActiveIn(events).Some? ==> ActiveIn(events).value.SwitchedIn?
  {
    if events != [] {
      ActiveIsLastIn(events[..|events| - 1]);
    }
  }

  /** A run is reported exactly for each switch-out that follows a switch-in later than it. */
  lemma {:induction false} RunsAreSwitchPairs(events: seq<Switch>, r: Run)
    ensures r in FollowAll(events).runs <==> exists j :: EndsRun(events, j, r)
  {
    if events != [] {
      var n := |events| - 1;
      var pre := events[..n];
      RunsAreSwitchPairs(pre, r);
      ActiveIsLastIn(pre);
      assert forall j :: 0 <= j < n ==> events[..j] == pre[..j] && events[j] == pre[j];
      assert forall j :: 0 <= j < n ==> EndsRun(events, j, r) == EndsRun(pre, j, r);
      assert r in FollowAll(events).runs <==> r in FollowAll(pre).runs || EndsRun(events, n, r);
      if r in FollowAll(pre).runs {
        var j :| EndsRun(pre, j, r);
        assert EndsRun(events, j, r);
      }
    }
  }

  // ----- stage_cpu_ns

  type Interrupts = map<int, seq<Span>>

  function On(interrupts: Interrupts, cpu: int): seq<Span> {
    if cpu in interrupts then interrupts[cpu] else []
  }

  datatype Split = Split(scheduler: nat, hardirq: nat, softirq: nat)

  function Share(r: Run, hard: Interrupts, soft: Interrupts, begin: int, end: int): Split {
    var b, e := Max(begin, r.span.begin), Min(end, r.span.end);
    if e > b then Split(e - b, Overlapping(On(hard, r.cpu), b, e), Overlapping(On(soft, r.cpu), b, e))
    else Split(0, 0, 0)
  }

  function Total(shares: seq<Split>): Split {
    if |shares| == 0 then Split(0, 0, 0)
    else
      Add(Total(shares[..|shares| - 1]), shares[|shares| - 1])
  }

  function Add(a: Split, b: Split): (s: Split)
    ensures IsSum(s, a, b)
  {
    Split(a.scheduler + b.scheduler, a.hardirq + b.hardirq, a.softirq + b.softirq)
  }

  predicate IsSum(s: Split, a: Split, b: Split) {
    s.scheduler == a.scheduler + b.scheduler && s.hardirq == a.hardirq + b.hardirq && s.softirq == a.softirq + b.softirq
  }

  predicate IsNothing(s: Split) {
    s.scheduler == 0 && s.hardirq == 0 && s.softirq == 0
  }

  lemma {:induction false} TotalAppend(a: seq<Split>, b: seq<Split>)
    ensures IsSum(Total(a + b), Total(a), Total(b))
  {
    if |b| == 0 {
      assert a + b == a;
    } else {
      var n := |b| - 1;
      TotalAppend(a, b[..n]);
      assert (a + b)[..|a| + n] == a + b[..n];
    }
  }

  predicate AllNothing(shares: seq<Split>) {
    forall i :: 0 <= i < |shares| ==> IsNothing(shares[i])
  }

  lemma {:induction false} TotalNothing(shares: seq<Split>)
    requires AllNothing(shares)
    ensures IsNothing(Total(shares))
  {
    if |shares| > 0 {
      var n := |shares| - 1;
      TotalNothing(shares[..n]);
      assert IsNothing(shares[n]);
    }
  }

  lemma TotalOfThree(a: seq<Split>, b: seq<Split>, c: seq<Split>)
    requires AllNothing(a) && AllNothing(c)
    ensures Total(a + b + c) == Total(b)
  {
    TotalNothing(a);
    TotalNothing(c);
    TotalAppend(a, b);
    TotalAppend(a + b, c);
    NothingAround(Total(a), Total(b), Total(c), Total(a + b), Total(a + b + c));
  }

  /** Only the shares between `from` and `to` matter if the others are nothing. */
  lemma TotalOfMiddle(shares: seq<Split>, from: nat, to: nat)
    requires from <= to <= |shares| && AllNothing(shares[..from]) && AllNothing(shares[to..])
    ensures Total(shares[from..to]) == Total(shares)
  {
    TotalOfThree(shares[..from], shares[from..to], shares[to..]);
    assert shares == shares[..from] + shares[from..to] + shares[to..];
  }

  lemma NothingAround(a: Split, b: Split, c: Split, ab: Split, all: Split)
    requires IsNothing(a) && IsNothing(c) && IsSum(ab, a, b) && IsSum(all, ab, c)
    ensures b == all
  {
  }

  predicate Contained(s: Split) { s.hardirq <= s.scheduler && s.softirq <= s.scheduler }

  lemma {:induction false} TotalContained(shares: seq<Split>)
    requires forall i :: 0 <= i < |shares| ==> Contained(shares[i])
    ensures Contained(Total(shares))
  {
    if |shares| > 0 {
      TotalContained(shares[..|shares| - 1]);
    }
  }

  function Shares(runs: seq<Run>, hard: Interrupts, soft: Interrupts, begin: int, end: int): (shares: seq<Split>)
    ensures |shares| == |runs|
    ensures forall i :: 0 <= i < |runs| ==> shares[i] == Share(runs[i], hard, soft, begin, end)
  {
    seq(|runs|, i requires 0 <= i < |runs| => Share(runs[i], hard, soft, begin, end))
  }

  /** First index from `start` on whose run begins after the stage. */
  function StopIndex(runs: seq<Run>, start: nat, end: int): (stop: nat)
    requires start <= |runs|
    ensures start <= stop <= |runs|
    ensures stop < |runs| ==> runs[stop].span.begin >= end
    decreases |runs| - start
  {
    if start == |runs| || runs[start].span.begin >= end then start else StopIndex(runs, start + 1, end)
  }

  function StageSplit(runs: seq<Run>, hard: Interrupts, soft: Interrupts, begin: int, end: int): Split {
    if |runs| == 0 || end <= begin then Split(0, 0, 0)
    else
      var start := StartIndex(Spans(runs), begin);
      Total(Shares(runs, hard, soft, begin, end)[start..StopIndex(runs, start, end)])
  }

  predicate SortedTables(interrupts: Interrupts) {
    forall cpu :: cpu in interrupts ==> BeginSorted(interrupts[cpu])
  }

  method InterruptShare(interrupts: Interrupts, cpu: int, begin: int, end: int) returns (total: nat)
    requires SortedTables(interrupts)
    ensures total == Overlapping(On(interrupts, cpu), begin, end)
  {
    var spans := On(interrupts, cpu);
    total := IntervalOverlap(spans, Begins(spans), begin, end);
  }

  method RunShare(r: Run, hard: Interrupts, soft: Interrupts, begin: int, end: int) returns (split: Split)
    requires SortedTables(hard) && SortedTables(soft)
    ensures split == Share(r, hard, soft, begin, end)
  {
    var from, to := Max(begin, r.span.begin), Min(end, r.span.end);
    split := Split(0, 0, 0);
    if to > from {
      var h := InterruptShare(hard, r.cpu, from, to);
      var s := InterruptShare(soft, r.cpu, from, to);
      split := Split(to - from, h, s);
    }
  }

  lemma TotalNext(shares: seq<Split>, from: nat, to: nat)
    requires from <= to < |shares|
    ensures Total(shares[from..to + 1]) == Add(Total(shares[from..to]), shares[to])
  {
    assert shares[from..to + 1][..to - from] == shares[from..to];
  }

  method ScanShares(runs: seq<Run>, start: nat, hard: Interrupts, soft: Interrupts, begin: int, end: int)
    returns (split: Split)
    requires start <= |runs| && SortedTables(hard) && SortedTables(soft)
    ensures split == Total(Shares(runs, hard, soft, begin, end)[start..StopIndex(runs, start, end)])
  {
    split := Split(0, 0, 0);
    var index := start;
    ghost var shares := Shares(runs, hard, soft, begin, end);
    while index < |runs|
      invariant start <= index <= |runs|
      invariant StopIndex(runs, index, end) == StopIndex(runs, start, end)
      invariant split == Total(shares[start..index])
    {
      if runs[index].span.begin >= end {
        break;
      }
      var one := RunShare(runs[index], hard, soft, begin, end);
      TotalNext(shares, start, index);
      split := Add(split, one);
      index := index + 1;
    }
  }

  method StageCpuTime(runs: seq<Run>, hard: Interrupts, soft: Interrupts, begin: int, end: int)
    returns (split: Split, task: nat)
    requires BeginSorted(Spans(runs)) && SortedTables(hard) && SortedTables(soft)
    ensures split == StageSplit(runs, hard, soft, begin, end)
    ensures task == Max(0, split.scheduler - split.hardirq - split.softirq)
  {
    if |runs| == 0 || end <= begin {
      return Split(0, 0, 0), 0;
    }
    var start := FindStart(Spans(runs), Begins(Spans(runs)), begin);
    split := ScanShares(runs, start, hard, soft, begin, end);
    task := Max(0, split.scheduler - split.hardirq - split.softirq);
  }

  /** The stage share of a run and of all interrupts of its CPU within it. */
  function PlainShare(r: Run, hard: Interrupts, soft: Interrupts, begin: int, end: int): Split {
    var b, e := Max(begin, r.span.begin), Min(end, r.span.end);
    Split(Shared(r.span, begin, end), Naive(On(hard, r.cpu), b, e), Naive(On(soft, r.cpu), b, e))
  }

  function PlainShares(runs: seq<Run>, hard: Interrupts, soft: Interrupts, begin: int, end: int): (shares: seq<Split>)
    ensures |shares| == |runs|
    ensures forall i :: 0 <= i < |runs| ==> shares[i] == PlainShare(runs[i], hard, soft, begin, end)
  {
    seq(|runs|, i requires 0 <= i < |runs| => PlainShare(runs[i], hard, soft, begin, end))
  }

  predicate DisjointTables(interrupts: Interrupts) {
    forall cpu :: cpu in interrupts ==> Disjoint(interrupts[cpu])
  }

  lemma ShareIsPlain(r: Run, hard: Interrupts, soft: Interrupts, begin: int, end: int)
    requires DisjointTables(hard) && DisjointTables(soft)
    ensures Share(r, hard, soft, begin, end) == PlainShare(r, hard, soft, begin, end)
    ensures Contained(Share(r, hard, soft, begin, end))
  {
    var b, e := Max(begin, r.span.begin), Min(end, r.span.end);
    assert Disjoint(On(hard, r.cpu)) && Disjoint(On(soft, r.cpu));
    DisjointOverlapIsExact(On(hard, r.cpu), b, e);
    DisjointOverlapIsExact(On(soft, r.cpu), b, e);
    if e <= b {
      EmptyStage(On(hard, r.cpu), b, e);
      EmptyStage(On(soft, r.cpu), b, e);
    }
  }

  /** What the shares of runs look like around the scanned part. */
  predicate SharesFit(shares: seq<Split>, spans: seq<Span>, begin: int, end: int) {
    && |shares| == |spans|
    && forall i :: 0 <= i < |shares| ==>
                     && shares[i].scheduler == Shared(spans[i], begin, end)
                     && (spans[i].begin >= end || spans[i].end <= begin ==> IsNothing(shares[i]))
  }

  lemma OutsideIsNothing(shares: seq<Split>, runs: seq<Run>, begin: int, end: int)
    requires SharesFit(shares, Spans(runs), begin, end) && Disjoint(Spans(runs))
    ensures var start := StartIndex(Spans(runs), begin);
            AllNothing(shares[..start]) && AllNothing(shares[StopIndex(runs, start, end)..])
  {
    var spans := Spans(runs);
    var start := StartIndex(spans, begin);
    var stop := StopIndex(runs, start, end);
    BegunBounds(spans, begin);
    DisjointIsSorted(spans);
    forall i | 0 <= i < start ensures IsNothing(shares[..start][i]) {
      assert spans[i].end <= spans[start].begin;
    }
    forall i | 0 <= i < |runs| - stop ensures IsNothing(shares[stop..][i]) {
      assert spans[stop].begin <= spans[stop + i].begin;
    }
  }

  lemma {:induction false} TotalScheduler(shares: seq<Split>, spans: seq<Span>, begin: int, end: int)
    requires SharesFit(shares, spans, begin, end)
    ensures Total(shares).scheduler == Naive(spans, begin, end)
  {
    if |shares| > 0 {
      var n := |shares| - 1;
      TotalScheduler(shares[..n], spans[..n], begin, end);
      NaiveSplit(spans, n, begin, end);
      assert spans[n..] == [spans[n]] && [spans[n]][1..] == [];
    } else {
      assert spans == [];
    }
  }

  /** The scan misses no run, whatever the interrupts are. */
  lemma SplitIsTotal(runs: seq<Run>, hard: Interrupts, soft: Interrupts, begin: int, end: int)
    requires Disjoint(Spans(runs)) && begin < end
    ensures var s := StageSplit(runs, hard, soft, begin, end);
            s == Total(Shares(runs, hard, soft, begin, end)) && s.scheduler == Naive(Spans(runs), begin, end)
  {
    var shares := Shares(runs, hard, soft, begin, end);
    if runs != [] {
      OutsideIsNothing(shares, runs, begin, end);
      var start := StartIndex(Spans(runs), begin);
      TotalOfMiddle(shares, start, StopIndex(runs, start, end));
    }
    TotalScheduler(shares, Spans(runs), begin, end);
  }

  /** For the runs of a time-sorted trace and interrupt intervals that do not
      overlap on a CPU, the stage split is the plain sum over all runs and all
      interrupts, and no part exceeds what contains it. */
  lemma StageSplitIsExact(
      events: seq<Switch>, hard: Interrupts, soft: Interrupts, begin: int, end: int)
    requires TimeSorted(events) && DisjointTables(hard) && DisjointTables(soft) && begin < end
    ensures var runs := FollowAll(events).runs; var s := StageSplit(runs, hard, soft, begin, end);
            && s == Total(PlainShares(runs, hard, soft, begin, end))
            && Contained(s)
            && s.scheduler == Naive(Spans(runs), begin, end) <= end - begin
  {
    var runs := FollowAll(events).runs;
    RunsAreDisjoint(events);
    SplitIsTotal(runs, hard, soft, begin, end);
    PlainSharesFit(runs, hard, soft, begin, end);
    TotalContained(Shares(runs, hard, soft, begin, end));
    DisjointOverlapIsExact(Spans(runs), begin, end);
  }

  lemma PlainSharesFit(runs: seq<Run>, hard: Interrupts, soft: Interrupts, begin: int, end: int)
    requires DisjointTables(hard) && DisjointTables(soft)
    ensures Shares(runs, hard, soft, begin, end) == PlainShares(runs, hard, soft, begin, end)
    ensures forall i :: 0 <= i < |runs| ==> Contained(Shares(runs, hard, soft, begin, end)[i])
  {
    forall i | 0 <= i < |runs|
      ensures var s := Share(runs[i], hard, soft, begin, end);
              s == PlainShare(runs[i], hard, soft, begin, end) && Contained(s)
    {
      ShareIsPlain(runs[i], hard, soft, begin, end);
    }
  }

  // ----- interrupts that may overlap

  /** When the run's part of the stage begins, every interrupt of its CPU that
      began before the latest one has ended. */
  predicate NoneHidden(r: Run, interrupts: Interrupts, begin: int, end: int) {
    var b, e, spans := Max(begin, r.span.begin), Min(end, r.span.end), On(interrupts, r.cpu);
    b < e ==> EndBy(spans[..StartIndex(spans, b)], b)
  }

  predicate Below(a: Split, b: Split) {
    a.scheduler == b.scheduler && a.hardirq <= b.hardirq && a.softirq <= b.softirq
  }

  lemma ShareIsExactIff(r: Run, hard: Interrupts, soft: Interrupts, begin: int, end: int)
    requires SortedTables(hard) && SortedTables(soft)
    ensures var s, p := Share(r, hard, soft, begin, end), PlainShare(r, hard, soft, begin, end);
            && Below(s, p)
            && (s.hardirq == p.hardirq <==> NoneHidden(r, hard, begin, end))
            && (s.softirq == p.softirq <==> NoneHidden(r, soft, begin, end))
  {
    var b, e := Max(begin, r.span.begin), Min(end, r.span.end);
    if b < e {
      OverlapIsExactIff(On(hard, r.cpu), b, e);
      OverlapIsExactIff(On(soft, r.cpu), b, e);
    } else {
      EmptyStage(On(hard, r.cpu), b, e);
      EmptyStage(On(soft, r.cpu), b, e);
    }
  }

  lemma {:induction false} TotalBelow(a: seq<Split>, b: seq<Split>)
    requires |a| == |b| && forall i :: 0 <= i < |a| ==> Below(a[i], b[i])
    ensures Below(Total(a), Total(b))
    ensures Total(a).hardirq == Total(b).hardirq <==> forall i :: 0 <= i < |a| ==> a[i].hardirq == b[i].hardirq
    ensures Total(a).softirq == Total(b).softirq <==> forall i :: 0 <= i < |a| ==> a[i].softirq == b[i].softirq
  {
    if |a| > 0 {
      var n := |a| - 1;
      TotalBelow(a[..n], b[..n]);
      assert Below(a[n], b[n]);
    }
  }

  /** Each share against its plain sum. */
  predicate SharesAgainstPlain(
      shares: seq<Split>, plain: seq<Split>, runs: seq<Run>, hard: Interrupts, soft: Interrupts, begin: int, end: int) {
    && |shares| == |plain| == |runs|
    && forall i :: 0 <= i < |runs| ==>
                     && Below(shares[i], plain[i])
                     && (shares[i].hardirq == plain[i].hardirq <==> NoneHidden(runs[i], hard, begin, end))
                     && (shares[i].softirq == plain[i].softirq <==> NoneHidden(runs[i], soft, begin, end))
  }

  lemma SharesAreAgainstPlain(runs: seq<Run>, hard: Interrupts, soft: Interrupts, begin: int, end: int)
    requires SortedTables(hard) && SortedTables(soft)
    ensures SharesAgainstPlain(Shares(runs, hard, soft, begin, end), PlainShares(runs, hard, soft, begin, end),
                               runs, hard, soft, begin, end)
  {
    forall i | 0 <= i < |runs|
      ensures var s, p := Share(runs[i], hard, soft, begin, end), PlainShare(runs[i], hard, soft, begin, end);
              && Below(s, p)
              && (s.hardirq == p.hardirq <==> NoneHidden(runs[i], hard, begin, end))
              && (s.softirq == p.softirq <==> NoneHidden(runs[i], soft, begin, end))
    {
      ShareIsExactIff(runs[i], hard, soft, begin, end);
    }
  }

  lemma TotalsAgainstPlain(runs: seq<Run>, hard: Interrupts, soft: Interrupts, begin: int, end: int)
    requires SortedTables(hard) && SortedTables(soft)
    ensures var s, p := Total(Shares(runs, hard, soft, begin, end)), Total(PlainShares(runs, hard, soft, begin, end));
            && Below(s, p)
            && (s.hardirq == p.hardirq <==> forall i :: 0 <= i < |runs| ==> NoneHidden(runs[i], hard, begin, end))
            && (s.softirq == p.softirq <==> forall i :: 0 <= i < |runs| ==> NoneHidden(runs[i], soft, begin, end))
  {
    SharesAreAgainstPlain(runs, hard, soft, begin, end);
    TotalBelow(Shares(runs, hard, soft, begin, end), PlainShares(runs, hard, soft, begin, end));
  }

  /** For any sorted interrupts the split counts every run, never too much of an
      interrupt, and the interrupt time is the plain sum exactly when no run's
      part of the stage begins inside an interrupt that a later one hides. */
  lemma StageSplitIsExactIff(
      events: seq<Switch>, hard: Interrupts, soft: Interrupts, begin: int, end: int)
    requires TimeSorted(events) && SortedTables(hard) && SortedTables(soft) && begin < end
    ensures var runs := FollowAll(events).runs;
            var s, p := StageSplit(runs, hard, soft, begin, end), Total(PlainShares(runs, hard, soft, begin, end));
            && s.scheduler == p.scheduler == Naive(Spans(runs), begin, end) <= end - begin
            && s.hardirq <= p.hardirq && s.softirq <= p.softirq
            && (s.hardirq == p.hardirq <==> forall i :: 0 <= i < |runs| ==> NoneHidden(runs[i], hard, begin, end))
            && (s.softirq == p.softirq <==> forall i :: 0 <= i < |runs| ==> NoneHidden(runs[i], soft, begin, end))
  {
    var runs := FollowAll(events).runs;
    RunsAreDisjoint(events);
    SplitIsTotal(runs, hard, soft, begin, end);
    DisjointOverlapIsExact(Spans(runs), begin, end);
    TotalsAgainstPlain(runs, hard, soft, begin, end);
  }
}
