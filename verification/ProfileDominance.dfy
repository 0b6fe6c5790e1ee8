/** A generated profile covers everything its traces showed, and loads. */
module ProfileDominance {
  import opened Wrappers
  import opened LogicalJobs
  import opened ThreadIdentity
  import opened DeadlineProfile
  import opened ThreadModel
  import opened ProfileLoader

  lemma GrantCovers(c: Config, row: Entry, w: Model)
    requires ValidConfig(c) && Grants(c, row, w) && w.execution > 0 && w.period > 0
    ensures row.runtime >= w.execution && row.period <= w.period
  {
    var x, y := w.execution as real, w.period as real;
    assert Suffices(c, w.execution, row.runtime) && IsShortEnough(c, w.period, row.period);
    assert x * c.margin >= x * 1.0;
    assert y * c.scale <= y * 1.0;
  }

  lemma GrantsInOrder(c: Config, row: Entry, w: Model)
    requires Grants(c, row, w) && Fits(c, w) && !Excluded(c, w)
    ensures row.runtime <= row.deadline == row.period
  {
  }

  ghost predicate AllModelled(traces: seq<Trace>, perRun: seq<Models>) {
    |traces| == |perRun| && forall r :: 0 <= r < |traces| ==> IsModelled(traces[r], perRun[r])
  }

  /** Every job of the thread fits the row, and no stable period is shorter. */
  predicate Covers(row: Entry, activations: seq<Activation>) {
    var jobs := JobsOf(activations);
    && (forall k :: 0 <= k < |jobs| ==> Execution(jobs[k]) <= row.runtime)
    && StablePeriods(jobs).Some?
    && (forall i :: 0 <= i < |StablePeriods(jobs).value| ==> row.period <= StablePeriods(jobs).value[i])
  }

  lemma DemandCovers(c: Config, row: Entry, w: Model, m: Model, activations: seq<Activation>)
    requires ValidConfig(c) && ModelOf(activations) == Some(m) && Grants(c, row, w)
    requires m.execution <= w.execution && 0 < w.period <= m.period
    ensures Covers(row, activations)
  {
    ModelBoundsThread(activations);
    GrantCovers(c, row, w);
  }

  lemma {:induction false} ObservedArePositive(traces: seq<Trace>, perRun: seq<Models>, s: Signature, m: Model)
    requires AllModelled(traces, perRun) && m in Observed(perRun, s)
    ensures m.period > 0 && m.execution > 0
  {
    var n := |perRun| - 1;
    if m in ObservedIn(perRun[n], s) {
      var id :| id in perRun[n] && perRun[n][id] == m;
      ModelBoundsThread(traces[n][id]);
    } else {
      ObservedArePositive(traces[..n], perRun[..n], s, m);
    }
  }

  lemma DemandIsPositive(traces: seq<Trace>, perRun: seq<Models>, s: Signature)
    requires AllModelled(traces, perRun) && Observed(perRun, s) != {}
    ensures RoleDemand(perRun, s).period > 0 && RoleDemand(perRun, s).execution > 0
  {
    var w := RoleDemand(perRun, s);
    assert WorstCase(Observed(perRun, s), w);
    var a :| a in Observed(perRun, s) && a.execution == w.execution;
    var b :| b in Observed(perRun, s) && b.period == w.period;
    ObservedArePositive(traces, perRun, s, a);
    ObservedArePositive(traces, perRun, s, b);
  }

  /** Every row covers every thread of its role in every trace; rows of one role
      share their parameters, and the parameters are in order. */
  lemma ProfileDominates(
      traces: seq<Trace>, perRun: seq<Models>, rows: seq<Entry>, c: Config, i: nat, r: nat, id: Identity)
    requires ValidConfig(c) && AllModelled(traces, perRun) && Consistent(perRun)
    requires IsProfile(rows, perRun[0].Keys, Demands(perRun), c)
    requires i < |rows| && r < |traces| && id in traces[r] && id.0 == rows[i].signature
    ensures Covers(rows[i], traces[r][id])
    ensures 0 < rows[i].runtime <= rows[i].deadline == rows[i].period
    ensures HasRow(rows, id)
    ensures forall j :: 0 <= j < |rows| && rows[j].signature == rows[i].signature ==>
                          rows[j] == rows[i].(instance := rows[j].instance)
  {
    var s := rows[i].signature;
    var w := RoleDemand(perRun, s);
    assert IsDemandRow(rows[i], perRun[0].Keys, Demands(perRun), c);
    EveryRunIsObserved(perRun, r, id);
    assert WorstCase(Observed(perRun, s), w);
    DemandIsPositive(traces, perRun, s);
    DemandCovers(c, rows[i], w, perRun[r][id], traces[r][id]);
    GrantCovers(c, rows[i], w);
    assert Fits(c, Demands(perRun)[s]);
    GrantsInOrder(c, rows[i], w);
    assert id in perRun[0].Keys;
    forall j | 0 <= j < |rows| && rows[j].signature == s ensures rows[j] == rows[i].(instance := rows[j].instance) {
      assert IsDemandRow(rows[j], perRun[0].Keys, Demands(perRun), c);
      GrantsOnce(c, rows[i], rows[j], w);
    }
  }

  /** Threads are numbered from one and have a signature. */
  predicate Numbered(threads: set<Identity>) {
    forall id :: id in threads ==> id.0 != "" && id.1 >= 1
  }

  lemma RowIsNumbered(
      threads: set<Identity>, rows: seq<Entry>, demand: map<Signature, Model>, c: Config, i: nat)
    requires i < |rows| && Numbered(threads) && RowsAreDemands(rows, threads, demand, c)
    ensures IdOf(rows[i]) in threads && rows[i].signature != "" && rows[i].instance >= 1
  {
    assert IsDemandRow(rows[i], threads, demand, c);
  }

  lemma RowLoads(row: Entry)
    requires row.signature != "" && 1 <= row.instance < U32
    requires 0 < row.runtime <= row.deadline == row.period < U64
    ensures Acceptable(row) && Narrowed(row) == row
  {
  }

  /** The loader accepts the generated rows unchanged, unless a rank or a period
      exceeds the width of its fields. */
  lemma ProfileLoads(traces: seq<Trace>, perRun: seq<Models>, rows: seq<Entry>, c: Config)
    requires ValidConfig(c) && AllModelled(traces, perRun) && Consistent(perRun) && Numbered(perRun[0].Keys)
    requires rows != [] && IsProfile(rows, perRun[0].Keys, Demands(perRun), c)
    requires forall i :: 0 <= i < |rows| ==> rows[i].instance < U32 && rows[i].period < U64
    ensures Loadable(rows) && NarrowedRows(rows) == rows
  {
    forall i | 0 <= i < |rows| ensures Acceptable(rows[i]) && Narrowed(rows[i]) == rows[i] {
      RowIsNumbered(perRun[0].Keys, rows, Demands(perRun), c, i);
      ProfileDominates(traces, perRun, rows, c, i, 0, IdOf(rows[i]));
      RowLoads(rows[i]);
    }
    assert NarrowedRows(rows) == rows;
  }

  /** Every row covers every thread of its role in every trace. */
  predicate Dominates(rows: seq<Entry>, traces: seq<Trace>) {
    forall i, r, id :: 0 <= i < |rows| && 0 <= r < |traces| && id in traces[r] && id.0 == rows[i].signature ==>
                         Covers(rows[i], traces[r][id])
  }

  lemma ModelledNext(traces: seq<Trace>, r: nat, perRun: seq<Models>, models: Models)
    requires r < |traces| && AllModelled(traces[..r], perRun) && IsModelled(traces[r], models)
    ensures AllModelled(traces[..r + 1], perRun + [models])
  {
    var more := perRun + [models];
    forall q | 0 <= q < r + 1 ensures IsModelled(traces[..r + 1][q], more[q]) {
      if q < r {
        assert traces[..r][q] == traces[..r + 1][q] && more[q] == perRun[q];
      }
    }
  }

  predicate AllModelable(traces: seq<Trace>) {
    forall r :: 0 <= r < |traces| ==> Modelable(traces[r])
  }

  method ModelRuns(traces: seq<Trace>) returns (perRun: Option<seq<Models>>)
    ensures perRun.Some? <==> AllModelable(traces)
    ensures perRun.Some? ==> AllModelled(traces, perRun.value)
  {
    var found: seq<Models> := [];
    for r := 0 to |traces|
      invariant AllModelled(traces[..r], found)
      invariant forall q :: 0 <= q < r ==> Modelable(traces[q])
    {
      var models := TraceThreads(traces[r]);
      if models.None? {
        return None;
      }
      ModelledNext(traces, r, found, models.value);
      found := found + [models.value];
    }
    assert traces[..|traces|] == traces;
    return Some(found);
  }

  lemma ProfileDominatesAll(
      traces: seq<Trace>, perRun: seq<Models>, rows: seq<Entry>, c: Config)
    requires ValidConfig(c) && AllModelled(traces, perRun) && Consistent(perRun)
    requires IsProfile(rows, perRun[0].Keys, Demands(perRun), c)
    ensures Dominates(rows, traces)
  {
    forall i, r, id | 0 <= i < |rows| && 0 <= r < |traces| && id in traces[r] && id.0 == rows[i].signature
      ensures Covers(rows[i], traces[r][id])
    {
      ProfileDominates(traces, perRun, rows, c, i, r, id);
    }
  }

  // ----- the demand of a role, read off the traces

  predicate JobAt(traces: seq<Trace>, s: Signature, r: nat, id: Identity, k: nat) {
    r < |traces| && id in traces[r] && id.0 == s && k < |JobsOf(traces[r][id])|
  }

  function ExecutionAt(traces: seq<Trace>, s: Signature, r: nat, id: Identity, k: nat): int
    requires JobAt(traces, s, r, id, k)
  {
    Execution(JobsOf(traces[r][id])[k])
  }

  predicate PeriodAt(traces: seq<Trace>, s: Signature, r: nat, id: Identity, x: int) {
    && r < |traces| && id in traces[r] && id.0 == s
    && StablePeriods(JobsOf(traces[r][id])).Some? && x in StablePeriods(JobsOf(traces[r][id])).value
  }

  /** The longest job and the shortest stable period of all threads of the role in all traces. */
  ghost predicate IsRoleModel(traces: seq<Trace>, s: Signature, w: Model) {
    && (forall r, id, k :: JobAt(traces, s, r, id, k) ==> ExecutionAt(traces, s, r, id, k) <= w.execution)
    && (exists r, id, k :: JobAt(traces, s, r, id, k) && ExecutionAt(traces, s, r, id, k) == w.execution)
    && (forall r, id, x :: PeriodAt(traces, s, r, id, x) ==> w.period <= x)
    && (exists r, id :: PeriodAt(traces, s, r, id, w.period))
  }

  lemma RoleModelIsUnique(traces: seq<Trace>, s: Signature, a: Model, b: Model)
    requires IsRoleModel(traces, s, a) && IsRoleModel(traces, s, b)
    ensures a == b
  {
  }

  lemma {:induction false} ObservedInARun(perRun: seq<Models>, s: Signature, m: Model) returns (r: nat, id: Identity)
    requires m in Observed(perRun, s)
    ensures r < |perRun| && id in perRun[r] && id.0 == s && perRun[r][id] == m
  {
    var n := |perRun| - 1;
    if m in ObservedIn(perRun[n], s) {
      r := n;
      id :| id in perRun[n] && id.0 == s && perRun[n][id] == m;
    } else {
      r, id := ObservedInARun(perRun[..n], s, m);
    }
  }

  lemma ThreadIsBounded(traces: seq<Trace>, perRun: seq<Models>, r: nat, id: Identity)
    requires AllModelled(traces, perRun) && r < |traces| && id in traces[r]
    ensures id in perRun[r] && perRun[r][id] in Observed(perRun, id.0)
    ensures var m, jobs := perRun[r][id], JobsOf(traces[r][id]);
            && (forall k :: 0 <= k < |jobs| ==> Execution(jobs[k]) <= m.execution)
            && StablePeriods(jobs).Some? && (forall x :: x in StablePeriods(jobs).value ==> m.period <= x)
  {
    assert IsModelled(traces[r], perRun[r]);
    ModelBoundsThread(traces[r][id]);
    EveryRunIsObserved(perRun, r, id);
  }

  lemma DemandBounds(traces: seq<Trace>, perRun: seq<Models>, s: Signature)
    requires AllModelled(traces, perRun) && Observed(perRun, s) != {}
    ensures var w := RoleDemand(perRun, s);
            && (forall r, id, k :: JobAt(traces, s, r, id, k) ==> ExecutionAt(traces, s, r, id, k) <= w.execution)
            && (forall r, id, x :: PeriodAt(traces, s, r, id, x) ==> w.period <= x)
  {
    var w := RoleDemand(perRun, s);
    assert WorstCase(Observed(perRun, s), w);
    forall r, id, k | JobAt(traces, s, r, id, k) ensures ExecutionAt(traces, s, r, id, k) <= w.execution {
      ThreadIsBounded(traces, perRun, r, id);
    }
    forall r, id, x | PeriodAt(traces, s, r, id, x) ensures w.period <= x {
      ThreadIsBounded(traces, perRun, r, id);
    }
  }

  lemma DemandIsReached(traces: seq<Trace>, perRun: seq<Models>, s: Signature)
    requires AllModelled(traces, perRun) && Observed(perRun, s) != {}
    ensures var w := RoleDemand(perRun, s);
            && (exists r, id, k :: JobAt(traces, s, r, id, k) && ExecutionAt(traces, s, r, id, k) == w.execution)
            && (exists r, id :: PeriodAt(traces, s, r, id, w.period))
  {
    var w := RoleDemand(perRun, s);
    assert WorstCase(Observed(perRun, s), w);
    var a :| a in Observed(perRun, s) && a.execution == w.execution;
    var r, id := ObservedInARun(perRun, s, a);
    assert IsModelled(traces[r], perRun[r]);
    ModelBoundsThread(traces[r][id]);
    var jobs := JobsOf(traces[r][id]);
    var k :| 0 <= k < |jobs| && Execution(jobs[k]) == a.execution;
    assert JobAt(traces, s, r, id, k) && ExecutionAt(traces, s, r, id, k) == w.execution;
    var b :| b in Observed(perRun, s) && b.period == w.period;
    var q, other := ObservedInARun(perRun, s, b);
    assert IsModelled(traces[q], perRun[q]);
    ModelBoundsThread(traces[q][other]);
    assert PeriodAt(traces, s, q, other, w.period);
  }

  lemma DemandIsRoleModel(traces: seq<Trace>, perRun: seq<Models>, s: Signature)
    requires AllModelled(traces, perRun) && Observed(perRun, s) != {}
    ensures forall w :: IsRoleModel(traces, s, w) <==> w == RoleDemand(perRun, s)
  {
    DemandBounds(traces, perRun, s);
    DemandIsReached(traces, perRun, s);
    forall w | IsRoleModel(traces, s, w) ensures w == RoleDemand(perRun, s) {
      RoleModelIsUnique(traces, s, w, RoleDemand(perRun, s));
    }
  }

  /** The role is modelled, and not slower than the periods that are wanted. */
  ghost predicate IsIncluded(traces: seq<Trace>, c: Config, s: Signature) {
    exists w :: IsRoleModel(traces, s, w) && !Excluded(c, w)
  }

  predicate SameRoles(traces: seq<Trace>) {
    traces != [] && forall r :: 0 <= r < |traces| ==> traces[r].Keys == traces[0].Keys
  }

  ghost predicate RolesFit(traces: seq<Trace>, c: Config) {
    forall s, w :: IsRoleModel(traces, s, w) ==> Fits(c, w)
  }

  /** Every trace can be modelled, all have the same threads, every included role
      fits, and one is included. */
  ghost predicate CanGenerate(traces: seq<Trace>, c: Config) {
    && ValidConfig(c) && AllModelable(traces) && SameRoles(traces)
    && RolesFit(traces, c) && exists s :: IsIncluded(traces, c, s)
  }

  lemma ModelledRoles(traces: seq<Trace>, perRun: seq<Models>)
    requires AllModelled(traces, perRun)
    ensures SameRoles(traces) <==> Consistent(perRun)
  {
    forall r | 0 <= r < |traces| ensures traces[r].Keys == perRun[r].Keys {
      assert IsModelled(traces[r], perRun[r]);
    }
  }

  lemma RoleIsLive(traces: seq<Trace>, perRun: seq<Models>, r: nat, id: Identity)
    requires AllModelled(traces, perRun) && Consistent(perRun) && r < |traces| && id in traces[r]
    ensures id.0 in Signatures(perRun[0].Keys) && Observed(perRun, id.0) != {}
  {
    ThreadIsBounded(traces, perRun, r, id);
    assert id in perRun[0].Keys;
  }

  lemma RoleHasThread(traces: seq<Trace>, s: Signature, w: Model) returns (r: nat, id: Identity)
    requires IsRoleModel(traces, s, w)
    ensures r < |traces| && id in traces[r] && id.0 == s
  {
    r, id :| PeriodAt(traces, s, r, id, w.period);
  }

  lemma RoleOfDemand(traces: seq<Trace>, perRun: seq<Models>, s: Signature, w: Model)
    requires AllModelled(traces, perRun) && Consistent(perRun) && IsRoleModel(traces, s, w)
    ensures s in Demands(perRun) && Demands(perRun)[s] == w
  {
    var r, id := RoleHasThread(traces, s, w);
    RoleIsLive(traces, perRun, r, id);
    DemandIsRoleModel(traces, perRun, s);
  }

  lemma DemandsAreRoles(traces: seq<Trace>, perRun: seq<Models>, s: Signature)
    requires AllModelled(traces, perRun) && Consistent(perRun) && s in Demands(perRun)
    ensures IsRoleModel(traces, s, Demands(perRun)[s])
  {
    SignatureIsObserved(perRun, s);
    DemandIsRoleModel(traces, perRun, s);
  }

  lemma FitOfDemands(traces: seq<Trace>, perRun: seq<Models>, c: Config)
    requires AllModelled(traces, perRun) && Consistent(perRun)
    ensures AllFit(c, Demands(perRun)) <==> RolesFit(traces, c)
    ensures SomeIncluded(c, Demands(perRun)) <==> exists s :: IsIncluded(traces, c, s)
  {
    forall s, w | IsRoleModel(traces, s, w) ensures s in Demands(perRun) && Demands(perRun)[s] == w {
      RoleOfDemand(traces, perRun, s, w);
    }
    forall s | s in Demands(perRun) ensures IsRoleModel(traces, s, Demands(perRun)[s]) {
      DemandsAreRoles(traces, perRun, s);
    }
    if s :| IsIncluded(traces, c, s) {
      var w :| IsRoleModel(traces, s, w) && !Excluded(c, w);
    }
    if s :| s in Demands(perRun) && !Excluded(c, Demands(perRun)[s]) {
      assert IsIncluded(traces, c, s);
    }
  }

  /** The row grants what its role needs. */
  ghost predicate IsRowOf(traces: seq<Trace>, c: Config, row: Entry) {
    exists w :: IsRoleModel(traces, row.signature, w) && !Excluded(c, w) && Grants(c, row, w)
  }

  /** Exactly the threads of included roles have a row, each with what its role needs. */
  ghost predicate IsProfileOf(rows: seq<Entry>, traces: seq<Trace>, c: Config) {
    && traces != [] && Unique(rows)
    && (forall i :: 0 <= i < |rows| ==> IsRowOf(traces, c, rows[i]))
    && forall id :: HasRow(rows, id) <==> id in traces[0] && IsIncluded(traces, c, id.0)
  }

  lemma ProfileOfTraces(traces: seq<Trace>, perRun: seq<Models>, rows: seq<Entry>, c: Config)
    requires AllModelled(traces, perRun) && Consistent(perRun)
    requires IsProfile(rows, perRun[0].Keys, Demands(perRun), c)
    ensures IsProfileOf(rows, traces, c)
  {
    assert IsModelled(traces[0], perRun[0]);
    forall i | 0 <= i < |rows|
      ensures IsRowOf(traces, c, rows[i]) && IdOf(rows[i]) in traces[0] && IsIncluded(traces, c, rows[i].signature)
    {
      assert IsDemandRow(rows[i], perRun[0].Keys, Demands(perRun), c);
      DemandsAreRoles(traces, perRun, rows[i].signature);
    }
    forall id | id in traces[0] && IsIncluded(traces, c, id.0) ensures HasRow(rows, id) {
      var w :| IsRoleModel(traces, id.0, w) && !Excluded(c, w);
      RoleOfDemand(traces, perRun, id.0, w);
    }
  }

  predicate RowsInOrder(rows: seq<Entry>) {
    forall i :: 0 <= i < |rows| ==> 0 < rows[i].runtime <= rows[i].deadline == rows[i].period
  }

  /** Ranks and periods fit the fields they are read into. */
  predicate FitsFields(rows: seq<Entry>) {
    forall i :: 0 <= i < |rows| ==> rows[i].instance < U32 && rows[i].period < U64
  }

  lemma ProfileIsInOrder(
      traces: seq<Trace>, perRun: seq<Models>, rows: seq<Entry>, c: Config)
    requires ValidConfig(c) && AllModelled(traces, perRun) && Consistent(perRun)
    requires IsProfile(rows, perRun[0].Keys, Demands(perRun), c)
    ensures RowsInOrder(rows)
  {
    forall i | 0 <= i < |rows| ensures 0 < rows[i].runtime <= rows[i].deadline == rows[i].period {
      assert IsDemandRow(rows[i], perRun[0].Keys, Demands(perRun), c);
      ProfileDominates(traces, perRun, rows, c, i, 0, IdOf(rows[i]));
    }
  }

  /** The loader returns exactly the generated rows, if and only if ranks and
      periods fit their fields. */
  lemma ProfileLoadsExactly(
      traces: seq<Trace>, perRun: seq<Models>, rows: seq<Entry>, c: Config)
    requires ValidConfig(c) && AllModelled(traces, perRun) && Consistent(perRun) && Numbered(perRun[0].Keys)
    requires rows != [] && IsProfile(rows, perRun[0].Keys, Demands(perRun), c)
    ensures Loadable(rows) && NarrowedRows(rows) == rows <==> FitsFields(rows)
  {
    if FitsFields(rows) {
      ProfileLoads(traces, perRun, rows, c);
    } else if Loadable(rows) && NarrowedRows(rows) == rows {
      forall i | 0 <= i < |rows| ensures rows[i].instance < U32 && rows[i].period < U64 {
        assert Acceptable(rows[i]) && NarrowedRows(rows)[i] == Narrowed(rows[i]) == rows[i];
      }
    }
  }

  /** The rows are the profile of the traces, cover them, and load unchanged
      exactly when ranks and periods fit their fields. */
  ghost predicate IsGoodProfile(rows: seq<Entry>, traces: seq<Trace>, c: Config) {
    && rows != [] && IsProfileOf(rows, traces, c) && Dominates(rows, traces) && RowsInOrder(rows)
    && (Numbered(traces[0].Keys) ==> (Loadable(rows) && NarrowedRows(rows) == rows <==> FitsFields(rows)))
  }

  /** From the traces to the rows that are written. */
  method ProfileFromTraces(traces: seq<Trace>, c: Config) returns (result: Result<seq<Entry>>)
    ensures result.Success? <==> CanGenerate(traces, c)
    ensures result.Success? ==> IsGoodProfile(result.value, traces, c)
  {
    var perRun := ModelRuns(traces);
    if perRun.None? {
      return Failure("cannot model a thread");
    }
    result := GenerateProfile(perRun.value, c);
    GeneratesExactly(traces, perRun.value, c);
    if result.Success? {
      GeneratedRows(traces, perRun.value, result.value, c);
    }
  }

  lemma GeneratesExactly(traces: seq<Trace>, perRun: seq<Models>, c: Config)
    requires AllModelled(traces, perRun) && AllModelable(traces)
    ensures CanGenerate(traces, c) <==>
            && ValidConfig(c) && Consistent(perRun)
            && AllFit(c, Demands(perRun)) && SomeIncluded(c, Demands(perRun))
  {
    ModelledRoles(traces, perRun);
    if Consistent(perRun) {
      FitOfDemands(traces, perRun, c);
    }
  }

  lemma GeneratedRows(traces: seq<Trace>, perRun: seq<Models>, rows: seq<Entry>, c: Config)
    requires ValidConfig(c) && AllModelled(traces, perRun) && Consistent(perRun)
    requires rows != [] && IsProfile(rows, perRun[0].Keys, Demands(perRun), c)
    ensures IsGoodProfile(rows, traces, c)
  {
    ProfileOfTraces(traces, perRun, rows, c);
    ProfileDominatesAll(traces, perRun, rows, c);
    ProfileIsInOrder(traces, perRun, rows, c);
    assert IsModelled(traces[0], perRun[0]);
    if Numbered(traces[0].Keys) {
      ProfileLoadsExactly(traces, perRun, rows, c);
    }
  }
}
