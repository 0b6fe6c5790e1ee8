/** From per-run thread models to a scheduling profile
    (tools/realsense_steady_bench/generate_deadline_profile.py).

    The factors are exact reals.  The label that every row carries beside its
    identity is left out. */
module DeadlineProfile {
  import opened Wrappers
  import opened ThreadIdentity

  datatype Model = Model(period: int, execution: int)

  type Models = map<Identity, Model>

  datatype Config = Config(
    margin: real, scale: real, minimumRuntimeUs: int, maximumPeriodUs: int, maximumModeledUs: Option<int>)

  datatype Entry = Entry(signature: Signature, instance: nat, runtime: int, deadline: int, period: int)

  function IdOf(e: Entry): Identity { (e.signature, e.instance) }

  function Ceiling(x: real): int { -(-x).Floor }

  function Runtime(c: Config, w: Model): int {
    var wanted := Ceiling(w.execution as real * c.margin);
    if c.minimumRuntimeUs * 1000 >= wanted then c.minimumRuntimeUs * 1000 else wanted
  }

  function Period(c: Config, w: Model): int {
    var wanted := (w.period as real * c.scale).Floor;
    if c.maximumPeriodUs * 1000 <= wanted then c.maximumPeriodUs * 1000 else wanted
  }

  /** The kernel's minimum and the execution with its margin fit into `runtime`. */
  predicate Suffices(c: Config, execution: int, runtime: int) {
    runtime >= c.minimumRuntimeUs * 1000 && runtime as real >= execution as real * c.margin
  }

  /** `period` exceeds neither the kernel's maximum nor the scaled period that was observed. */
  predicate IsShortEnough(c: Config, observed: int, period: int) {
    period <= c.maximumPeriodUs * 1000 && period as real <= observed as real * c.scale
  }

  /** The least runtime that suffices. */
  ghost predicate IsRuntime(c: Config, execution: int, runtime: int) {
    forall q: int :: Suffices(c, execution, q) <==> runtime <= q
  }

  /** The greatest period that is short enough. */
  ghost predicate IsPeriod(c: Config, observed: int, period: int) {
    forall q: int :: IsShortEnough(c, observed, q) <==> q <= period
  }

  lemma CeilingMeaning(x: real, q: int)
    ensures x <= q as real <==> Ceiling(x) <= q
  {
  }

  lemma RuntimeIsLeast(c: Config, w: Model)
    ensures IsRuntime(c, w.execution, Runtime(c, w))
  {
    forall q: int ensures Suffices(c, w.execution, q) <==> Runtime(c, w) <= q {
      CeilingMeaning(w.execution as real * c.margin, q);
    }
  }

  lemma PeriodIsGreatest(c: Config, w: Model)
    ensures IsPeriod(c, w.period, Period(c, w))
  {
    forall q: int ensures IsShortEnough(c, w.period, q) <==> q <= Period(c, w) {
    }
  }

  predicate Excluded(c: Config, w: Model) {
    c.maximumModeledUs.Some? && w.period > c.maximumModeledUs.value * 1000
  }

  function Worse(a: Model, b: Model): Model {
    Model(if a.period <= b.period then a.period else b.period,
          if a.execution >= b.execution then a.execution else b.execution)
  }

  /** At least as demanding as every observation, in parts that were observed. */
  ghost predicate WorstCase(observed: set<Model>, w: Model) {
    && (forall m :: m in observed ==> m.execution <= w.execution && w.period <= m.period)
    && (exists m :: m in observed && m.execution == w.execution)
    && (exists m :: m in observed && m.period == w.period)
  }

  ghost function Worst(observed: set<Model>): (w: Model)
    requires observed != {}
    ensures WorstCase(observed, w)
  {
    var m :| m in observed;
    if observed == {m} then m
    else
      var w := Worst(observed - {m});
      assert observed == (observed - {m}) + {m};
      assert WorstCase(observed - {m}, w);
      Worse(m, w)
  }

  lemma WorstIsUnique(observed: set<Model>, w: Model)
    requires WorstCase(observed, w) && observed != {}
    ensures w == Worst(observed)
  {
  }

  method RoleWorstCase(observed: set<Model>) returns (w: Model)
    requires observed != {}
    ensures w == Worst(observed)
  {
    w :| w in observed;
    ghost var seen := {w};
    var left := observed - {w};
    while left != {}
      invariant seen + left == observed && WorstCase(seen, w)
      decreases left
    {
      var m :| m in left;
      w := Worse(m, w);
      seen := seen + {m};
      left := left - {m};
    }
    WorstIsUnique(observed, w);
  }

  // ----- generate_profile

  /** All runs have the same live threads. */
  predicate Consistent(perRun: seq<Models>) {
    perRun != [] && forall r :: 0 <= r < |perRun| ==> perRun[r].Keys == perRun[0].Keys
  }

  function ObservedIn(models: Models, s: Signature): set<Model> {
    set id | id in models && id.0 == s :: models[id]
  }

  function Observed(perRun: seq<Models>, s: Signature): set<Model> {
    if |perRun| == 0 then {} else Observed(perRun[..|perRun| - 1], s) + ObservedIn(perRun[|perRun| - 1], s)
  }

  lemma {:induction false} EveryRunIsObserved(perRun: seq<Models>, r: nat, id: Identity)
    requires r < |perRun| && id in perRun[r]
    ensures perRun[r][id] in Observed(perRun, id.0)
  {
    var n := |perRun| - 1;
    if r < n {
      EveryRunIsObserved(perRun[..n], r, id);
    }
  }

  function Signatures(threads: set<Identity>): set<Signature> {
    set id | id in threads :: id.0
  }

  /** The shared demand of a role over all runs and instances. */
  ghost function RoleDemand(perRun: seq<Models>, s: Signature): Model {
    if Observed(perRun, s) == {} then Model(0, 0) else Worst(Observed(perRun, s))
  }

  ghost function Demands(perRun: seq<Models>): map<Signature, Model>
    requires perRun != []
  {
    map s | s in Signatures(perRun[0].Keys) :: RoleDemand(perRun, s)
  }

  lemma SignatureIsObserved(perRun: seq<Models>, s: Signature)
    requires perRun != [] && s in Signatures(perRun[0].Keys)
    ensures Observed(perRun, s) != {}
  {
    var id :| id in perRun[0].Keys && id.0 == s;
    EveryRunIsObserved(perRun, 0, id);
  }

  predicate ValidConfig(c: Config) {
    c.margin >= 1.0 && 0.0 < c.scale <= 1.0
  }

  /** Some whole number of nanoseconds is enough to run and short enough to recur. */
  ghost predicate Fits(c: Config, w: Model) {
    Excluded(c, w) || exists q: int :: Suffices(c, w.execution, q) && IsShortEnough(c, w.period, q)
  }

  lemma FitsExactly(c: Config, w: Model)
    ensures Fits(c, w) <==> Excluded(c, w) || Runtime(c, w) <= Period(c, w)
  {
    RuntimeIsLeast(c, w);
    PeriodIsGreatest(c, w);
    assert Suffices(c, w.execution, Runtime(c, w));
  }

  ghost predicate AllFit(c: Config, demand: map<Signature, Model>) {
    forall s :: s in demand ==> Fits(c, demand[s])
  }

  predicate SomeIncluded(c: Config, demand: map<Signature, Model>) {
    exists s :: s in demand && !Excluded(c, demand[s])
  }

  function RowFor(c: Config, w: Model, id: Identity): Entry {
    Entry(id.0, id.1, Runtime(c, w), Period(c, w), Period(c, w))
  }

  /** The row grants the least runtime and the greatest period, which is also the deadline. */
  ghost predicate Grants(c: Config, row: Entry, w: Model) {
    IsRuntime(c, w.execution, row.runtime) && IsPeriod(c, w.period, row.period) && row.deadline == row.period
  }

  lemma RowGrants(c: Config, w: Model, id: Identity)
    ensures Grants(c, RowFor(c, w, id), w)
  {
    RuntimeIsLeast(c, w);
    PeriodIsGreatest(c, w);
  }

  /** What is granted is determined. */
  lemma GrantsOnce(c: Config, a: Entry, b: Entry, w: Model)
    requires Grants(c, a, w) && Grants(c, b, w)
    ensures a.runtime == b.runtime && a.period == b.period && a.deadline == b.deadline
  {
    assert Suffices(c, w.execution, a.runtime) && Suffices(c, w.execution, b.runtime);
    assert IsShortEnough(c, w.period, a.period) && IsShortEnough(c, w.period, b.period);
  }

  predicate Unique(rows: seq<Entry>) {
    forall i, j :: 0 <= i < j < |rows| ==> IdOf(rows[i]) != IdOf(rows[j])
  }

  ghost predicate IsDemandRow(row: Entry, threads: set<Identity>, demand: map<Signature, Model>, c: Config) {
    && IdOf(row) in threads && row.signature in demand
    && !Excluded(c, demand[row.signature]) && Grants(c, row, demand[row.signature])
  }

  /** Every row is a live thread with the demand of its role. */
  ghost predicate RowsAreDemands(rows: seq<Entry>, threads: set<Identity>, demand: map<Signature, Model>, c: Config) {
    forall i :: 0 <= i < |rows| ==> IsDemandRow(rows[i], threads, demand, c)
  }

  predicate HasRow(rows: seq<Entry>, id: Identity) {
    exists i :: 0 <= i < |rows| && IdOf(rows[i]) == id
  }

  /** Every live thread of a role that is not excluded has a row. */
  predicate RowsAreComplete(rows: seq<Entry>, threads: set<Identity>, demand: map<Signature, Model>, c: Config) {
    forall id :: id in threads && id.0 in demand ==> Excluded(c, demand[id.0]) || HasRow(rows, id)
  }

  ghost predicate IsProfile(rows: seq<Entry>, threads: set<Identity>, demand: map<Signature, Model>, c: Config) {
    && Unique(rows) && RowsAreDemands(rows, threads, demand, c) && RowsAreComplete(rows, threads, demand, c)
    && AllFit(c, demand)
  }

  function Role(threads: set<Identity>, s: Signature): set<Identity> {
    set id | id in threads && id.0 == s
  }

  method EmitRole(c: Config, w: Model, role: set<Identity>) returns (rows: seq<Entry>)
    ensures Unique(rows)
    ensures forall i :: 0 <= i < |rows| ==> IdOf(rows[i]) in role && rows[i] == RowFor(c, w, IdOf(rows[i]))
    ensures forall id :: id in role ==> HasRow(rows, id)
  {
    rows := [];
    var left := role;
    while left != {}
      invariant left <= role && Unique(rows)
      invariant forall i :: 0 <= i < |rows| ==>
                              && IdOf(rows[i]) in role && IdOf(rows[i]) !in left
                              && rows[i] == RowFor(c, w, IdOf(rows[i]))
      invariant forall id :: id in role ==> id in left || HasRow(rows, id)
      decreases left
    {
      var id :| id in left;
      ghost var before := rows;
      rows := rows + [RowFor(c, w, id)];
      left := left - {id};
      forall other | other in role && other !in left ensures HasRow(rows, other) {
        HasRowAppend(before, [RowFor(c, w, id)], other);
        assert IdOf([RowFor(c, w, id)][0]) == id;
      }
    }
  }

  lemma HasRowAppend(rows: seq<Entry>, more: seq<Entry>, id: Identity)
    ensures HasRow(rows + more, id) <==> HasRow(rows, id) || HasRow(more, id)
  {
    var all := rows + more;
    if i :| 0 <= i < |rows| && IdOf(rows[i]) == id {
      assert IdOf(all[i]) == id;
    }
    if i :| 0 <= i < |more| && IdOf(more[i]) == id {
      assert IdOf(all[|rows| + i]) == id;
    }
    if i :| 0 <= i < |all| && IdOf(all[i]) == id {
      assert if i < |rows| then IdOf(rows[i]) == id else IdOf(more[i - |rows|]) == id;
    }
  }

  predicate SeparateRoles(rows: seq<Entry>, more: seq<Entry>) {
    forall i, j :: 0 <= i < |rows| && 0 <= j < |more| ==> rows[i].signature != more[j].signature
  }

  lemma UniqueAppend(rows: seq<Entry>, more: seq<Entry>)
    requires Unique(rows) && Unique(more) && SeparateRoles(rows, more)
    ensures Unique(rows + more)
  {
    var all := rows + more;
    forall i, j | 0 <= i < j < |all| ensures IdOf(all[i]) != IdOf(all[j]) {
      if j < |rows| {
        assert all[i] == rows[i] && all[j] == rows[j];
      } else if i >= |rows| {
        assert all[i] == more[i - |rows|] && all[j] == more[j - |rows|];
      } else {
        assert rows[i].signature != more[j - |rows|].signature;
      }
    }
  }

  /** One more role: its rows join those of the roles before it. */
  lemma JoinRows(
      rows: seq<Entry>, more: seq<Entry>, threads: set<Identity>, demand: map<Signature, Model>, c: Config,
      s: Signature, w: Model)
    requires s !in demand && IsProfile(rows, threads, demand, c)
    requires !Excluded(c, w) && Runtime(c, w) <= Period(c, w) && Unique(more)
    requires forall i :: 0 <= i < |more| ==> IdOf(more[i]) in Role(threads, s) && more[i] == RowFor(c, w, IdOf(more[i]))
    requires forall id :: id in Role(threads, s) ==> HasRow(more, id)
    ensures IsProfile(rows + more, threads, demand[s := w], c)
  {
    UniqueAppend(rows, more);
    JoinedComplete(rows, more, threads, demand, c, s, w);
    FitsExactly(c, w);
    assert forall i :: 0 <= i < |rows| ==> IsDemandRow(rows[i], threads, demand[s := w], c);
    forall i | 0 <= i < |more| ensures IsDemandRow(more[i], threads, demand[s := w], c) {
      RowGrants(c, w, IdOf(more[i]));
    }
  }

  lemma JoinedComplete(
      rows: seq<Entry>, more: seq<Entry>, threads: set<Identity>, demand: map<Signature, Model>, c: Config,
      s: Signature, w: Model)
    requires RowsAreComplete(rows, threads, demand, c)
    requires Excluded(c, w) || forall id :: id in Role(threads, s) ==> HasRow(more, id)
    ensures RowsAreComplete(rows + more, threads, demand[s := w], c)
  {
    forall id | id in threads && id.0 in demand[s := w]
      ensures Excluded(c, demand[s := w][id.0]) || HasRow(rows + more, id)
    {
      HasRowAppend(rows, more, id);
      if id.0 == s {
        assert id in Role(threads, s);
      }
    }
  }

  lemma SkipRole(
      rows: seq<Entry>, threads: set<Identity>, demand: map<Signature, Model>, c: Config, s: Signature, w: Model)
    requires s !in demand && IsProfile(rows, threads, demand, c) && Excluded(c, w)
    ensures IsProfile(rows, threads, demand[s := w], c)
  {
    JoinedComplete(rows, [], threads, demand, c, s, w);
    assert rows + [] == rows;
    assert forall i :: 0 <= i < |rows| ==> IsDemandRow(rows[i], threads, demand[s := w], c);
  }

  method SameThreads(perRun: seq<Models>) returns (same: bool)
    ensures same == Consistent(perRun)
  {
    if |perRun| == 0 {
      return false;
    }
    for r := 1 to |perRun|
      invariant forall q :: 0 <= q < r ==> perRun[q].Keys == perRun[0].Keys
    {
      if perRun[r].Keys != perRun[0].Keys {
        return false;
      }
    }
    return true;
  }

  lemma RowsMeanIncluded(
      rows: seq<Entry>, threads: set<Identity>, demand: map<Signature, Model>, c: Config)
    requires IsProfile(rows, threads, demand, c) && demand.Keys == Signatures(threads)
    ensures rows != [] <==> SomeIncluded(c, demand)
  {
    if rows != [] {
      assert IsDemandRow(rows[0], threads, demand, c);
    }
    if s :| s in demand && !Excluded(c, demand[s]) {
      var id :| id in threads && id.0 == s;
      assert HasRow(rows, id);
    }
  }

  method GenerateProfile(perRun: seq<Models>, c: Config) returns (result: Result<seq<Entry>>)
    ensures result.Success? <==>
            && ValidConfig(c) && Consistent(perRun)
            && AllFit(c, Demands(perRun)) && SomeIncluded(c, Demands(perRun))
    ensures result.Success? ==>
              result.value != [] && IsProfile(result.value, perRun[0].Keys, Demands(perRun), c)
  {
    var same := SameThreads(perRun);
    if !ValidConfig(c) || !same {
      return Failure("invalid margin, scale or trace runs");
    }
    var threads := perRun[0].Keys;
    var rows: seq<Entry> := [];
    var left := Signatures(threads);
    ghost var demand: map<Signature, Model> := map[];
    while left != {}
      invariant demand.Keys !! left && demand.Keys + left == Signatures(threads)
      invariant forall s :: s in demand ==> demand[s] == RoleDemand(perRun, s)
      invariant IsProfile(rows, threads, demand, c)
      decreases left
    {
      var s :| s in left;
      SignatureIsObserved(perRun, s);
      var w := RoleWorstCase(Observed(perRun, s));
      if Excluded(c, w) {
        SkipRole(rows, threads, demand, c, s, w);
      } else {
        FitsExactly(c, w);
        if Runtime(c, w) > Period(c, w) {
          assert !Fits(c, Demands(perRun)[s]);
          return Failure("runtime exceeds deadline for a thread role");
        }
        var more := EmitRole(c, w, Role(threads, s));
        JoinRows(rows, more, threads, demand, c, s, w);
        rows := rows + more;
      }
      left := left - {s};
      demand := demand[s := w];
    }
    assert demand == Demands(perRun);
    RowsMeanIncluded(rows, threads, demand, c);
    if rows == [] {
      return Failure("modeled-period filter excluded every live worker");
    }
    return Success(rows);
  }
}
