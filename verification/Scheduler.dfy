/** Applying a profile to the live threads (src/deadline_scheduler.cpp). */
module Scheduler {
  import opened Wrappers
  import opened Sequences
  import opened ThreadIdentity
  import opened DeadlineProfile
  import opened ProfileLoader

  // ----- matching by identity

  /** A live thread; snapshots are in creation order. */
  datatype Thread = Thread(tid: int, signature: Signature)

  function Roles(threads: seq<Thread>): (roles: seq<Signature>)
    ensures |roles| == |threads|
  {
    if threads == [] then [] else Roles(threads[..|threads| - 1]) + [threads[|threads| - 1].signature]
  }

  type Live = map<Identity, int>

  function LiveMap(threads: seq<Thread>): Live {
    if threads == [] then map[]
    else
      var n := |threads| - 1;
      LiveMap(threads[..n])[(threads[n].signature, CountOf(Roles(threads), threads[n].signature)) := threads[n].tid]
  }

  lemma {:induction false} RolesPrefix(threads: seq<Thread>, n: nat)
    requires n <= |threads|
    ensures Roles(threads)[..n] == Roles(threads[..n])
    ensures forall i :: 0 <= i < |threads| ==> Roles(threads)[i] == threads[i].signature
  {
    if n < |threads| {
      var m := |threads| - 1;
      RolesPrefix(threads[..m], n);
      assert threads[..m][..n] == threads[..n];
    } else {
      assert threads[..n] == threads && Roles(threads)[..n] == Roles(threads);
      if threads != [] {
        RolesPrefix(threads[..n - 1], n - 1);
      }
    }
  }

  lemma LiveNext(threads: seq<Thread>, i: nat)
    requires i < |threads|
    ensures Roles(threads[..i + 1]) == Roles(threads[..i]) + [threads[i].signature]
    ensures var s := threads[i].signature;
            LiveMap(threads[..i + 1]) ==
            LiveMap(threads[..i])[(s, CountOf(Roles(threads[..i]), s) + 1) := threads[i].tid]
  {
    assert threads[..i + 1][..i] == threads[..i];
    var before := Roles(threads[..i]);
    assert (before + [threads[i].signature])[..|before|] == before;
  }

  /** A role has the live identities 1, 2, ... up to the number of its threads. */
  lemma {:induction false} LiveIdentities(threads: seq<Thread>, id: Identity)
    ensures id in LiveMap(threads) <==> 1 <= id.1 <= CountOf(Roles(threads), id.0)
  {
    if threads != [] {
      var n := |threads| - 1;
      LiveIdentities(threads[..n], id);
      assert Roles(threads)[..n] == Roles(threads[..n]);
    }
  }

  lemma {:induction false} LiveCount(threads: seq<Thread>)
    ensures |LiveMap(threads)| == |threads|
  {
    if threads != [] {
      var n := |threads| - 1;
      var s := threads[n].signature;
      LiveCount(threads[..n]);
      assert threads == threads[..n + 1];
      LiveNext(threads, n);
      LiveIdentities(threads[..n], (s, CountOf(Roles(threads[..n]), s) + 1));
    }
  }

  /** Each thread is found under its own identity. */
  lemma {:induction false} LiveThread(threads: seq<Thread>, i: nat)
    requires i < |threads|
    ensures var id := IdentityAt(Roles(threads), i); id in LiveMap(threads) && LiveMap(threads)[id] == threads[i].tid
  {
    var n := |threads| - 1;
    var roles := Roles(threads);
    RolesPrefix(threads, n);
    assert roles[..n + 1] == roles;
    if i < n {
      LiveThread(threads[..n], i);
      assert roles[..n][..i + 1] == roles[..i + 1];
      assert threads[..n][i] == threads[i];
      IdentitiesDiffer(roles, i, n);
    }
  }

  function Counted(counts: map<Signature, nat>, s: Signature): nat {
    if s in counts then counts[s] else 0
  }

  ghost predicate CountsAre(counts: map<Signature, nat>, roles: seq<Signature>) {
    forall s :: Counted(counts, s) == CountOf(roles, s)
  }

  lemma CountNext(counts: map<Signature, nat>, roles: seq<Signature>, role: Signature)
    requires CountsAre(counts, roles)
    ensures Counted(counts, role) == CountOf(roles, role)
    ensures CountsAre(counts[role := Counted(counts, role) + 1], roles + [role])
  {
    assert (roles + [role])[..|roles|] == roles;
    var more := counts[role := Counted(counts, role) + 1];
    forall s ensures Counted(more, s) == CountOf(roles + [role], s) {
      assert Counted(counts, s) == CountOf(roles, s);
    }
  }

  method BuildLive(threads: seq<Thread>) returns (live: Live)
    ensures live == LiveMap(threads)
  {
    live := map[];
    var counts: map<Signature, nat> := map[];
    for i := 0 to |threads|
      invariant live == LiveMap(threads[..i])
      invariant CountsAre(counts, Roles(threads[..i]))
    {
      var s := threads[i].signature;
      LiveNext(threads, i);
      CountNext(counts, Roles(threads[..i]), s);
      counts := counts[s := Counted(counts, s) + 1];
      live := live[(s, counts[s]) := threads[i].tid];
    }
    assert threads[..|threads|] == threads;
  }

  /** The threads that the entries of the profile name. */
  predicate Matches(profile: seq<Entry>, live: Live) {
    forall i :: 0 <= i < |profile| ==> IdOf(profile[i]) in live
  }

  function Ids(profile: seq<Entry>): set<Identity> {
    if profile == [] then {} else Ids(profile[..|profile| - 1]) + {IdOf(profile[|profile| - 1])}
  }

  lemma {:induction false} IdsMeaning(profile: seq<Entry>, id: Identity)
    ensures id in Ids(profile) <==> HasRow(profile, id)
  {
    if profile != [] {
      var n := |profile| - 1;
      IdsMeaning(profile[..n], id);
      HasRowAppend(profile[..n], [profile[n]], id);
      assert profile == profile[..n] + [profile[n]];
      assert HasRow([profile[n]], id) <==> IdOf(profile[n]) == id by {
        assert [profile[n]][0] == profile[n];
      }
    }
  }

  lemma {:induction false} IdsCount(profile: seq<Entry>)
    requires Unique(profile)
    ensures |Ids(profile)| == |profile|
  {
    if profile != [] {
      var n := |profile| - 1;
      IdsCount(profile[..n]);
      IdsMeaning(profile[..n], IdOf(profile[n]));
    }
  }

  /** A matched profile without duplicates and as long as the snapshot names
      every live thread. */
  lemma {:induction false} FullProfileNamesAll(profile: seq<Entry>, threads: seq<Thread>, i: nat)
    requires Unique(profile) && Matches(profile, LiveMap(threads)) && |profile| == |LiveMap(threads)| && i < |threads|
    ensures HasRow(profile, IdentityAt(Roles(threads), i))
  {
    var live := LiveMap(threads);
    IdsCount(profile);
    forall id | id in Ids(profile) ensures id in live.Keys {
      IdsMeaning(profile, id);
    }
    SubsetSize(Ids(profile), live.Keys);
    LiveThread(threads, i);
    IdsMeaning(profile, IdentityAt(Roles(threads), i));
  }

  // ----- rate-monotonic priorities

  /** The distinct periods of a profile, shortest first. */
  function PeriodsOf(profile: seq<Entry>): seq<int> {
    if profile == [] then []
    else InsertNew(profile[|profile| - 1].period, PeriodsOf(profile[..|profile| - 1]))
  }

  lemma {:induction false} PeriodsMeaning(profile: seq<Entry>)
    ensures Ascending(PeriodsOf(profile))
    ensures forall i :: 0 <= i < |profile| ==> profile[i].period in PeriodsOf(profile)
    ensures forall p :: p in PeriodsOf(profile) ==> exists i :: 0 <= i < |profile| && profile[i].period == p
  {
    if profile != [] {
      var n := |profile| - 1;
      PeriodsMeaning(profile[..n]);
      InsertNewAscends(profile[n].period, PeriodsOf(profile[..n]));
      assert forall i :: 0 <= i < n ==> profile[..n][i] == profile[i];
    }
  }

  method DistinctPeriods(profile: seq<Entry>) returns (periods: seq<int>)
    ensures periods == PeriodsOf(profile)
  {
    periods := [];
    for i := 0 to |profile|
      invariant periods == PeriodsOf(profile[..i])
    {
      assert profile[..i + 1][..i] == profile[..i];
      periods := InsertNew(profile[i].period, periods);
    }
    assert profile[..|profile|] == profile;
  }

  /** One priority less for every longer period. */
  predicate ArePriorities(periods: seq<int>, highest: int, priorities: map<int, int>) {
    && (forall i :: 0 <= i < |periods| ==> periods[i] in priorities && priorities[periods[i]] == highest - i)
    && (forall p :: p in priorities ==> p in periods)
  }

  method AssignPriorities(periods: seq<int>, highest: int) returns (priorities: map<int, int>)
    requires Ascending(periods)
    ensures ArePriorities(periods, highest, priorities)
  {
    priorities := map[];
    var priority := highest;
    for i := 0 to |periods|
      invariant priority == highest - i
      invariant forall j :: 0 <= j < i ==> periods[j] in priorities && priorities[periods[j]] == highest - j
      invariant forall p :: p in priorities ==> p in periods
    {
      priorities := priorities[periods[i] := priority];
      priority := priority - 1;
    }
  }

  /** Shorter periods get strictly higher priorities, equal periods the same. */
  lemma PrioritiesAreInverse(
      periods: seq<int>, highest: int, priorities: map<int, int>, p: int, q: int)
    requires Ascending(periods) && ArePriorities(periods, highest, priorities) && p in periods && q in periods
    ensures p < q <==> priorities[p] > priorities[q]
  {
    var i :| 0 <= i < |periods| && periods[i] == p;
    var j :| 0 <= j < |periods| && periods[j] == q;
    assert i < j ==> p < q;
    assert j < i ==> q < p;
  }

  /** The priorities given out are exactly those of the band. */
  lemma BandIsFilled(periods: seq<int>, highest: int, priorities: map<int, int>, priority: int)
    requires ArePriorities(periods, highest, priorities)
    ensures highest - |periods| < priority <= highest <==>
            exists p :: p in periods && p in priorities && priorities[p] == priority
  {
    if highest - |periods| < priority <= highest {
      var p := periods[highest - priority];
      assert p in periods && priorities[p] == priority;
    }
  }

  // ----- the kernel

  datatype Policy =
    | Other
    | Deadline(runtime: int, deadline: int, period: int)
    | Fixed(roundRobin: bool, priority: int)

  datatype Assignment = Assignment(tid: int, id: Identity, policy: Policy)

  type Policies = map<int, Policy>

  /** Scheduling policy of every thread.  A call may fail, and then changes nothing. */
  class Kernel {
    var policies: Policies
    /** Calls that failed so far. */
    ghost var refusals: nat

    constructor (policies: Policies)
      ensures this.policies == policies && refusals == 0
    {
      this.policies := policies;
      refusals := 0;
    }

    method SetScheduler(tid: int, policy: Policy) returns (ok: bool)
      modifies this
      ensures policies == if ok then old(policies)[tid := policy] else old(policies)
      ensures refusals == old(refusals) + if ok then 0 else 1
    {
      ok := *;
      if ok {
        policies := policies[tid := policy];
      } else {
        refusals := refusals + 1;
      }
    }
  }

  function Applied(before: Policies, assignments: seq<Assignment>): Policies {
    if assignments == [] then before
    else
      var n := |assignments| - 1;
      Applied(before, assignments[..n])[assignments[n].tid := assignments[n].policy]
  }

  /** All given threads back at SCHED_OTHER, except those whose reset call failed. */
  function Reset(before: Policies, assignments: seq<Assignment>, failed: set<nat>): Policies {
    if assignments == [] then before
    else
      var n := |assignments| - 1;
      var earlier := Reset(before, assignments[..n], failed);
      if n in failed then earlier else earlier[assignments[n].tid := Other]
  }

  lemma AppliedNext(before: Policies, assignments: seq<Assignment>, i: nat)
    requires i < |assignments|
    ensures Applied(before, assignments[..i + 1]) ==
            Applied(before, assignments[..i])[assignments[i].tid := assignments[i].policy]
  {
    assert assignments[..i + 1][..i] == assignments[..i];
  }

  lemma ResetNext(before: Policies, assignments: seq<Assignment>, failed: set<nat>, i: nat, more: set<nat>)
    requires i < |assignments| && (more == failed || more == failed + {i})
    requires forall j :: j in failed ==> j < i
    ensures var earlier := Reset(before, assignments[..i], failed);
            Reset(before, assignments[..i + 1], more) ==
            if i in more then earlier else earlier[assignments[i].tid := Other]
  {
    assert assignments[..i + 1][..i] == assignments[..i];
    ResetIgnoresLater(before, assignments[..i], failed, more);
  }

  lemma {:induction false} ResetIgnoresLater(before: Policies, assignments: seq<Assignment>, a: set<nat>, b: set<nat>)
    requires forall j :: 0 <= j < |assignments| ==> (j in a <==> j in b)
    ensures Reset(before, assignments, a) == Reset(before, assignments, b)
  {
    if assignments != [] {
      ResetIgnoresLater(before, assignments[..|assignments| - 1], a, b);
    }
  }

  method RestoreOther(kernel: Kernel, assignments: seq<Assignment>) returns (failed: set<nat>)
    modifies kernel
    ensures kernel.policies == Reset(old(kernel.policies), assignments, failed)
    ensures kernel.refusals == old(kernel.refusals) + |failed|
    ensures forall j :: j in failed ==> j < |assignments|
  {
    failed := {};
    for i := 0 to |assignments|
      invariant forall j :: j in failed ==> j < i
      invariant kernel.refusals == old(kernel.refusals) + |failed|
      invariant kernel.policies == Reset(old(kernel.policies), assignments[..i], failed)
    {
      var ok := kernel.SetScheduler(assignments[i].tid, Other);
      var more := if ok then failed else failed + {i as nat};
      ResetNext(old(kernel.policies), assignments, failed, i, more);
      failed := more;
    }
    assert assignments[..|assignments|] == assignments;
  }

  /** How an application ended: nothing was called, the call for assignment
      `failedAt` was refused, or all went through. */
  datatype Outcome =
    | Rejected
    | RolledBack(assignments: seq<Assignment>, failedAt: nat, notReset: set<nat>)
    | Complete(assignments: seq<Assignment>)

  ghost predicate IsOutcome(before: Policies, after: Policies, o: Outcome) {
    match o
    case Rejected => after == before
    case RolledBack(assignments, k, notReset) =>
      k < |assignments| && after == Reset(Applied(before, assignments[..k]), assignments[..k], notReset)
    case Complete(assignments) => after == Applied(before, assignments)
  }

  /** A refused call ends the application, and each further refusal is a reset that failed. */
  predicate CountsRefusals(o: Outcome, refused: int) {
    if o.RolledBack? then refused == 1 + |o.notReset| && forall j :: j in o.notReset ==> j < o.failedAt
    else refused == 0
  }

  method ApplyAll(kernel: Kernel, assignments: seq<Assignment>) returns (o: Outcome)
    modifies kernel
    ensures !o.Rejected? && o.assignments == assignments
    ensures IsOutcome(old(kernel.policies), kernel.policies, o)
    ensures CountsRefusals(o, kernel.refusals - old(kernel.refusals))
  {
    for i := 0 to |assignments|
      invariant kernel.policies == Applied(old(kernel.policies), assignments[..i])
      invariant kernel.refusals == old(kernel.refusals)
    {
      AppliedNext(old(kernel.policies), assignments, i);
      var ok := kernel.SetScheduler(assignments[i].tid, assignments[i].policy);
      if !ok {
        var notReset := RestoreOther(kernel, assignments[..i]);
        return RolledBack(assignments, i, notReset);
      }
    }
    assert assignments[..|assignments|] == assignments;
    return Complete(assignments);
  }

  predicate Touches(assignments: seq<Assignment>, tid: int) {
    exists j :: 0 <= j < |assignments| && assignments[j].tid == tid
  }

  lemma TouchesLast(assignments: seq<Assignment>, tid: int)
    requires assignments != []
    ensures var n := |assignments| - 1;
            Touches(assignments, tid) <==> Touches(assignments[..n], tid) || assignments[n].tid == tid
  {
    var n := |assignments| - 1;
    if j :| 0 <= j < n && assignments[..n][j].tid == tid {
      assert assignments[j].tid == tid;
    }
    if j :| 0 <= j < n && assignments[j].tid == tid {
      assert assignments[..n][j].tid == tid;
    }
  }

  function PolicyIn(policies: Policies, tid: int): Option<Policy> {
    if tid in policies then Some(policies[tid]) else None
  }

  lemma {:induction false} AppliedElsewhere(before: Policies, assignments: seq<Assignment>, tid: int)
    requires !Touches(assignments, tid)
    ensures PolicyIn(Applied(before, assignments), tid) == PolicyIn(before, tid)
  {
    if assignments != [] {
      TouchesLast(assignments, tid);
      AppliedElsewhere(before, assignments[..|assignments| - 1], tid);
    }
  }

  lemma {:induction false} ResetPolicy(before: Policies, assignments: seq<Assignment>, tid: int)
    ensures PolicyIn(Reset(before, assignments, {}), tid) ==
            if Touches(assignments, tid) then Some(Other) else PolicyIn(before, tid)
  {
    if assignments != [] {
      TouchesLast(assignments, tid);
      ResetPolicy(before, assignments[..|assignments| - 1], tid);
    }
  }

  /** A refused call at any thread leaves the threads changed before it at
      SCHED_OTHER and every other thread as it was, if no reset is refused. */
  lemma RollbackIsComplete(
      before: Policies, after: Policies, assignments: seq<Assignment>, k: nat, tid: int)
    requires IsOutcome(before, after, RolledBack(assignments, k, {}))
    ensures PolicyIn(after, tid) == if Touches(assignments[..k], tid) then Some(Other) else PolicyIn(before, tid)
  {
    var changed := assignments[..k];
    ResetPolicy(Applied(before, changed), changed, tid);
    if !Touches(changed, tid) {
      AppliedElsewhere(before, changed, tid);
    }
  }

  predicate DistinctTids(assignments: seq<Assignment>) {
    forall i, j :: 0 <= i < j < |assignments| ==> assignments[i].tid != assignments[j].tid
  }

  /** A complete application gives every thread its own policy. */
  lemma {:induction false} EveryThreadGetsItsPolicy(before: Policies, assignments: seq<Assignment>, j: nat)
    requires DistinctTids(assignments) && j < |assignments|
    ensures PolicyIn(Applied(before, assignments), assignments[j].tid) == Some(assignments[j].policy)
  {
    var n := |assignments| - 1;
    if j < n {
      EveryThreadGetsItsPolicy(before, assignments[..n], j);
    }
  }

  // ----- SCHED_DEADLINE

  /** Entry `e` is assigned to its live thread with policy `p`. */
  predicate IsFor(a: Assignment, e: Entry, live: Live, p: Policy) {
    a.id == IdOf(e) && a.id in live && a.tid == live[a.id] && a.policy == p
  }

  predicate AcceptsDeadline(rows: seq<Entry>, threads: seq<Thread>, requireAll: bool) {
    && Loadable(rows)
    && (requireAll ==> |rows| == |threads|) && |rows| <= |threads|
    && Matches(NarrowedRows(rows), LiveMap(threads))
  }

  predicate AssignsDeadline(assignments: seq<Assignment>, profile: seq<Entry>, live: Live) {
    && |assignments| == |profile|
    && forall i :: 0 <= i < |profile| ==>
                     IsFor(assignments[i], profile[i], live,
                           Deadline(profile[i].runtime, profile[i].deadline, profile[i].period))
  }

  method MatchDeadline(profile: seq<Entry>, live: Live) returns (assignments: Option<seq<Assignment>>)
    ensures assignments.Some? <==> Matches(profile, live)
    ensures assignments.Some? ==> AssignsDeadline(assignments.value, profile, live)
  {
    var found: seq<Assignment> := [];
    for i := 0 to |profile|
      invariant Matches(profile[..i], live) && AssignsDeadline(found, profile[..i], live)
    {
      var e := profile[i];
      if IdOf(e) !in live {
        return None;
      }
      found := found + [Assignment(live[IdOf(e)], IdOf(e), Deadline(e.runtime, e.deadline, e.period))];
    }
    assert profile[..|profile|] == profile;
    return Some(found);
  }

  method ApplyDeadline(kernel: Kernel, rows: seq<Entry>, threads: seq<Thread>, requireAll: bool) returns (o: Outcome)
    modifies kernel
    ensures IsOutcome(old(kernel.policies), kernel.policies, o)
    ensures o.Rejected? <==> !AcceptsDeadline(rows, threads, requireAll)
    ensures CountsRefusals(o, kernel.refusals - old(kernel.refusals))
    ensures !o.Rejected? ==> AssignsDeadline(o.assignments, NarrowedRows(rows), LiveMap(threads))
  {
    var loaded := LoadProfile(rows);
    if loaded.Failure? {
      return Rejected;
    }
    var profile := loaded.value;
    var live := BuildLive(threads);
    LiveCount(threads);
    if requireAll && |live| != |profile| {
      return Rejected;
    }
    if |profile| > |live| {
      return Rejected;
    }
    var assignments := MatchDeadline(profile, live);
    if assignments.None? {
      return Rejected;
    }
    o := ApplyAll(kernel, assignments.value);
  }

  // ----- rate-monotonic

  datatype Band = Band(minimum: int, maximum: int, highest: int)

  /** The lowest priority given out. */
  function LowestPriority(profile: seq<Entry>, highest: int): int {
    highest - |PeriodsOf(profile)| + 1
  }

  predicate AcceptsRateMonotonic(rows: seq<Entry>, threads: seq<Thread>, band: Band) {
    && band.minimum >= 0 && band.maximum >= 0 && band.minimum <= band.highest <= band.maximum
    && Loadable(rows) && |rows| == |threads|
    && LowestPriority(NarrowedRows(rows), band.highest) >= band.minimum
    && Matches(NarrowedRows(rows), LiveMap(threads))
  }

  predicate AssignsFixed(
      assignments: seq<Assignment>, profile: seq<Entry>, live: Live, roundRobin: bool, priorities: map<int, int>) {
    && |assignments| == |profile|
    && forall i :: 0 <= i < |profile| ==>
                     && profile[i].period in priorities
                     && IsFor(assignments[i], profile[i], live, Fixed(roundRobin, priorities[profile[i].period]))
  }

  /** The assignments follow a table of priorities that is inverse to the periods. */
  ghost predicate AssignsRateMonotonic(
      assignments: seq<Assignment>, profile: seq<Entry>, live: Live, roundRobin: bool, highest: int) {
    exists priorities :: && ArePriorities(PeriodsOf(profile), highest, priorities)
                         && AssignsFixed(assignments, profile, live, roundRobin, priorities)
  }

  method MatchFixed(profile: seq<Entry>, live: Live, roundRobin: bool, priorities: map<int, int>)
    returns (assignments: Option<seq<Assignment>>)
    requires forall i :: 0 <= i < |profile| ==> profile[i].period in priorities
    ensures assignments.Some? <==> Matches(profile, live)
    ensures assignments.Some? ==> AssignsFixed(assignments.value, profile, live, roundRobin, priorities)
  {
    var found: seq<Assignment> := [];
    for i := 0 to |profile|
      invariant Matches(profile[..i], live) && AssignsFixed(found, profile[..i], live, roundRobin, priorities)
    {
      var e := profile[i];
      if IdOf(e) !in live {
        return None;
      }
      found := found + [Assignment(live[IdOf(e)], IdOf(e), Fixed(roundRobin, priorities[e.period]))];
    }
    assert profile[..|profile|] == profile;
    return Some(found);
  }

  method ApplyRateMonotonic(kernel: Kernel, rows: seq<Entry>, threads: seq<Thread>, roundRobin: bool, band: Band)
    returns (o: Outcome)
    modifies kernel
    ensures IsOutcome(old(kernel.policies), kernel.policies, o)
    ensures o.Rejected? <==> !AcceptsRateMonotonic(rows, threads, band)
    ensures CountsRefusals(o, kernel.refusals - old(kernel.refusals))
    ensures !o.Rejected? ==>
              AssignsRateMonotonic(o.assignments, NarrowedRows(rows), LiveMap(threads), roundRobin, band.highest)
  {
    if band.minimum < 0 || band.maximum < 0 || band.highest < band.minimum || band.highest > band.maximum {
      return Rejected;
    }
    var loaded := LoadProfile(rows);
    if loaded.Failure? {
      return Rejected;
    }
    var profile := loaded.value;
    var live := BuildLive(threads);
    LiveCount(threads);
    if |live| != |profile| {
      return Rejected;
    }
    var periods := DistinctPeriods(profile);
    PeriodsMeaning(profile);
    if band.highest - |periods| + 1 < band.minimum {
      return Rejected;
    }
    var priorities := AssignPriorities(periods, band.highest);
    var assignments := MatchFixed(profile, live, roundRobin, priorities);
    if assignments.None? {
      return Rejected;
    }
    o := ApplyAll(kernel, assignments.value);
  }

  /** Accepted rate-monotonic assignments order priorities strictly inversely to
      the periods, with equal periods sharing one. */
  lemma RateMonotonicOrder(
      assignments: seq<Assignment>, profile: seq<Entry>, live: Live, roundRobin: bool, highest: int, i: nat, j: nat)
    requires AssignsRateMonotonic(assignments, profile, live, roundRobin, highest) && i < |profile| && j < |profile|
    ensures assignments[i].policy.Fixed? && assignments[j].policy.Fixed?
    ensures profile[i].period < profile[j].period <==> assignments[i].policy.priority > assignments[j].policy.priority
    ensures profile[i].period == profile[j].period <==> assignments[i].policy.priority == assignments[j].policy.priority
  {
    var priorities :| && ArePriorities(PeriodsOf(profile), highest, priorities)
                      && AssignsFixed(assignments, profile, live, roundRobin, priorities);
    PeriodsMeaning(profile);
    PrioritiesAreInverse(PeriodsOf(profile), highest, priorities, profile[i].period, profile[j].period);
    PrioritiesAreInverse(PeriodsOf(profile), highest, priorities, profile[j].period, profile[i].period);
  }

  /** They use exactly the priorities from the lowest to the highest. */
  lemma RateMonotonicFillsBand(
      assignments: seq<Assignment>, profile: seq<Entry>, live: Live, roundRobin: bool, highest: int, priority: int)
    requires AssignsRateMonotonic(assignments, profile, live, roundRobin, highest)
    ensures LowestPriority(profile, highest) <= priority <= highest <==>
            exists i :: 0 <= i < |assignments| && assignments[i].policy == Fixed(roundRobin, priority)
  {
    var priorities :| && ArePriorities(PeriodsOf(profile), highest, priorities)
                      && AssignsFixed(assignments, profile, live, roundRobin, priorities);
    PeriodsMeaning(profile);
    BandIsFilled(PeriodsOf(profile), highest, priorities, priority);
    if LowestPriority(profile, highest) <= priority <= highest {
      var p :| p in PeriodsOf(profile) && p in priorities && priorities[p] == priority;
      var i :| 0 <= i < |profile| && profile[i].period == p;
      assert assignments[i].policy == Fixed(roundRobin, priority);
    }
    assert forall i :: 0 <= i < |profile| ==> profile[i].period in PeriodsOf(profile);
  }

  /** Accepted: every live thread has exactly one assignment. */
  lemma {:induction false} EveryThreadAssignedOnce(
      rows: seq<Entry>, threads: seq<Thread>, band: Band, assignments: seq<Assignment>, roundRobin: bool, i: nat)
    requires AcceptsRateMonotonic(rows, threads, band) && i < |threads|
    requires AssignsRateMonotonic(assignments, NarrowedRows(rows), LiveMap(threads), roundRobin, band.highest)
    ensures var id := IdentityAt(Roles(threads), i);
            && (exists j :: 0 <= j < |assignments| && assignments[j].id == id && assignments[j].tid == threads[i].tid)
            && (forall j, k :: 0 <= j < k < |assignments| ==> assignments[j].id != assignments[k].id)
  {
    var profile, id := NarrowedRows(rows), IdentityAt(Roles(threads), i);
    LiveCount(threads);
    FullProfileNamesAll(profile, threads, i);
    LiveThread(threads, i);
    var j :| 0 <= j < |profile| && IdOf(profile[j]) == id;
    assert assignments[j].id == id && assignments[j].tid == threads[i].tid;
  }

  // ----- the policy every live thread ends up with

  /** Live threads have different thread numbers. */
  predicate DistinctThreads(threads: seq<Thread>) {
    forall i, j :: 0 <= i < j < |threads| ==> threads[i].tid != threads[j].tid
  }

  lemma LiveIsInjective(threads: seq<Thread>, a: Identity, b: Identity)
    requires DistinctThreads(threads) && a in LiveMap(threads) && b in LiveMap(threads)
    requires LiveMap(threads)[a] == LiveMap(threads)[b]
    ensures a == b
  {
    LiveIdentities(threads, a);
    LiveIdentities(threads, b);
    var i := RanksAreDense(Roles(threads), a.0, a.1);
    var j := RanksAreDense(Roles(threads), b.0, b.1);
    LiveThread(threads, i);
    LiveThread(threads, j);
  }

  /** The assignments name the live threads of the entries. */
  predicate AssignsLive(assignments: seq<Assignment>, profile: seq<Entry>, live: Live) {
    && |assignments| == |profile|
    && forall i :: 0 <= i < |profile| ==>
                     && assignments[i].id == IdOf(profile[i])
                     && assignments[i].id in live && assignments[i].tid == live[assignments[i].id]
  }

  lemma TidsDiffer(assignments: seq<Assignment>, profile: seq<Entry>, threads: seq<Thread>)
    requires DistinctThreads(threads) && Unique(profile) && AssignsLive(assignments, profile, LiveMap(threads))
    ensures DistinctTids(assignments)
  {
    forall i, j | 0 <= i < j < |assignments| ensures assignments[i].tid != assignments[j].tid {
      assert IdOf(profile[i]) != IdOf(profile[j]);
      if assignments[i].tid == assignments[j].tid {
        LiveIsInjective(threads, assignments[i].id, assignments[j].id);
      }
    }
  }

  lemma TouchedHasRow(
      assignments: seq<Assignment>, profile: seq<Entry>, threads: seq<Thread>, i: nat)
    requires DistinctThreads(threads) && AssignsLive(assignments, profile, LiveMap(threads)) && i < |threads|
    requires Touches(assignments, threads[i].tid)
    ensures HasRow(profile, IdentityAt(Roles(threads), i))
  {
    var j :| 0 <= j < |assignments| && assignments[j].tid == threads[i].tid;
    LiveThread(threads, i);
    LiveIsInjective(threads, assignments[j].id, IdentityAt(Roles(threads), i));
    assert IdOf(profile[j]) == assignments[j].id;
  }

  /** A thread with an entry gets the policy assigned for it, any other thread keeps its own. */
  lemma PolicyOfThread(
      before: Policies, assignments: seq<Assignment>, profile: seq<Entry>, threads: seq<Thread>, i: nat)
    requires DistinctThreads(threads) && Unique(profile) && AssignsLive(assignments, profile, LiveMap(threads))
    requires i < |threads|
    ensures var id, now := IdentityAt(Roles(threads), i), PolicyIn(Applied(before, assignments), threads[i].tid);
            && (forall j :: 0 <= j < |profile| && IdOf(profile[j]) == id ==> now == Some(assignments[j].policy))
            && (!HasRow(profile, id) ==> now == PolicyIn(before, threads[i].tid))
  {
    var id := IdentityAt(Roles(threads), i);
    LiveThread(threads, i);
    TidsDiffer(assignments, profile, threads);
    forall j | 0 <= j < |profile| && IdOf(profile[j]) == id
      ensures PolicyIn(Applied(before, assignments), threads[i].tid) == Some(assignments[j].policy)
    {
      EveryThreadGetsItsPolicy(before, assignments, j);
    }
    if Touches(assignments, threads[i].tid) {
      TouchedHasRow(assignments, profile, threads, i);
    } else {
      AppliedElsewhere(before, assignments, threads[i].tid);
    }
  }

  /** After a complete deadline application every live thread has the parameters
      of the entry for its role and rank, or no entry and its old policy. */
  lemma {:induction false} DeadlineReachesThreads(
      rows: seq<Entry>, threads: seq<Thread>, requireAll: bool, before: Policies, after: Policies,
      assignments: seq<Assignment>, i: nat)
    requires AcceptsDeadline(rows, threads, requireAll) && DistinctThreads(threads) && i < |threads|
    requires AssignsDeadline(assignments, NarrowedRows(rows), LiveMap(threads))
    requires IsOutcome(before, after, Complete(assignments))
    ensures var profile, id := NarrowedRows(rows), IdentityAt(Roles(threads), i);
            && (forall j :: 0 <= j < |profile| && IdOf(profile[j]) == id ==>
                              PolicyIn(after, threads[i].tid) ==
                              Some(Deadline(profile[j].runtime, profile[j].deadline, profile[j].period)))
            && (!HasRow(profile, id) ==> PolicyIn(after, threads[i].tid) == PolicyIn(before, threads[i].tid))
            && (requireAll ==> HasRow(profile, id))
  {
    PolicyOfThread(before, assignments, NarrowedRows(rows), threads, i);
    LiveCount(threads);
    if requireAll {
      FullProfileNamesAll(NarrowedRows(rows), threads, i);
    }
  }

  /** After a complete rate-monotonic application every live thread has an entry
      for its role and rank, and the fixed policy assigned for it. */
  lemma {:induction false} RateMonotonicReachesThreads(
      rows: seq<Entry>, threads: seq<Thread>, roundRobin: bool, band: Band, before: Policies, after: Policies,
      assignments: seq<Assignment>, i: nat)
    requires AcceptsRateMonotonic(rows, threads, band) && DistinctThreads(threads) && i < |threads|
    requires AssignsRateMonotonic(assignments, NarrowedRows(rows), LiveMap(threads), roundRobin, band.highest)
    requires IsOutcome(before, after, Complete(assignments))
    ensures var profile, id := NarrowedRows(rows), IdentityAt(Roles(threads), i);
            && HasRow(profile, id)
            && forall j :: 0 <= j < |profile| && IdOf(profile[j]) == id ==>
                             && assignments[j].policy.Fixed? && assignments[j].policy.roundRobin == roundRobin
                             && PolicyIn(after, threads[i].tid) == Some(assignments[j].policy)
  {
    PolicyOfThread(before, assignments, NarrowedRows(rows), threads, i);
    LiveCount(threads);
    FullProfileNamesAll(NarrowedRows(rows), threads, i);
  }
}
