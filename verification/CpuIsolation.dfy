/** Reversible CPU partitioning (tools/realsense_bench_common/cpu_isolation.py).

    The system files the program writes are fields of `System`.  A write, a read
    or a check may fail; a failed write changes nothing. */
module CpuIsolation {
  import opened Wrappers
  import opened Numbers
  import opened Sequences
  import opened OrderedDict

  type Affinity = string

  datatype Irq = Irq(number: nat)

  datatype Place = Benchmark | Elsewhere(path: string)

  datatype Partition = Partition(mems: string, cpus: string, isolated: bool)

  datatype System = System(
    controller: bool,
    benchmark: Option<Partition>,
    affinities: map<Irq, Affinity>,
    process: Place)

  class Machine {
    var system: System
    /** Writes, reads and checks that have failed so far. */
    ghost var failures: nat

    constructor (system: System)
      ensures this.system == system && failures == 0
    {
      this.system := system;
      failures := 0;
    }

    /** Whether an operation that could go through does. */
    method Attempt(possible: bool) returns (ok: bool)
      modifies this`failures
      ensures ok ==> possible
      ensures failures == old(failures) + if ok then 0 else 1
    {
      ok := *;
      ok := ok && possible;
      failures := failures + if ok then 0 else 1;
    }

    method WriteController(on: bool) returns (ok: bool)
      modifies this
      ensures system == if ok then old(system).(controller := on) else old(system)
      ensures failures == old(failures) + if ok then 0 else 1
    {
      ok := Attempt(true);
      if ok {
        system := system.(controller := on);
      }
    }

    method MakeCgroup() returns (ok: bool)
      modifies this
      ensures system == if ok then old(system).(benchmark := Some(Partition("", "", false))) else old(system)
      ensures ok ==> old(system).benchmark.None?
      ensures failures == old(failures) + if ok then 0 else 1
    {
      ok := Attempt(system.benchmark.None?);
      if ok {
        system := system.(benchmark := Some(Partition("", "", false)));
      }
    }

    method WritePartition(p: Partition) returns (ok: bool)
      modifies this
      ensures ok ==> old(system).benchmark.Some?
      ensures system == if ok then old(system).(benchmark := Some(p)) else old(system)
      ensures failures == old(failures) + if ok then 0 else 1
    {
      ok := Attempt(system.benchmark.Some?);
      if ok {
        system := system.(benchmark := Some(p));
      }
    }

    /** A cgroup that holds a process cannot be removed. */
    method RemoveCgroup() returns (ok: bool)
      modifies this
      ensures system == if ok then old(system).(benchmark := None) else old(system)
      ensures ok ==> old(system).process != Benchmark
      ensures failures == old(failures) + if ok then 0 else 1
    {
      ok := Attempt(system.process != Benchmark);
      if ok {
        system := system.(benchmark := None);
      }
    }

    method ReadAffinity(irq: Irq) returns (affinity: Option<Affinity>)
      modifies this`failures
      ensures affinity.Some? ==> irq in system.affinities && affinity.value == system.affinities[irq]
      ensures failures == old(failures) + if affinity.Some? then 0 else 1
    {
      var ok := Attempt(irq in system.affinities);
      affinity := if ok then Some(system.affinities[irq]) else None;
    }

    method WriteAffinity(irq: Irq, affinity: Affinity) returns (ok: bool)
      modifies this
      ensures system == if ok then old(system).(affinities := old(system).affinities[irq := affinity]) else old(system)
      ensures failures == old(failures) + if ok then 0 else 1
    {
      ok := Attempt(true);
      if ok {
        system := system.(affinities := system.affinities[irq := affinity]);
      }
    }

    method MoveProcess(place: Place) returns (ok: bool)
      modifies this
      ensures system == if ok then old(system).(process := place) else old(system)
      ensures failures == old(failures) + if ok then 0 else 1
    {
      ok := Attempt(true);
      if ok {
        system := system.(process := place);
      }
    }

    /** Any read or comparison whose value does not matter here. */
    method Check() returns (ok: bool)
      modifies this`failures
      ensures failures == old(failures) + if ok then 0 else 1
    {
      ok := Attempt(true);
    }
  }

  /** What `restore` has to undo. */
  datatype Undo = Undo(
    controllerEnabled: bool,
    cgroupCreated: bool,
    processMoved: bool,
    origin: Option<Place>,
    affinities: Dict<Irq, Affinity>)

  const NOTHING_TO_UNDO := Undo(false, false, false, None, Dict([], map[]))

  predicate Clean(u: Undo) {
    !u.controllerEnabled && !u.cgroupCreated && !u.processMoved && u.affinities.keys == []
  }

  /** The affinities that were changed are recorded with their original value. */
  predicate AffinitiesTracked(before: map<Irq, Affinity>, now: map<Irq, Affinity>, saved: Dict<Irq, Affinity>) {
    && Valid(saved) && now.Keys == before.Keys && saved.items.Keys <= before.Keys
    && (forall irq :: irq in saved.items ==> saved.items[irq] == before[irq])
    && (forall irq :: irq in now && irq !in saved.items ==> now[irq] == before[irq])
  }

  /** The system is the original one except for what the record says. */
  predicate Tracks(before: System, now: System, u: Undo) {
    && before.benchmark.None? && before.process != Benchmark
    && (if u.controllerEnabled then now.controller && !before.controller else now.controller == before.controller)
    && (!u.cgroupCreated ==> now.benchmark == before.benchmark)
    && (if u.processMoved then now.process == Benchmark && u.origin == Some(before.process)
        else now.process == before.process)
    && AffinitiesTracked(before.affinities, now.affinities, u.affinities)
  }

  lemma CleanMeansUnchanged(before: System, now: System, u: Undo)
    requires Tracks(before, now, u) && Clean(u)
    ensures now == before
  {
    forall irq | irq in now.affinities ensures now.affinities[irq] == before.affinities[irq] {
      assert irq !in Elems(u.affinities.keys);
    }
    assert now.affinities == before.affinities;
  }

  lemma TrackAffinity(
      before: map<Irq, Affinity>, now: map<Irq, Affinity>, saved: Dict<Irq, Affinity>, irq: Irq, wanted: Affinity)
    requires AffinitiesTracked(before, now, saved) && irq !in saved.items && irq in now
    ensures AffinitiesTracked(before, now, Put(saved, irq, now[irq]))
    ensures AffinitiesTracked(before, now[irq := wanted], Put(saved, irq, now[irq]))
  {
    PutValid(saved, irq, now[irq]);
  }

  datatype Outcome =
    | Unchanged
    | Rejected
    | Ready
    | Failed
    | FailedDirty

  /** Each of the interrupts is served by these CPUs. */
  predicate Pinned(irqs: seq<Irq>, cpus: Affinity, affinities: map<Irq, Affinity>) {
    forall i :: 0 <= i < |irqs| ==> irqs[i] in affinities && affinities[irqs[i]] == cpus
  }

  /** The benchmark runs in an isolated partition, away from the interrupts. */
  predicate Partitioned(s: System, irqs: seq<Irq>, housekeeping: Affinity, mems: string, benchmark: string) {
    && s.controller && s.benchmark == Some(Partition(mems, benchmark, true)) && s.process == Benchmark
    && Pinned(irqs, housekeeping, s.affinities)
  }

  /** The interrupts whose affinity is not the same. */
  function Differing(a: map<Irq, Affinity>, b: map<Irq, Affinity>): set<Irq>
    requires a.Keys == b.Keys
  {
    set irq | irq in a && a[irq] != b[irq]
  }

  /** How many of the settings differ. */
  function Differences(a: System, b: System): nat
    requires a.affinities.Keys == b.affinities.Keys
  {
    One(a.process != b.process) + |Differing(a.affinities, b.affinities)|
    + One(a.benchmark != b.benchmark) + One(a.controller != b.controller)
  }

  lemma NoDifference(a: System, b: System)
    requires a.affinities.Keys == b.affinities.Keys && Differences(a, b) == 0
    ensures a == b
  {
    forall irq | irq in a.affinities ensures a.affinities[irq] == b.affinities[irq] {
      assert irq !in Differing(a.affinities, b.affinities);
    }
    assert a.affinities == b.affinities;
  }

  class Isolation {
    const machine: Machine
    const enabled: bool
    var active: bool
    var undo: Undo
    ghost var original: System

    constructor (machine: Machine, enabled: bool)
      ensures this.machine == machine && this.enabled == enabled
      ensures !active && Clean(undo)
    {
      this.machine, this.enabled := machine, enabled;
      active := false;
      undo := NOTHING_TO_UNDO;
    }

    ghost predicate Intact()
      reads this, machine
    {
      Tracks(original, machine.system, undo)
    }

    method PinIrq(irq: Irq, housekeeping: Affinity) returns (ok: bool)
      requires Intact() && irq !in undo.affinities.items
      modifies this`undo, machine
      ensures Intact() && undo == old(undo).(affinities := undo.affinities)
      ensures undo.affinities.items.Keys <= old(undo.affinities.items.Keys) + {irq}
      ensures machine.system == old(machine.system).(affinities := machine.system.affinities)
      ensures ok ==> machine.system.affinities == old(machine.system.affinities)[irq := housekeeping]
      ensures machine.failures == old(machine.failures) + if ok then 0 else 1
    {
      var saved := machine.ReadAffinity(irq);
      if saved.None? {
        return false;
      }
      TrackAffinity(original.affinities, machine.system.affinities, undo.affinities, irq, housekeeping);
      undo := undo.(affinities := Put(undo.affinities, irq, saved.value));
      ok := machine.WriteAffinity(irq, housekeeping);
      if !ok {
        return false;
      }
      ok := machine.Check();
    }

    method PinIrqs(irqs: seq<Irq>, housekeeping: Affinity) returns (ok: bool)
      requires Intact() && forall i, j :: 0 <= i < j < |irqs| ==> irqs[i] != irqs[j]
      requires undo.affinities.keys == []
      modifies this`undo, machine
      ensures Intact() && undo == old(undo).(affinities := undo.affinities)
      ensures machine.system == old(machine.system).(affinities := machine.system.affinities)
      ensures ok ==> Pinned(irqs, housekeeping, machine.system.affinities)
      ensures machine.failures == old(machine.failures) + if ok then 0 else 1
    {
      for i := 0 to |irqs|
        invariant Intact() && undo == old(undo).(affinities := undo.affinities)
        invariant machine.system == old(machine.system).(affinities := machine.system.affinities)
        invariant forall irq :: irq in undo.affinities.items ==> irq in irqs[..i]
        invariant Pinned(irqs[..i], housekeeping, machine.system.affinities)
        invariant machine.failures == old(machine.failures)
      {
        ok := PinIrq(irqs[i], housekeeping);
        if !ok {
          return false;
        }
        assert irqs[..i + 1] == irqs[..i] + [irqs[i]];
      }
      assert irqs[..|irqs|] == irqs;
      return true;
    }

    method CreateCgroup(mems: string, benchmark: string) returns (ok: bool)
      requires Intact() && !undo.controllerEnabled && !undo.cgroupCreated
      modifies this`undo, machine
      ensures Intact()
      ensures undo == old(undo).(controllerEnabled := undo.controllerEnabled, cgroupCreated := undo.cgroupCreated)
      ensures machine.system.process == old(machine.system.process)
      ensures machine.system.affinities == old(machine.system.affinities)
      ensures ok ==> machine.system.controller && machine.system.benchmark == Some(Partition(mems, benchmark, true))
      ensures machine.failures == old(machine.failures) + if ok then 0 else 1
    {
      if !machine.system.controller {
        ok := machine.WriteController(true);
        if !ok {
          return false;
        }
        undo := undo.(controllerEnabled := true);
      }
      ok := machine.MakeCgroup();
      if !ok {
        return false;
      }
      undo := undo.(cgroupCreated := true);
      ok := machine.WritePartition(Partition(mems, "", false));
      if !ok {
        return false;
      }
      ok := machine.WritePartition(Partition(mems, benchmark, false));
      if !ok {
        return false;
      }
      ok := machine.WritePartition(Partition(mems, benchmark, true));
    }

    /** The guarded part of `prepare`, up to the first failure. */
    method Setup(irqs: seq<Irq>, housekeeping: Affinity, mems: string, benchmark: string) returns (ok: bool)
      requires Intact() && Clean(undo) && undo.origin == Some(machine.system.process)
      requires forall i, j :: 0 <= i < j < |irqs| ==> irqs[i] != irqs[j]
      modifies this`undo, this`active, machine
      ensures Intact()
      ensures ok ==> active && Partitioned(machine.system, irqs, housekeeping, mems, benchmark)
      ensures machine.failures == old(machine.failures) + if ok then 0 else 1
    {
      ok := CreateCgroup(mems, benchmark);
      if !ok {
        return false;
      }
      ok := PinIrqs(irqs, housekeeping);
      if !ok {
        return false;
      }
      ok := machine.MoveProcess(Benchmark);
      if !ok {
        return false;
      }
      undo := undo.(processMoved := true);
      ok := machine.Check();
      if !ok {
        return false;
      }
      active := true;
      ok := machine.Check();
    }

    method RestoreAffinities() returns (errors: nat)
      requires AffinitiesTracked(original.affinities, machine.system.affinities, undo.affinities)
      modifies this`undo, machine
      ensures undo == old(undo).(affinities := Dict([], map[]))
      ensures machine.system == old(machine.system).(affinities := machine.system.affinities)
      ensures machine.system.affinities.Keys == original.affinities.Keys
      ensures |Differing(machine.system.affinities, original.affinities)| <= errors
      ensures machine.failures == old(machine.failures) + errors
    {
      errors := 0;
      var saved := undo.affinities;
      ghost var failed: set<Irq> := {};
      for i := 0 to |saved.keys|
        invariant undo == old(undo)
        invariant machine.system == old(machine.system).(affinities := machine.system.affinities)
        invariant AffinitiesTracked(original.affinities, machine.system.affinities, saved)
        invariant |failed| <= errors
        invariant forall j :: 0 <= j < i ==> saved.keys[j] in failed || RestoredAt(saved.keys[j])
        invariant machine.failures == old(machine.failures) + errors
      {
        var irq := saved.keys[i];
        assert irq in Elems(saved.keys);
        var ok := machine.WriteAffinity(irq, saved.items[irq]);
        if !ok {
          AddElem(failed, irq);
          failed := failed + {irq};
          errors := errors + 1;
        }
      }
      undo := undo.(affinities := Dict([], map[]));
      forall irq | irq in machine.system.affinities ensures irq in failed || RestoredAt(irq) {
        if irq in saved.items {
          assert irq in Elems(saved.keys);
          var j :| 0 <= j < |saved.keys| && saved.keys[j] == irq;
          assert saved.keys[j] in failed || RestoredAt(saved.keys[j]);
        }
      }
      SubsetSize(Differing(machine.system.affinities, original.affinities), failed);
    }

    ghost predicate RestoredAt(irq: Irq)
      reads this, machine
    {
      && irq in machine.system.affinities && irq in original.affinities
      && machine.system.affinities[irq] == original.affinities[irq]
    }

    method RestoreProcess() returns (errors: nat)
      requires undo.processMoved ==> undo.origin.Some?
      modifies this`undo, machine
      ensures undo == old(undo).(processMoved := undo.processMoved)
      ensures errors == 0 ==> !undo.processMoved
      ensures machine.system ==
              if errors == 0 && old(undo).processMoved
              then old(machine.system).(process := old(undo).origin.value) else old(machine.system)
      ensures machine.failures == old(machine.failures) + errors
    {
      errors := 0;
      if undo.processMoved {
        var target := if undo.origin.Some? then undo.origin.value else Elsewhere("/");
        var ok := machine.MoveProcess(target);
        if ok {
          undo := undo.(processMoved := false);
        } else {
          errors := 1;
        }
      }
    }

    method RemoveBenchmark() returns (errors: nat)
      modifies this`undo, machine
      ensures undo == old(undo).(cgroupCreated := undo.cgroupCreated)
      ensures errors == 0 ==> !undo.cgroupCreated
      ensures machine.system == old(machine.system).(benchmark := machine.system.benchmark)
      ensures errors == 0 ==>
                machine.system.benchmark ==
                if old(undo).cgroupCreated then None else old(machine.system).benchmark
      ensures machine.failures == old(machine.failures) + errors
    {
      errors := 0;
      if undo.cgroupCreated {
        var p := if machine.system.benchmark.Some? then machine.system.benchmark.value else Partition("", "", false);
        var ok := machine.WritePartition(p.(isolated := false));
        if ok {
          ok := machine.RemoveCgroup();
        }
        if ok {
          undo := undo.(cgroupCreated := false);
        } else {
          errors := 1;
        }
      }
    }

    method DisableController() returns (errors: nat)
      modifies this`undo, machine
      ensures undo == old(undo).(controllerEnabled := undo.controllerEnabled)
      ensures errors == 0 ==> !undo.controllerEnabled
      ensures machine.system ==
              if errors == 0 && old(undo).controllerEnabled then old(machine.system).(controller := false)
              else old(machine.system)
      ensures machine.failures == old(machine.failures) + errors
    {
      errors := 0;
      if undo.controllerEnabled {
        var ok := machine.WriteController(false);
        if ok {
          undo := undo.(controllerEnabled := false);
        } else {
          errors := 1;
        }
      }
    }

    /** A first call goes on after an error: it reports one for each write that
        failed and leaves at most that many settings other than they were before
        `prepare`, so that without an error the system is the original one. */
    method Restore() returns (errors: nat)
      requires Intact()
      modifies this`undo, this`active, machine
      ensures machine.system.affinities.Keys == original.affinities.Keys
      ensures Differences(machine.system, original) <= errors
      ensures errors == 0 ==> machine.system == original && Clean(undo)
      ensures !active
      ensures machine.failures == old(machine.failures) + errors
    {
      errors := 0;
      if !active && Clean(undo) {
        CleanMeansUnchanged(original, machine.system, undo);
        return;
      }
      var inProcess := RestoreProcess();
      var inAffinities := RestoreAffinities();
      var inCgroup := RemoveBenchmark();
      var inController := DisableController();
      active := false;
      errors := inProcess + inAffinities + inCgroup + inController;
      if errors == 0 {
        NoDifference(machine.system, original);
      }
    }

    /** Sets the partition up exactly when it is wanted, is not there yet and nothing
        fails; every failure is followed by a restore, and one failure alone leaves
        the system as it was. */
    method Prepare(irqs: seq<Irq>, housekeeping: Affinity, mems: string, benchmark: string) returns (o: Outcome)
      requires machine.system.process != Benchmark || active
      requires forall i, j :: 0 <= i < j < |irqs| ==> irqs[i] != irqs[j]
      requires !active ==> Clean(undo)
      modifies this, machine
      ensures o.Unchanged? <==> !enabled || old(active)
      ensures o.Unchanged? || o.Rejected? || o.Failed? ==> machine.system == old(machine.system)
      ensures o.Ready? <==> enabled && !old(active) && old(machine.system).benchmark.None?
                            && machine.failures == old(machine.failures)
      ensures o.Ready? ==> active && Intact() && original == old(machine.system)
      ensures o.Ready? ==> Partitioned(machine.system, irqs, housekeeping, mems, benchmark)
      ensures o.FailedDirty? ==>
                && machine.system.affinities.Keys == old(machine.system).affinities.Keys
                && Differences(machine.system, old(machine.system)) < machine.failures - old(machine.failures)
                && machine.failures >= old(machine.failures) + 2
    {
      if !enabled || active {
        return Unchanged;
      }
      var ok := machine.Check();
      if !ok || machine.system.benchmark.Some? {
        return Rejected;
      }
      undo := NOTHING_TO_UNDO.(origin := Some(machine.system.process));
      original := machine.system;
      ok := Setup(irqs, housekeeping, mems, benchmark);
      if ok {
        return Ready;
      }
      var errors := Restore();
      return if errors == 0 then Failed else FailedDirty;
    }
  }

  /** A prepared run, then the first restore. */
  method PrepareAndRestore(
      isolation: Isolation, irqs: seq<Irq>, housekeeping: Affinity, mems: string, benchmark: string)
    returns (o: Outcome, errors: nat)
    requires !isolation.active && Clean(isolation.undo) && isolation.machine.system.process != Benchmark
    requires forall i, j :: 0 <= i < j < |irqs| ==> irqs[i] != irqs[j]
    modifies isolation, isolation.machine
    ensures !o.FailedDirty? && errors == 0 ==> isolation.machine.system == old(isolation.machine.system)
    ensures !o.FailedDirty? ==>
              && isolation.machine.system.affinities.Keys == old(isolation.machine.system).affinities.Keys
              && Differences(isolation.machine.system, old(isolation.machine.system)) <= errors
              && (o.Ready? ==> isolation.machine.failures == old(isolation.machine.failures) + errors)
  {
    errors := 0;
    o := isolation.Prepare(irqs, housekeeping, mems, benchmark);
    if o.Ready? {
      errors := isolation.Restore();
    }
  }
}
