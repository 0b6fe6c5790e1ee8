/** How often the campaign controller asks for a reboot, and when the boot it
    asked for is accepted. */
module CampaignReboots {
  import opened Wrappers
  import opened Text
  import opened Sequences
  import opened KernelSelection
  import opened Campaign
  import opened CampaignSafety

  // ----- a bound on requested reboots

  predicate Finished(ph: seq<Phase>, s: State, q: nat) {
    q < |ph| && |Stages(ph, q + 1)| <= |s.log.marked|
  }

  predicate Current(ph: seq<Phase>, s: State, q: nat) {
    q < |ph| && |Stages(ph, q)| <= |s.log.marked| < |Stages(ph, q + 1)|
  }

  predicate PendingFor(ph: seq<Phase>, s: State, q: nat) {
    && q < |ph| && s.journal.pending.Some?
    && s.journal.pending.value.variant == ph[q].variant
    && s.journal.pending.value.threaded == ph[q].threaded
  }

  /** A reboot was requested for the phase now in progress, and since then
      neither an unplanned boot nor a resume happened. */
  predicate Outstanding(ph: seq<Phase>, s: State) {
    s.log.lastCharged in s.log.charged && !Finished(ph, s, s.log.lastCharged)
  }

  function Switching(w: Worker): Option<nat> {
    match w
    case WritingCmdline(i, _, _) => Some(i)
    case WritingConfig(i, _) => Some(i)
    case SavingPending(i) => Some(i)
    case Requesting(i) => Some(i)
    case _ => None
  }

  predicate InLoop(w: Worker) {
    w.Looping? || w.Entering? || w.Launching? || w.Acquiring? || w.Confirming?
  }

  predicate OutstandingOk(ph: seq<Phase>, s: State) {
    var q := s.log.lastCharged;
    && Current(ph, s, q)
    && Switching(s.worker).None?
    && (s.rebootIssued ==> s.worker.Off? && PendingFor(ph, s, q))
    && (s.worker.Starting? ==> PendingFor(ph, s, q))
    && (InLoop(s.worker) ==> BootMatches(ph[q].variant, ph[q].threaded, s.boot))
  }

  /** Each requested reboot is paid for by a phase of its own, an unplanned
      boot or a resume. */
  predicate Paid(ph: seq<Phase>, s: State) {
    && s.log.requested <= |s.log.charged| + s.log.unplanned + s.log.resumes
    && (forall q :: q in s.log.charged ==> q < |ph| && (Finished(ph, s, q) || q == s.log.lastCharged))
    && (Outstanding(ph, s) ==> OutstandingOk(ph, s))
    && (Switching(s.worker).Some? ==>
          Current(ph, s, Switching(s.worker).value) && Switching(s.worker).value !in s.log.charged)
    && (s.worker.Requesting? ==> PendingFor(ph, s, s.worker.phase))
  }

  lemma CurrentIsUnique(ph: seq<Phase>, s: State, p: nat, q: nat)
    requires Current(ph, s, p) && Current(ph, s, q)
    ensures p == q
  {
    if p < q {
      StagesExtend(ph, p + 1, q);
    } else if q < p {
      StagesExtend(ph, q + 1, p);
    }
  }

  /** What `next_phase` picks is the phase in progress. */
  lemma PickIsCurrent(ph: seq<Phase>, s: State)
    requires Inv(ph, s)
    ensures var choice := NextPhase(ph, s.valid, s.torn, 0);
            choice.Pick? ==> Current(ph, s, choice.phase)
  {
    PickMeaning(ph, s);
  }

  lemma PickKeepsPaid(ph: seq<Phase>, s: State)
    requires Paid(ph, s) && s.worker.Looping?
    requires var choice := NextPhase(ph, s.valid, s.torn, 0); choice.Pick? ==> Current(ph, s, choice.phase)
    ensures Paid(ph, AfterPick(ph, s))
  {
    var choice := NextPhase(ph, s.valid, s.torn, 0);
    if choice.Pick? && Outstanding(ph, s) {
      CurrentIsUnique(ph, s, choice.phase, s.log.lastCharged);
    }
  }

  lemma RequestKeepsPaid(ph: seq<Phase>, s: State, t: State)
    requires Paid(ph, s) && WorkerStep(ph, s, RequestReboot, t)
    ensures Paid(ph, t)
  {
    assert forall q :: q in s.log.charged ==> Finished(ph, s, q);
  }

  lemma FinishKeepsPaid(ph: seq<Phase>, s: State, t: State)
    requires Paid(ph, s) && WorkerStep(ph, s, FinishAcquisition, t)
    ensures Paid(ph, t)
  {
    assert forall q :: Finished(ph, s, q) ==> Finished(ph, t, q);
  }

  /** Steps that mark no stage and issue no reboot. */
  lemma QuietKeepsPaid(ph: seq<Phase>, s: State, t: State)
    requires Paid(ph, s)
    requires t.log.marked == s.log.marked && t.log.requested == s.log.requested
    requires t.log.charged == s.log.charged && t.log.lastCharged == s.log.lastCharged
    requires t.log.unplanned == s.log.unplanned && t.log.resumes == s.log.resumes
    requires t.boot == s.boot && t.rebootIssued == s.rebootIssued
    requires t.journal.pending == s.journal.pending || (!s.worker.Off? && !t.worker.Starting?)
    requires Switching(t.worker).Some? ==> Switching(s.worker) == Switching(t.worker)
    requires t.worker.Starting? ==> s.worker.Starting?
    requires InLoop(t.worker) ==> InLoop(s.worker) || (s.worker.Starting? && !PendingCheckFails(s))
    requires s.worker.Off? ==> t.worker.Off?
    requires t.worker.Requesting? ==> PendingFor(ph, t, t.worker.phase)
    ensures Paid(ph, t)
  {
    assert forall q :: Finished(ph, t, q) == Finished(ph, s, q) && Current(ph, t, q) == Current(ph, s, q);
  }

  lemma StartKeepsPaid(ph: seq<Phase>, s: State)
    requires Paid(ph, s) && s.worker.Starting?
    ensures Paid(ph, AfterStartChecks(s))
  {
    QuietKeepsPaid(ph, s, AfterStartChecks(s));
  }

  lemma SwitchKeepsPaid(ph: seq<Phase>, s: State, a: Action, t: State)
    requires Paid(ph, s) && WorkerStep(ph, s, a, t) && (a.WriteCmdline? || a.WriteConfig? || a.SavePending?)
    ensures Paid(ph, t)
  {
    QuietKeepsPaid(ph, s, t);
  }

  lemma SwitchingKeepsPaid(ph: seq<Phase>, s: State, a: Action, t: State)
    requires Paid(ph, s) && WorkerStep(ph, s, a, t)
    requires a.WriteCmdline? || a.WriteConfig? || a.SavePending? || a.RequestReboot?
    ensures Paid(ph, t)
  {
    if a.RequestReboot? {
      RequestKeepsPaid(ph, s, t);
    } else {
      SwitchKeepsPaid(ph, s, a, t);
    }
  }

  lemma WorkerStepKeepsPaid(ph: seq<Phase>, s: State, a: Action, t: State)
    requires Paid(ph, s) && WorkerStep(ph, s, a, t)
    requires var choice := NextPhase(ph, s.valid, s.torn, 0); choice.Pick? ==> Current(ph, s, choice.phase)
    ensures Paid(ph, t)
  {
    if a.StartChecks? {
      StartKeepsPaid(ph, s);
    } else if a.PickPhase? {
      PickKeepsPaid(ph, s);
    } else if a.WriteCmdline? || a.WriteConfig? || a.SavePending? || a.RequestReboot? {
      SwitchingKeepsPaid(ph, s, a, t);
    } else if a.FinishAcquisition? {
      FinishKeepsPaid(ph, s, t);
    } else if Ending(a) {
      EndingKeepsPaid(ph, s, a, t);
    } else {
      QuietKeepsPaid(ph, s, t);
    }
  }

  lemma EndingKeepsPaid(ph: seq<Phase>, s: State, a: Action, t: State)
    requires Paid(ph, s) && WorkerStep(ph, s, a, t) && Ending(a)
    ensures Paid(ph, t)
  {
    QuietKeepsPaid(ph, s, t);
  }

  /** An unplanned boot or a resume pays for the phase in progress. */
  lemma PaymentKeepsPaid(ph: seq<Phase>, s: State, t: State)
    requires Paid(ph, s)
    requires t.log.marked == s.log.marked && t.log.requested == s.log.requested
    requires t.log.charged == s.log.charged - {s.log.lastCharged} && t.log.lastCharged == s.log.lastCharged
    requires t.log.unplanned + t.log.resumes == s.log.unplanned + s.log.resumes + 1
    requires t.worker.Off? || t.worker.Starting?
    ensures Paid(ph, t)
  {
    assert s.log.charged <= t.log.charged + {s.log.lastCharged};
    SubsetSize(s.log.charged, t.log.charged + {s.log.lastCharged});
    assert forall q :: Finished(ph, t, q) == Finished(ph, s, q);
  }

  lemma PlannedBootKeepsPaid(ph: seq<Phase>, s: State, a: Action, t: State)
    requires Paid(ph, s) && a.PowerCycle? && OutsideStep(ph, s, a, t) && s.rebootIssued
    ensures Paid(ph, t)
  {
    assert forall q :: Finished(ph, t, q) == Finished(ph, s, q) && Current(ph, t, q) == Current(ph, s, q);
  }

  lemma OutsideStepKeepsPaid(ph: seq<Phase>, s: State, a: Action, t: State)
    requires Paid(ph, s) && OutsideStep(ph, s, a, t)
    ensures Paid(ph, t)
  {
    if a.PowerCycle? && s.rebootIssued {
      PlannedBootKeepsPaid(ph, s, a, t);
    } else if a.PowerCycle? || a.ResumeCommits? {
      PaymentKeepsPaid(ph, s, t);
    } else {
      QuietKeepsPaid(ph, s, t);
    }
  }

  lemma {:induction false} PaidRun(ph: seq<Phase>, run: seq<State>, acts: seq<Action>, i: nat)
    requires CampaignRun(ph, run, acts) && i < |run|
    ensures Paid(ph, run[i])
  {
    if i > 0 {
      PaidRun(ph, run, acts, i - 1);
      InvRun(ph, run, acts, i - 1);
      var s, a, t := run[i - 1], acts[i - 1], run[i];
      assert StepAt(ph, run, acts, i - 1);
      if WorkerStep(ph, s, a, t) {
        PickIsCurrent(ph, s);
        WorkerStepKeepsPaid(ph, s, a, t);
      } else {
        OutsideStepKeepsPaid(ph, s, a, t);
      }
    }
  }

  lemma {:induction false} BoundedSet(a: set<nat>, n: nat)
    requires forall q :: q in a ==> q < n
    ensures |a| <= n
  {
    if n == 0 {
      assert a == {};
    } else {
      BoundedSet(a - {n - 1}, n - 1);
      SubsetSize(a, (a - {n - 1}) + {n - 1});
    }
  }

  /** However the campaign is crashed, booted, stopped and resumed, it asks for
      at most one reboot per phase, per unplanned boot and per resume. */
  lemma RequestedRebootsAreBounded(ph: seq<Phase>, run: seq<State>, acts: seq<Action>, i: nat)
    requires CampaignRun(ph, run, acts) && i < |run|
    ensures run[i].log.requested <= |ph| + run[i].log.unplanned + run[i].log.resumes
  {
    PaidRun(ph, run, acts, i);
    BoundedSet(run[i].log.charged, |ph|);
  }

  /** An unplanned boot or a resume. */
  predicate Pays(s: State, a: Action) {
    a.ResumeCommits? || (a.PowerCycle? && !s.rebootIssued)
  }

  lemma ChargeStays(ph: seq<Phase>, s: State, a: Action, t: State)
    requires Next(ph, s, a, t) && !Pays(s, a)
    ensures s.log.charged <= t.log.charged
  {
  }

  lemma {:induction false} ChargeStaysRun(ph: seq<Phase>, run: seq<State>, acts: seq<Action>, i: nat, j: nat)
    requires IsRun(ph, run, acts) && i <= j < |run|
    requires forall k :: i <= k < j ==> !Pays(run[k], acts[k])
    ensures run[i].log.charged <= run[j].log.charged
    decreases j - i
  {
    if i < j {
      ChargeStaysRun(ph, run, acts, i, j - 1);
      assert StepAt(ph, run, acts, j - 1);
      ChargeStays(ph, run[j - 1], acts[j - 1], run[j]);
    }
  }

  /** After a reboot was requested for a phase, no second one is requested for
      the same phase unless an unplanned boot or a resume came in between. */
  lemma SecondRequestNeedsACause(ph: seq<Phase>, run: seq<State>, acts: seq<Action>, i: nat, j: nat)
    requires CampaignRun(ph, run, acts) && i < j < |acts|
    requires acts[i] == RequestReboot && run[i].worker.Requesting?
    requires acts[j] == RequestReboot && run[j].worker.Requesting?
    requires run[i].worker.phase == run[j].worker.phase
    ensures exists k :: i < k < j && Pays(run[k], acts[k])
  {
    if forall k :: i < k < j ==> !Pays(run[k], acts[k]) {
      assert StepAt(ph, run, acts, i);
      ChargeStaysRun(ph, run, acts, i + 1, j);
      PaidRun(ph, run, acts, j);
    }
  }

  // ----- when the check of a pending boot fails

  predicate PendingUpTo(j: Journal, bootId: nat) {
    j.pending.Some? ==> j.pending.value.bootId <= bootId
  }

  /** A pending boot, on disk or in memory, was requested under this boot or an earlier one. */
  predicate EarlierBoot(s: State) {
    PendingUpTo(s.journal, s.boot.id) && (s.worker.Handling? ==> PendingUpTo(s.worker.memory, s.boot.id))
  }

  lemma {:induction false} EarlierBootRun(ph: seq<Phase>, run: seq<State>, acts: seq<Action>, i: nat)
    requires IsRun(ph, run, acts) && i < |run|
    ensures EarlierBoot(run[i])
  {
    if i > 0 {
      EarlierBootRun(ph, run, acts, i - 1);
      assert StepAt(ph, run, acts, i - 1);
      StepKeepsEarlierBoot(ph, run[i - 1], acts[i - 1], run[i]);
    }
  }

  lemma StepKeepsEarlierBoot(ph: seq<Phase>, s: State, a: Action, t: State)
    requires EarlierBoot(s) && Next(ph, s, a, t)
    ensures EarlierBoot(t)
  {
    if WorkerStep(ph, s, a, t) {
      WorkerKeepsEarlierBoot(ph, s, a, t);
    }
  }

  lemma WorkerKeepsEarlierBoot(ph: seq<Phase>, s: State, a: Action, t: State)
    requires EarlierBoot(s) && WorkerStep(ph, s, a, t)
    ensures EarlierBoot(t)
  {
  }

  /** The boot files select a kernel that the pending boot accepts. */
  predicate SelectsPending(files: BootFiles, p: Pending) {
    && Names(files[0], Prefix(p.variant))
    && (p.variant.RtUrb16? || (THREADIRQS in Words(files[FileOf(p.variant)])) == p.threaded)
  }

  /** One of the measured kernels comes up exactly when the configuration names
      it, and then with its command line. */
  predicate BootsWhatIsNamed(s: State, a: Action) {
    a.PowerCycle? ==>
      forall v :: (a.release == Release(v) <==> Names(s.files[0], Prefix(v)))
                  && (a.release == Release(v) ==>
                        (THREADIRQS in Words(a.cmdline) <==> THREADIRQS in Words(s.files[FileOf(v)])))
  }

  /** The boot at step `k` started the worker that is at the start checks in state `i`. */
  predicate StartedByBoot(run: seq<State>, acts: seq<Action>, k: nat, i: nat) {
    && k < i < |run| && k < |acts| && acts[k].PowerCycle? && run[k].enabled
    && run[k].journal.pending == run[i].journal.pending && run[i].boot == run[k + 1].boot
  }

  lemma StillStarting(ph: seq<Phase>, s: State, a: Action, t: State)
    requires ControlOk(s) && Next(ph, s, a, t) && !a.PowerCycle?
    requires t.worker.Starting? && t.journal.pending.Some?
    ensures s.worker.Starting? && t.journal.pending == s.journal.pending && t.boot == s.boot
  {
    if WorkerStep(ph, s, a, t) {
      NoStepStarts(ph, s, a, t);
    }
  }

  lemma NoStepStarts(ph: seq<Phase>, s: State, a: Action, t: State)
    requires WorkerStep(ph, s, a, t)
    ensures !t.worker.Starting?
  {
  }

  /** A worker that finds a pending boot was started by a boot. */
  lemma {:induction false} PendingMeansBooted(ph: seq<Phase>, run: seq<State>, acts: seq<Action>, i: nat)
    returns (k: nat)
    requires CampaignRun(ph, run, acts) && i < |run|
    requires run[i].worker.Starting? && run[i].journal.pending.Some?
    ensures StartedByBoot(run, acts, k, i)
  {
    assert StepAt(ph, run, acts, i - 1);
    if acts[i - 1].PowerCycle? {
      k := i - 1;
    } else {
      InvRun(ph, run, acts, i - 1);
      StillStarting(ph, run[i - 1], acts[i - 1], run[i]);
      k := PendingMeansBooted(ph, run, acts, i - 1);
    }
  }

  lemma CheckAfterBoot(s: State, a: Action, t: State)
    requires EarlierBoot(s) && s.journal.pending.Some? && BootsWhatIsNamed(s, a) && a.PowerCycle?
    requires t.boot == Boot(s.boot.id + 1, a.release, a.cmdline) && t.journal.pending == s.journal.pending
    ensures PendingCheckFails(t) <==> !SelectsPending(s.files, t.journal.pending.value)
  {
  }

  /** A worker that finds a pending boot refuses to go on exactly when the boot
      files, as they were when the machine came up, did not select a kernel that
      the pending boot accepts. */
  lemma PendingBootFailsExactly(ph: seq<Phase>, run: seq<State>, acts: seq<Action>, i: nat)
    requires CampaignRun(ph, run, acts) && i < |run|
    requires forall k :: 0 <= k < |acts| ==> BootsWhatIsNamed(run[k], acts[k])
    requires run[i].worker.Starting? && run[i].journal.pending.Some?
    ensures exists k: nat :: StartedByBoot(run, acts, k, i)
                        && (PendingCheckFails(run[i]) <==>
                            !SelectsPending(run[k].files, run[i].journal.pending.value))
  {
    var k := PendingMeansBooted(ph, run, acts, i);
    EarlierBootRun(ph, run, acts, k);
    assert StepAt(ph, run, acts, k) && BootsWhatIsNamed(run[k], acts[k]);
    CheckAfterBoot(run[k], acts[k], run[i]);
  }

  /** Whenever a reboot is about to be requested, a failure and an interrupted
      restore can leave boot files that name no kernel; the machine then comes up
      as written, and the worker refuses the boot that is still pending. */
  lemma PendingBootCanFail(ph: seq<Phase>, run: seq<State>, acts: seq<Action>)
    returns (longer: seq<State>, more: seq<Action>)
    requires CampaignRun(ph, run, acts) && run[|run| - 1].worker.Requesting? && run[|run| - 1].enabled
    ensures CampaignRun(ph, longer, more) && Extends(run, acts, longer, more)
    ensures more == acts + [Raise, SaveFailed, WorkerTears("", false), PowerCycle("", "")]
    ensures BootsWhatIsNamed(longer[|longer| - 2], more[|more| - 1])
    ensures longer[|longer| - 1].worker.Starting? && PendingCheckFails(longer[|longer| - 1])
  {
    var torn, steps := FailedRequest(ph, run, acts);
    longer, more := NothingNamedFails(ph, torn, steps);
    ExtendsTwice(run, acts, torn, steps, longer, more);
  }

  lemma FailedRequest(ph: seq<Phase>, run: seq<State>, acts: seq<Action>)
    returns (longer: seq<State>, more: seq<Action>)
    requires CampaignRun(ph, run, acts) && run[|run| - 1].worker.Requesting? && run[|run| - 1].enabled
    ensures CampaignRun(ph, longer, more) && Extends(run, acts, longer, more)
    ensures more == acts + [Raise, SaveFailed, WorkerTears("", false)]
    ensures var s := longer[|longer| - 1]; s.enabled && s.journal.pending.Some? && s.files[0] == ""
  {
    var s := run[|run| - 1];
    PaidRun(ph, run, acts, |run| - 1);
    var raised, steps := Extend(ph, run, acts, Raise, s.(worker := Handling(s.journal)));
    longer, more := HandlerTears(ph, raised, steps, "");
    ExtendsTwice(run, acts, raised, steps, longer, more);
  }

  lemma NothingNamedFails(ph: seq<Phase>, run: seq<State>, acts: seq<Action>)
    returns (longer: seq<State>, more: seq<Action>)
    requires CampaignRun(ph, run, acts)
    requires var s := run[|run| - 1]; s.enabled && s.journal.pending.Some? && s.files[0] == ""
    ensures CampaignRun(ph, longer, more) && Extends(run, acts, longer, more)
    ensures more == acts + [PowerCycle("", "")] && BootsWhatIsNamed(longer[|acts|], more[|acts|])
    ensures longer[|longer| - 1].worker.Starting? && PendingCheckFails(longer[|longer| - 1])
  {
    EmptyNamesNothing();
    longer, more := Extend(ph, run, acts, PowerCycle("", ""), AfterPowerCycle(run[|run| - 1], "", ""));
  }

  lemma EmptyNamesNothing()
    ensures forall v :: !Names("", Prefix(v)) && Release(v) != ""
  {
    SplitClean("", IsNewline);
    assert PrefixLines([""]) == [];
  }

  // ----- the boot that was asked for

  /** The firmware boots the kernel the configuration names, with its command line. */
  predicate AsWritten(s: State, a: Action) {
    a.PowerCycle? ==>
      forall v :: Names(s.files[0], Prefix(v)) ==>
                    && a.release == Release(v)
                    && (THREADIRQS in Words(a.cmdline) <==> THREADIRQS in Words(s.files[FileOf(v)]))
  }

  predicate Selected(files: BootFiles, v: Variant, threaded: bool) {
    Names(files[0], Prefix(v)) && (THREADIRQS in Words(files[FileOf(v)]) <==> threaded)
  }

  predicate SwitchOk(ph: seq<Phase>, s: State) {
    match s.worker
    case WritingCmdline(i, config, cmdline) =>
      i < |ph| && Names(config, Prefix(ph[i].variant)) && (THREADIRQS in Words(cmdline) <==> ph[i].threaded)
    case WritingConfig(i, config) =>
      && i < |ph| && Names(config, Prefix(ph[i].variant))
      && (THREADIRQS in Words(s.files[FileOf(ph[i].variant)]) <==> ph[i].threaded)
    case SavingPending(i) => i < |ph| && Selected(s.files, ph[i].variant, ph[i].threaded)
    case _ => true
  }

  /** A durable `rebooting` status means that the files select the pending
      kernel, and a worker that starts under it runs on that kernel. */
  predicate Planned(ph: seq<Phase>, s: State) {
    var j := s.journal;
    && SwitchOk(ph, s) && EarlierBoot(s)
    && (j.pending.Some? ==> j.status == Rebooting || j.status == Failed || j.status == Stopped)
    && (j.status == Stopped ==> !s.enabled && s.worker.Off?)
    && (j.status == Rebooting ==>
          && j.pending.Some?
          && (s.enabled ==> Selected(s.files, j.pending.value.variant, j.pending.value.threaded))
          && (s.worker.Starting? ==> !PendingCheckFails(s)))
  }

  /** The part of the invariant the plan depends on. */
  predicate StatusOk(s: State) {
    && (Switching(s.worker).Some? && !s.worker.Requesting? ==> s.journal.status == Running)
    && (s.worker.Restoring? ==> s.journal.status == Running || s.journal.status == Failed)
    && (InLoop(s.worker) || s.worker.Analyzing? || s.worker.SavingComplete? ==> s.journal.status == Running)
    && (s.control.Stopping? ==> !s.enabled && s.worker.Off?)
  }

  lemma InvStatus(ph: seq<Phase>, s: State)
    requires Inv(ph, s)
    ensures StatusOk(s)
  {
  }

  lemma PickKeepsPlanned(ph: seq<Phase>, s: State)
    requires Planned(ph, s) && StatusOk(s) && s.worker.Looping?
    ensures Planned(ph, AfterPick(ph, s))
  {
    var choice := NextPhase(ph, s.valid, s.torn, 0);
    if choice.Pick? {
      var p := ph[choice.phase];
      BootSelectionSelects(s.files[0], s.files[FileOf(p.variant)], p.variant, p.threaded);
    }
  }

  lemma SwitchKeepsPlanned(ph: seq<Phase>, s: State, a: Action, t: State)
    requires Planned(ph, s) && StatusOk(s) && WorkerStep(ph, s, a, t)
    requires a.WriteCmdline? || a.WriteConfig? || a.SavePending?
    ensures Planned(ph, t)
  {
  }

  /** Steps that leave the boot alone and select nothing. */
  lemma QuietKeepsPlanned(ph: seq<Phase>, s: State, t: State)
    requires Planned(ph, s)
    requires t.boot == s.boot && EarlierBoot(t)
    requires Switching(t.worker).None? || (t.worker == s.worker && t.files == s.files)
    requires t.journal.pending.Some? ==> t.journal.pending == s.journal.pending
                                         && (t.journal.status == s.journal.status
                                             || t.journal.status == Failed || t.journal.status == Stopped)
    requires t.journal.status == Stopped ==> !t.enabled && t.worker.Off?
    requires t.journal.status == Rebooting ==>
               t.journal == s.journal && (t.enabled ==> s.enabled && t.files == s.files)
               && (t.worker.Starting? ==> s.worker.Starting?)
    ensures Planned(ph, t)
  {
  }

  lemma SaveFailedKeepsPlanned(ph: seq<Phase>, s: State, t: State)
    requires Planned(ph, s) && WorkerStep(ph, s, SaveFailed, t)
    ensures Planned(ph, t)
  {
  }

  lemma PowerCycleKeepsPlanned(ph: seq<Phase>, s: State, a: Action, t: State)
    requires Planned(ph, s) && a.PowerCycle? && OutsideStep(ph, s, a, t) && AsWritten(s, a)
    ensures Planned(ph, t)
  {
    if s.journal.status == Rebooting && s.enabled {
      var p := s.journal.pending.value;
      assert Names(s.files[0], Prefix(p.variant));
      assert BootMatches(p.variant, p.threaded, t.boot);
    }
  }

  lemma WorkerStepKeepsPlanned(ph: seq<Phase>, s: State, a: Action, t: State)
    requires Planned(ph, s) && StatusOk(s) && WorkerStep(ph, s, a, t)
    ensures Planned(ph, t)
  {
    if a.PickPhase? {
      PickKeepsPlanned(ph, s);
    } else if a.WriteCmdline? || a.WriteConfig? || a.SavePending? {
      SwitchKeepsPlanned(ph, s, a, t);
    } else if a.SaveFailed? {
      SaveFailedKeepsPlanned(ph, s, t);
    } else if Ending(a) {
      EndingKeepsPlanned(ph, s, a, t);
    } else {
      WorkingKeepsPlanned(ph, s, a, t);
    }
  }

  lemma WorkingKeepsPlanned(ph: seq<Phase>, s: State, a: Action, t: State)
    requires Planned(ph, s) && StatusOk(s) && WorkerStep(ph, s, a, t) && !Ending(a)
    requires !a.PickPhase? && !a.WriteCmdline? && !a.WriteConfig? && !a.SavePending?
    ensures Planned(ph, t)
  {
    if a.RestoreFile? || a.RestoreDone? {
      RestoreKeepsPlanned(ph, s, a, t);
    } else if InLoop(s.worker) {
      StageKeepsPlanned(ph, s, a, t);
    } else {
      QuietKeepsPlanned(ph, s, t);
    }
  }

  lemma StageKeepsPlanned(ph: seq<Phase>, s: State, a: Action, t: State)
    requires Planned(ph, s) && StatusOk(s) && WorkerStep(ph, s, a, t) && InLoop(s.worker)
    requires a.SaveActive? || a.Launch? || a.FinishAcquisition? || a.Confirm?
    ensures Planned(ph, t)
  {
    QuietKeepsPlanned(ph, s, t);
  }

  lemma RestoreKeepsPlanned(ph: seq<Phase>, s: State, a: Action, t: State)
    requires Planned(ph, s) && StatusOk(s) && WorkerStep(ph, s, a, t) && (a.RestoreFile? || a.RestoreDone?)
    ensures Planned(ph, t)
  {
    QuietKeepsPlanned(ph, s, t);
  }

  lemma EndingKeepsPlanned(ph: seq<Phase>, s: State, a: Action, t: State)
    requires Planned(ph, s) && StatusOk(s) && WorkerStep(ph, s, a, t) && Ending(a) && !a.SaveFailed?
    ensures Planned(ph, t)
  {
    QuietKeepsPlanned(ph, s, t);
  }

  lemma OutsideStepKeepsPlanned(ph: seq<Phase>, s: State, a: Action, t: State)
    requires Planned(ph, s) && StatusOk(s) && OutsideStep(ph, s, a, t) && AsWritten(s, a)
    ensures Planned(ph, t)
  {
    if a.PowerCycle? {
      PowerCycleKeepsPlanned(ph, s, a, t);
    } else {
      QuietKeepsPlanned(ph, s, t);
    }
  }

  lemma {:induction false} PlannedRun(ph: seq<Phase>, run: seq<State>, acts: seq<Action>, i: nat)
    requires CampaignRun(ph, run, acts) && i < |run|
    requires forall k :: 0 <= k < |acts| ==> AsWritten(run[k], acts[k])
    ensures Planned(ph, run[i])
  {
    if i > 0 {
      PlannedRun(ph, run, acts, i - 1);
      InvRun(ph, run, acts, i - 1);
      InvStatus(ph, run[i - 1]);
      var s, a, t := run[i - 1], acts[i - 1], run[i];
      assert StepAt(ph, run, acts, i - 1) && AsWritten(s, a);
      if WorkerStep(ph, s, a, t) {
        WorkerStepKeepsPlanned(ph, s, a, t);
      } else {
        OutsideStepKeepsPlanned(ph, s, a, t);
      }
    }
  }

  /** If every boot comes up as the boot files say, a worker fails the
      pending-boot check only after a failure was already recorded: never after
      a reboot that the campaign asked for and is still waiting for. */
  lemma PlannedBootIsAccepted(ph: seq<Phase>, run: seq<State>, acts: seq<Action>, i: nat)
    requires CampaignRun(ph, run, acts) && i < |run|
    requires forall k :: 0 <= k < |acts| ==> AsWritten(run[k], acts[k])
    requires run[i].worker.Starting? && PendingCheckFails(run[i])
    ensures run[i].journal.status == Failed
  {
    PlannedRun(ph, run, acts, i);
  }
}
