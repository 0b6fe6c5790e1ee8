/** A campaign that nothing disturbs completes: the worker's own steps, without
    exceptions, and boots that come up as written start every missing stage once,
    in order, and leave the boot files as they were found. */
module CampaignProgress {
  import opened Wrappers
  import opened Numbers
  import opened Text
  import opened KernelSelection
  import opened Campaign
  import opened CampaignSafety
  import opened CampaignReboots
  import opened CampaignCompletion

  // ----- steps that nothing disturbs

  /** A step of the worker without an exception, an analysis that writes its
      manifest, or the boot that was asked for, as the files say. */
  predicate Undisturbed(s: State, a: Action) {
    match a
    case PowerCycle(_, _) => s.worker.Off? && s.enabled && s.rebootIssued && BootsWhatIsNamed(s, a)
    case Analyze(result) => result == WithManifest
    case Raise => false
    case SaveRaises => false
    case SaveFailed => false
    case WorkerDies => false
    case WorkerTears(_, _) => false
    case ResumeReads => false
    case ResumeCommits(_) => false
    case StopReads => false
    case StopDisables => false
    case StopKills => false
    case StopRestores => false
    case StopSaves => false
    case ControlDies => false
    case ControlTears(_) => false
    case _ => true
  }

  predicate HasRootWord(cmdline: string) { HasRoot(Without(Words(cmdline), THREADIRQS)) }

  /** Every kernel can be selected. */
  predicate Selectable(files: BootFiles) {
    && |PrefixLines(Split(files[0], IsNewline))| <= 1
    && forall v :: HasRootWord(files[FileOf(v)])
  }

  // ----- what is left to do

  predicate NeedsReboot(ph: seq<Phase>, s: State) {
    var next := NextPhase(ph, s.valid, s.torn, 0);
    next.Pick? && !BootMatches(ph[next.phase].variant, ph[next.phase].threaded, s.boot)
  }

  function Position(s: State): nat {
    match s.worker
    case Confirming(_, _) => 20
    case Starting => 19
    case Looping => 18
    case WritingCmdline(_, _, _) => 17
    case WritingConfig(_, _) => 16
    case SavingPending(_) => 15
    case Requesting(_) => 14
    case Off => if s.enabled then 13 else 0
    case Entering(_, _) => 12
    case Launching(_, _) => 11
    case Acquiring(_, _) => 10
    case Analyzing => 9
    case Restoring(k, _) => if k <= 4 then 8 - k else 0
    case SavingComplete => 3
    case Disabling(_, _) => 2
    case Handling(_) => 0
  }

  function StagesLeft(ph: seq<Phase>, s: State): nat {
    if |s.log.marked| <= |AllStages(ph)| then |AllStages(ph)| - |s.log.marked| else 0
  }

  /** Bounds the steps that are left. */
  function Remainder(ph: seq<Phase>, s: State): nat {
    42 * StagesLeft(ph, s) + 21 * One(NeedsReboot(ph, s)) + Position(s)
  }

  // ----- on the way to completion

  predicate IsNext(ph: seq<Phase>, s: State, i: nat) {
    var next := NextPhase(ph, s.valid, s.torn, 0);
    next.Pick? && next.phase == i
  }

  /** The worker is switching to the kernel of phase `i`. */
  predicate Switches(ph: seq<Phase>, s: State, i: nat) {
    i < |ph| && IsNext(ph, s, i) && NeedsReboot(ph, s) && s.journal.active == None
  }

  predicate WillSelect(ph: seq<Phase>, i: nat, config: string, cmdline: string) {
    && i < |ph| && Names(config, Prefix(ph[i].variant))
    && (THREADIRQS in Words(cmdline) <==> ph[i].threaded) && HasRootWord(cmdline)
  }

  predicate AsksFor(ph: seq<Phase>, s: State, i: nat) {
    Switches(ph, s, i) && PendingFor(ph, s, i) && Selected(s.files, ph[i].variant, ph[i].threaded)
  }

  predicate IsDone(ph: seq<Phase>, s: State) {
    Closed(s) && AllMarked(ph, s) && s.files == s.before
  }

  predicate WorkerOnTrack(ph: seq<Phase>, s: State) {
    match s.worker
    case Off => s.rebootIssued && AsksFor(ph, s, NextPhaseIndex(ph, s))
    case Starting => !Interrupted(s.journal.active, s.valid) && !PendingCheckFails(s)
    case Looping => s.journal.active == None
    case WritingCmdline(i, config, cmdline) => Switches(ph, s, i) && WillSelect(ph, i, config, cmdline)
    case WritingConfig(i, config) => Switches(ph, s, i) && WillSelect(ph, i, config, s.files[FileOf(ph[i].variant)])
    case SavingPending(i) => Switches(ph, s, i) && Selected(s.files, ph[i].variant, ph[i].threaded)
    case Requesting(i) => AsksFor(ph, s, i)
    case Restoring(_, completing) => completing
    case Disabling(restored, completing) => restored && completing
    case Handling(_) => false
    case _ => true
  }

  function NextPhaseIndex(ph: seq<Phase>, s: State): nat {
    var next := NextPhase(ph, s.valid, s.torn, 0);
    if next.Pick? then next.phase else 0
  }

  /** Nothing stands in the way. */
  predicate Unhindered(s: State) {
    s.control.Idle? && s.torn == {} && s.derived != WithoutManifest && s.enabled && EarlierBoot(s)
  }

  /** Until the files are restored, every kernel can be selected. */
  predicate FilesOnTrack(s: State) {
    s.worker.Restoring? || s.worker.SavingComplete? || s.worker.Disabling? || Selectable(s.files)
  }

  predicate OnTrack(ph: seq<Phase>, s: State) {
    Inv(ph, s) && Unhindered(s) && FilesOnTrack(s) && WorkerOnTrack(ph, s)
  }

  // ----- every undisturbed step leads on

  /** The step leads on: it stays on track with less left to do. */
  predicate LeadsOn(ph: seq<Phase>, s: State, t: State) {
    Unhindered(t) && FilesOnTrack(t) && WorkerOnTrack(ph, t) && Remainder(ph, t) < Remainder(ph, s)
  }

  lemma SameNext(ph: seq<Phase>, s: State, t: State)
    requires t.valid == s.valid && t.torn == s.torn && t.boot == s.boot
    ensures NeedsReboot(ph, t) == NeedsReboot(ph, s) && NextPhaseIndex(ph, t) == NextPhaseIndex(ph, s)
    ensures forall i :: IsNext(ph, t, i) == IsNext(ph, s, i)
  {
  }

  lemma StartLeadsOn(ph: seq<Phase>, s: State, t: State)
    requires OnTrack(ph, s) && WorkerStep(ph, s, StartChecks, t)
    ensures LeadsOn(ph, s, t)
  {
    SameNext(ph, s, t);
  }

  lemma SelectionWorks(ph: seq<Phase>, s: State, i: nat)
    requires i < |ph| && Selectable(s.files)
    ensures var r := BootSelection(s.files[0], s.files[FileOf(ph[i].variant)], Prefix(ph[i].variant), ph[i].threaded);
            r.Success? && WillSelect(ph, i, r.value.0, r.value.1)
  {
    var v, threaded := ph[i].variant, ph[i].threaded;
    BootSelectionExactly(s.files[0], s.files[FileOf(v)], v, threaded);
    BootSelectionSelects(s.files[0], s.files[FileOf(v)], v, threaded);
    SelectedAgain(s.files[0], s.files[FileOf(v)], v, threaded);
  }

  lemma PickLeadsOn(ph: seq<Phase>, s: State, t: State)
    requires OnTrack(ph, s) && WorkerStep(ph, s, PickPhase, t)
    ensures LeadsOn(ph, s, t)
  {
    SameNext(ph, s, t);
    PickMeaning(ph, s);
    var next := NextPhase(ph, s.valid, s.torn, 0);
    if next.Pick? {
      SelectionWorks(ph, s, next.phase);
    }
  }

  lemma CmdlineKeepsSelectable(files: BootFiles, v: Variant, cmdline: string)
    requires Selectable(files) && HasRootWord(cmdline)
    ensures Selectable(files[FileOf(v) := cmdline])
  {
  }

  lemma ConfigKeepsSelectable(files: BootFiles, v: Variant, config: string)
    requires Selectable(files) && Names(config, Prefix(v))
    ensures Selectable(files[0 := config])
  {
  }

  lemma WriteCmdlineLeadsOn(ph: seq<Phase>, s: State, t: State)
    requires OnTrack(ph, s) && WorkerStep(ph, s, WriteCmdline, t)
    ensures LeadsOn(ph, s, t)
  {
    SameNext(ph, s, t);
    CmdlineKeepsSelectable(s.files, ph[s.worker.phase].variant, s.worker.cmdline);
  }

  lemma WriteConfigLeadsOn(ph: seq<Phase>, s: State, t: State)
    requires OnTrack(ph, s) && WorkerStep(ph, s, WriteConfig, t)
    ensures LeadsOn(ph, s, t)
  {
    SameNext(ph, s, t);
    ConfigKeepsSelectable(s.files, ph[s.worker.phase].variant, s.worker.config);
  }

  lemma RequestLeadsOn(ph: seq<Phase>, s: State, a: Action, t: State)
    requires OnTrack(ph, s) && WorkerStep(ph, s, a, t) && (a.SavePending? || a.RequestReboot?)
    ensures LeadsOn(ph, s, t)
  {
    SameNext(ph, s, t);
  }

  lemma BootLeadsOn(ph: seq<Phase>, s: State, a: Action, t: State)
    requires OnTrack(ph, s) && a.PowerCycle? && OutsideStep(ph, s, a, t) && Undisturbed(s, a)
    ensures LeadsOn(ph, s, t)
  {
    var i := NextPhaseIndex(ph, s);
    CheckAfterBoot(s, a, t);
    assert BootMatches(ph[i].variant, ph[i].threaded, t.boot);
  }

  lemma EnterLeadsOn(ph: seq<Phase>, s: State, a: Action, t: State)
    requires OnTrack(ph, s) && WorkerStep(ph, s, a, t) && (a.SaveActive? || a.Launch?)
    ensures LeadsOn(ph, s, t)
  {
    SameNext(ph, s, t);
    NextValid(ph, s, s.worker.phase, s.worker.rest);
  }

  lemma FinishLeadsOn(ph: seq<Phase>, s: State, t: State)
    requires OnTrack(ph, s) && WorkerStep(ph, s, FinishAcquisition, t)
    ensures LeadsOn(ph, s, t)
  {
    NextValid(ph, s, s.worker.phase, s.worker.rest);
  }

  lemma ConfirmLeadsOn(ph: seq<Phase>, s: State, t: State)
    requires OnTrack(ph, s) && WorkerStep(ph, s, Confirm, t)
    ensures LeadsOn(ph, s, t)
  {
    SameNext(ph, s, t);
  }

  lemma EndLeadsOn(ph: seq<Phase>, s: State, a: Action, t: State)
    requires OnTrack(ph, s) && WorkerStep(ph, s, a, t) && Undisturbed(s, a)
    requires a.Analyze? || a.RestoreFile? || a.RestoreDone? || a.SaveComplete?
    ensures LeadsOn(ph, s, t)
  {
    SameNext(ph, s, t);
  }

  lemma DisableCompletes(ph: seq<Phase>, s: State, t: State)
    requires OnTrack(ph, s) && WorkerStep(ph, s, Disable, t)
    ensures IsDone(ph, t) && Remainder(ph, t) < Remainder(ph, s)
  {
    SameNext(ph, s, t);
  }

  predicate InCampaign(ph: seq<Phase>, s: State) { OnTrack(ph, s) || (Inv(ph, s) && IsDone(ph, s)) }

  lemma WorkingLeadsOn(ph: seq<Phase>, s: State, a: Action, t: State)
    requires OnTrack(ph, s) && WorkerStep(ph, s, a, t) && Undisturbed(s, a) && !a.Disable?
    ensures LeadsOn(ph, s, t)
  {
    if a.StartChecks? {
      StartLeadsOn(ph, s, t);
    } else if a.PickPhase? {
      PickLeadsOn(ph, s, t);
    } else if a.WriteCmdline? {
      WriteCmdlineLeadsOn(ph, s, t);
    } else if a.WriteConfig? {
      WriteConfigLeadsOn(ph, s, t);
    } else if a.SavePending? || a.RequestReboot? {
      RequestLeadsOn(ph, s, a, t);
    } else if a.SaveActive? || a.Launch? {
      EnterLeadsOn(ph, s, a, t);
    } else if a.FinishAcquisition? {
      FinishLeadsOn(ph, s, t);
    } else if a.Confirm? {
      ConfirmLeadsOn(ph, s, t);
    } else {
      EndLeadsOn(ph, s, a, t);
    }
  }

  lemma StepLeadsOn(ph: seq<Phase>, s: State, a: Action, t: State)
    requires InCampaign(ph, s) && Next(ph, s, a, t) && Undisturbed(s, a)
    ensures InCampaign(ph, t) && Remainder(ph, t) < Remainder(ph, s)
  {
    DoneRests(ph, s, a, t);
    if WorkerStep(ph, s, a, t) {
      WorkerStepKeepsInv(ph, s, a, t);
      if a.Disable? {
        DisableCompletes(ph, s, t);
      } else {
        WorkingLeadsOn(ph, s, a, t);
      }
    } else {
      OutsideStepKeepsInv(ph, s, a, t);
      BootLeadsOn(ph, s, a, t);
    }
  }

  /** A campaign that is done takes no such step. */
  lemma DoneRests(ph: seq<Phase>, s: State, a: Action, t: State)
    requires Next(ph, s, a, t) && Undisturbed(s, a)
    ensures !IsDone(ph, s)
  {
  }

  // ----- it never gets stuck

  /** The kernel that the files name, if they name one. */
  lemma NamedBoot(s: State) returns (a: Action)
    ensures a.PowerCycle? && BootsWhatIsNamed(s, a)
  {
    if v :| Names(s.files[0], Prefix(v)) {
      a := PowerCycle(Release(v), s.files[FileOf(v)]);
      forall w ensures Release(w) == Release(v) || Names(s.files[0], Prefix(w)) ==> w == v {
        if Release(w) == Release(v) {
          ReleasesDiffer(v, w);
        } else if Names(s.files[0], Prefix(w)) {
          PrefixesDiffer(v, w);
        }
      }
    } else {
      a := PowerCycle("", "");
      EmptyNamesNothing();
    }
  }

  lemma ReleasesDiffer(v: Variant, w: Variant)
    requires Release(v) == Release(w)
    ensures v == w
  {
    assert |Release(v)| == |Release(w)| && Release(v)[13] == Release(w)[13];
  }

  /** The next step of a worker that switches the kernel. */
  lemma SwitchGoesOn(ph: seq<Phase>, s: State) returns (a: Action, t: State)
    requires OnTrack(ph, s) && Switching(s.worker).Some?
    ensures WorkerStep(ph, s, a, t) && Undisturbed(s, a)
  {
    match s.worker
    case WritingCmdline(i, config, cmdline) =>
      a, t := WriteCmdline, s.(files := s.files[FileOf(ph[i].variant) := cmdline], worker := WritingConfig(i, config));
    case WritingConfig(i, config) =>
      a, t := WriteConfig, s.(files := s.files[0 := config], worker := SavingPending(i));
    case SavingPending(i) =>
      var p := Pending(ph[i].variant, ph[i].threaded, s.boot.id);
      a, t := SavePending, s.(journal := s.journal.(status := Rebooting, pending := Some(p)), worker := Requesting(i));
    case Requesting(i) =>
      var log := s.log.(requested := s.log.requested + 1, charged := s.log.charged + {i}, lastCharged := i);
      a, t := RequestReboot, s.(worker := Off, rebootIssued := true, log := log);
  }

  /** The next step of a worker that ends the campaign. */
  lemma EndGoesOn(ph: seq<Phase>, s: State) returns (a: Action, t: State)
    requires OnTrack(ph, s) && (s.worker.Restoring? || s.worker.SavingComplete? || s.worker.Disabling?)
    ensures WorkerStep(ph, s, a, t) && Undisturbed(s, a)
  {
    match s.worker
    case Restoring(k, completing) =>
      if k < 4 {
        a, t := RestoreFile, s.(files := s.files[k := s.before[k]], worker := Restoring(k + 1, completing));
      } else {
        a, t := RestoreDone, s.(worker := SavingComplete);
      }
    case SavingComplete =>
      a, t := SaveComplete, s.(journal := s.journal.(status := Complete), worker := Disabling(true, true));
    case Disabling(_, _) => a, t := Disable, s.(enabled := false, worker := Off);
  }

  /** The next step of any other worker. */
  lemma LoopGoesOn(ph: seq<Phase>, s: State) returns (a: Action, t: State)
    requires OnTrack(ph, s) && (InLoop(s.worker) || s.worker.Starting? || s.worker.Analyzing?)
    ensures WorkerStep(ph, s, a, t) && Undisturbed(s, a)
  {
    match s.worker
    case Starting => a, t := StartChecks, AfterStartChecks(s);
    case Looping => a, t := PickPhase, AfterPick(ph, s);
    case Entering(i, rest) =>
      a, t := SaveActive, s.(journal := s.journal.(active := Some(rest[0])), worker := Launching(i, rest));
    case Launching(i, rest) => a, t := Launch, AfterLaunch(s, i, rest);
    case Acquiring(i, rest) =>
      a, t := FinishAcquisition,
        s.(valid := s.valid + {rest[0]}, worker := Confirming(i, rest),
           log := s.log.(marked := s.log.marked + [rest[0]]));
    case Confirming(i, rest) => a, t := Confirm, AfterConfirm(s, i, rest);
    case Analyzing => a, t := Analyze(WithManifest), AfterAnalyze(s, WithManifest);
  }

  lemma GoesOn(ph: seq<Phase>, s: State) returns (a: Action, t: State)
    requires OnTrack(ph, s)
    ensures Next(ph, s, a, t) && Undisturbed(s, a)
  {
    if s.worker.Off? {
      a := NamedBoot(s);
      t := AfterPowerCycle(s, a.release, a.cmdline);
    } else if Switching(s.worker).Some? {
      a, t := SwitchGoesOn(ph, s);
    } else if s.worker.Restoring? || s.worker.SavingComplete? || s.worker.Disabling? {
      a, t := EndGoesOn(ph, s);
    } else {
      a, t := LoopGoesOn(ph, s);
    }
  }

  // ----- what is started on the way

  /** Since `s0` the stages missing there were started once each, in order. */
  predicate StartedSince(ph: seq<Phase>, s0: State, s: State) {
    var all, m, n := AllStages(ph), |s0.log.marked|, |s0.log.started|;
    && m <= |s.log.marked| && |s.log.marked| + One(s.worker.Acquiring?) <= |all|
    && |s.log.started| == n + (|s.log.marked| - m) + One(s.worker.Acquiring?)
    && s.log.started[..n] == s0.log.started
    && (forall k :: n <= k < |s.log.started| ==> s.log.started[k].stage == all[m + k - n])
    && s.before == s0.before
  }

  lemma StepStarts(ph: seq<Phase>, s0: State, s: State, a: Action, t: State)
    requires OnTrack(ph, s) && Next(ph, s, a, t) && Undisturbed(s, a) && StartedSince(ph, s0, s)
    ensures StartedSince(ph, s0, t)
  {
    if a.Launch? {
      LaunchStarts(ph, s0, s, t);
    } else if a.FinishAcquisition? {
      NextValid(ph, s, s.worker.phase, s.worker.rest);
    } else {
      QuietStartsNothing(ph, s, a, t);
    }
  }

  lemma LaunchStarts(ph: seq<Phase>, s0: State, s: State, t: State)
    requires OnTrack(ph, s) && WorkerStep(ph, s, Launch, t) && StartedSince(ph, s0, s)
    ensures StartedSince(ph, s0, t)
  {
    NextValid(ph, s, s.worker.phase, s.worker.rest);
    OneMoreStart(ph, s0, s, t, Start(s.worker.rest[0], s.boot));
  }

  lemma OneMoreStart(ph: seq<Phase>, s0: State, s: State, t: State, start: Start)
    requires StartedSince(ph, s0, s) && !s.worker.Acquiring? && t.worker.Acquiring?
    requires |s.log.marked| < |AllStages(ph)| && start.stage == AllStages(ph)[|s.log.marked|]
    requires t.log.started == s.log.started + [start] && t.log.marked == s.log.marked && t.before == s.before
    ensures StartedSince(ph, s0, t)
  {
    assert t.log.started[..|s0.log.started|] == s.log.started[..|s0.log.started|];
  }

  lemma QuietStartsNothing(ph: seq<Phase>, s: State, a: Action, t: State)
    requires Next(ph, s, a, t) && Undisturbed(s, a) && !a.Launch? && !a.FinishAcquisition?
    ensures t.log.started == s.log.started && t.log.marked == s.log.marked && t.before == s.before
    ensures !s.worker.Acquiring? && !t.worker.Acquiring?
  {
  }

  // ----- whole runs

  /** A worker that was just started finds nothing that stops it: no interrupted
      stage, no torn marker, no derived output without its manifest, a pending
      boot only if it came up, and boot files in which every kernel can be selected. */
  predicate IsFit(ph: seq<Phase>, s: State) {
    && s.worker.Starting? && s.enabled && s.control.Idle? && s.torn == {} && s.derived != WithoutManifest
    && Selectable(s.files) && !Interrupted(s.journal.active, s.valid) && !PendingCheckFails(s)
  }

  predicate UndisturbedAt(run: seq<State>, acts: seq<Action>, k: nat) {
    k < |run| && k < |acts| && Undisturbed(run[k], acts[k])
  }

  predicate AllUndisturbed(run: seq<State>, acts: seq<Action>, i: nat, j: nat) {
    forall k {:trigger UndisturbedAt(run, acts, k)} :: i <= k < j ==> UndisturbedAt(run, acts, k)
  }

  lemma {:induction false} UndisturbedRun(ph: seq<Phase>, run: seq<State>, acts: seq<Action>, i: nat, j: nat)
    requires CampaignRun(ph, run, acts) && i <= j < |run| && IsFit(ph, run[i]) && AllUndisturbed(run, acts, i, j)
    ensures InCampaign(ph, run[j]) && StartedSince(ph, run[i], run[j])
    ensures j - i + Remainder(ph, run[j]) <= Remainder(ph, run[i])
    decreases j - i
  {
    if i == j {
      InvRun(ph, run, acts, i);
      EarlierBootRun(ph, run, acts, i);
    } else {
      UndisturbedRun(ph, run, acts, i, j - 1);
      var s, a, t := run[j - 1], acts[j - 1], run[j];
      assert StepAt(ph, run, acts, j - 1) && UndisturbedAt(run, acts, j - 1);
      StepLeadsOn(ph, s, a, t);
      DoneRests(ph, s, a, t);
      StepStarts(ph, run[i], s, a, t);
    }
  }

  /** Complete, disabled, every stage marked, those missing at `s0` started once
      each in order and no other, the boot files those of the snapshot. */
  predicate Completed(ph: seq<Phase>, s0: State, s: State) {
    var n := |s0.log.started|;
    && Closed(s) && s.log.marked == AllStages(ph) && s.files == s0.before
    && |s.log.started| == n + StagesLeft(ph, s0) && s.log.started[..n] == s0.log.started
    && forall k :: n <= k < |s.log.started| ==>
                     s.log.started[k].stage == AllStages(ph)[|s0.log.marked| + k - n]
  }

  lemma DoneMeansCompleted(ph: seq<Phase>, s0: State, s: State)
    requires Inv(ph, s) && IsDone(ph, s) && StartedSince(ph, s0, s)
    ensures Completed(ph, s0, s)
  {
  }

  /** However an undisturbed run goes on from there, it has a bounded length, it
      can always go on until it is complete, and then it has started every
      missing stage once, in order, and restored the boot files. */
  lemma UndisturbedRunCompletes(ph: seq<Phase>, run: seq<State>, acts: seq<Action>, i: nat, j: nat)
    requires CampaignRun(ph, run, acts) && i <= j < |run| && IsFit(ph, run[i]) && AllUndisturbed(run, acts, i, j)
    ensures j - i <= 42 * StagesLeft(ph, run[i]) + 40
    ensures Completed(ph, run[i], run[j]) <==> !exists a, t :: Next(ph, run[j], a, t) && Undisturbed(run[j], a)
  {
    UndisturbedRun(ph, run, acts, i, j);
    if IsDone(ph, run[j]) {
      DoneMeansCompleted(ph, run[i], run[j]);
      forall a, t | Next(ph, run[j], a, t) ensures !Undisturbed(run[j], a) {
        if Undisturbed(run[j], a) {
          DoneRests(ph, run[j], a, t);
        }
      }
    } else {
      var a, t := GoesOn(ph, run[j]);
    }
  }

  /** An undisturbed continuation to completion. */
  lemma {:induction false} RunToCompletion(ph: seq<Phase>, run: seq<State>, acts: seq<Action>, i: nat)
    returns (longer: seq<State>, more: seq<Action>)
    requires CampaignRun(ph, run, acts) && i < |run| && IsFit(ph, run[i]) && AllUndisturbed(run, acts, i, |acts|)
    ensures CampaignRun(ph, longer, more) && Extends(run, acts, longer, more)
    ensures AllUndisturbed(longer, more, i, |more|) && Completed(ph, run[i], longer[|longer| - 1])
    decreases Remainder(ph, run[|run| - 1])
  {
    var last := run[|run| - 1];
    UndisturbedRun(ph, run, acts, i, |run| - 1);
    longer, more := run, acts;
    if IsDone(ph, last) {
      DoneMeansCompleted(ph, run[i], last);
    } else {
      var a, t := GoesOn(ph, last);
      StepLeadsOn(ph, last, a, t);
      var mid, steps := Extend(ph, run, acts, a, t);
      StaysUndisturbed(run, acts, i, mid, steps);
      longer, more := RunToCompletion(ph, mid, steps, i);
      ExtendsTwice(run, acts, mid, steps, longer, more);
    }
  }

  lemma StaysUndisturbed(run: seq<State>, acts: seq<Action>, i: nat, mid: seq<State>, steps: seq<Action>)
    requires |run| == |acts| + 1 && |mid| == |run| + 1 && |steps| == |acts| + 1 && Extends(run, acts, mid, steps)
    requires AllUndisturbed(run, acts, i, |acts|) && Undisturbed(run[|run| - 1], steps[|acts|])
    ensures AllUndisturbed(mid, steps, i, |steps|)
  {
    forall k | i <= k < |steps| ensures UndisturbedAt(mid, steps, k) {
      assert mid[k] == mid[..|run|][k];
      if k < |acts| {
        assert UndisturbedAt(run, acts, k) && steps[k] == steps[..|acts|][k];
      }
    }
  }

  /** After a boot as written the worker is fit, unless something stood in its way before. */
  predicate CanGoOn(s: State) {
    && s.enabled && s.torn == {} && s.derived != WithoutManifest && Selectable(s.files)
    && !Interrupted(s.journal.active, s.valid)
    && (s.journal.pending.Some? ==> SelectsPending(s.files, s.journal.pending.value))
  }

  lemma FitAfterBoot(ph: seq<Phase>, s: State, a: Action, t: State)
    requires CanGoOn(s) && EarlierBoot(s) && a.PowerCycle? && BootsWhatIsNamed(s, a)
    requires t == AfterPowerCycle(s, a.release, a.cmdline)
    ensures IsFit(ph, t) && t.log.started == s.log.started && t.log.marked == s.log.marked && t.before == s.before
  {
    if s.journal.pending.Some? {
      CheckAfterBoot(s, a, t);
    }
  }

  /** From every reachable state in which no stage was interrupted, no marker is
      torn, the service is enabled, the files allow selection and a pending boot
      is the one they select, the machine can come up as written and, if nothing
      disturbs it any more, the campaign completes. */
  lemma EveryStateCompletes(ph: seq<Phase>, run: seq<State>, acts: seq<Action>)
    returns (longer: seq<State>, more: seq<Action>)
    requires CampaignRun(ph, run, acts) && CanGoOn(run[|run| - 1])
    ensures CampaignRun(ph, longer, more) && Extends(run, acts, longer, more)
    ensures |more| > |acts| && more[|acts|].PowerCycle? && BootsWhatIsNamed(run[|run| - 1], more[|acts|])
    ensures AllUndisturbed(longer, more, |acts| + 1, |more|)
    ensures Completed(ph, run[|run| - 1], longer[|longer| - 1])
  {
    var s := run[|run| - 1];
    var a := NamedBoot(s);
    var t := AfterPowerCycle(s, a.release, a.cmdline);
    EarlierBootRun(ph, run, acts, |run| - 1);
    FitAfterBoot(ph, s, a, t);
    var mid, steps := Extend(ph, run, acts, a, t);
    longer, more := RunToCompletion(ph, mid, steps, |run|);
    ExtendsTwice(run, acts, mid, steps, longer, more);
  }

  // ----- resuming, and failing

  /** A campaign whose worker ended can be resumed, unless it is complete or
      something stands in its way, and completes if nothing disturbs it. */
  lemma ResumedCampaignCompletes(ph: seq<Phase>, run: seq<State>, acts: seq<Action>)
    returns (longer: seq<State>, more: seq<Action>)
    requires CampaignRun(ph, run, acts)
    requires var s := run[|run| - 1];
             && s.worker.Off? && s.control.Idle? && s.journal.status != Complete && s.torn == {}
             && s.derived != WithoutManifest && Selectable(s.files) && !Interrupted(s.journal.active, s.valid)
    ensures CampaignRun(ph, longer, more) && Extends(run, acts, longer, more)
    ensures |more| > |acts| + 1 && more[|acts|] == ResumeReads && more[|acts| + 1] == ResumeCommits(true)
    ensures AllUndisturbed(longer, more, |acts| + 2, |more|)
    ensures Completed(ph, run[|run| - 1], longer[|longer| - 1])
  {
    var s := run[|run| - 1];
    var read, steps := Extend(ph, run, acts, ResumeReads, s.(control := ResumeRead(s.journal)));
    var t := AfterResume(read[|read| - 1], s.journal, true);
    var mid, steps' := Extend(ph, read, steps, ResumeCommits(true), t);
    ExtendsTwice(run, acts, read, steps, mid, steps');
    longer, more := RunToCompletion(ph, mid, steps', |run| + 1);
    ExtendsTwice(run, acts, mid, steps', longer, more);
  }

  const HANDLING: seq<Action> :=
    [SaveFailed, RestoreFile, RestoreFile, RestoreFile, RestoreFile, RestoreDone, Disable]

  /** A failure that is handled without another one is recorded, with the rest of
      the journal as it was in memory; the boot files are written back and the
      service is disabled. */
  lemma FailureIsHandled(ph: seq<Phase>, run: seq<State>, acts: seq<Action>)
    returns (longer: seq<State>, more: seq<Action>)
    requires CampaignRun(ph, run, acts) && run[|run| - 1].worker.Handling?
    ensures CampaignRun(ph, longer, more) && Extends(run, acts, longer, more) && more == acts + HANDLING
    ensures var s := run[|run| - 1];
            longer[|longer| - 1] == s.(journal := s.worker.memory.(status := Failed), files := s.before,
                                       enabled := false, worker := Off)
  {
    var s := run[|run| - 1];
    s := s.(journal := s.worker.memory.(status := Failed), worker := Restoring(0, false));
    var saved, acts1 := Extend(ph, run, acts, SaveFailed, s);
    var restored, acts2 := RestoreAll(ph, saved, acts1);
    ExtendsTwice(run, acts, saved, acts1, restored, acts2);
    longer, more := HandlerEnds(ph, restored, acts2);
    ExtendsTwice(run, acts, restored, acts2, longer, more);
  }

  lemma HandlerEnds(ph: seq<Phase>, run: seq<State>, acts: seq<Action>)
    returns (longer: seq<State>, more: seq<Action>)
    requires CampaignRun(ph, run, acts) && run[|run| - 1].worker == Restoring(4, false)
    ensures CampaignRun(ph, longer, more) && Extends(run, acts, longer, more)
    ensures more == acts + [RestoreDone, Disable]
    ensures longer[|longer| - 1] == run[|run| - 1].(enabled := false, worker := Off)
  {
    var s := run[|run| - 1];
    var mid, steps := Extend(ph, run, acts, RestoreDone, s.(worker := Disabling(true, false)));
    longer, more := Extend(ph, mid, steps, Disable, s.(enabled := false, worker := Off));
    ExtendsTwice(run, acts, mid, steps, longer, more);
  }

  /** A worker that finds an interrupted stage, or a pending boot that did not come
      up, fails: it starts nothing, keeps the record and restores the boot files. */
  lemma UnfitWorkerFails(ph: seq<Phase>, run: seq<State>, acts: seq<Action>)
    returns (longer: seq<State>, more: seq<Action>)
    requires CampaignRun(ph, run, acts) && run[|run| - 1].worker.Starting?
    requires var s := run[|run| - 1]; Interrupted(s.journal.active, s.valid) || PendingCheckFails(s)
    ensures CampaignRun(ph, longer, more) && Extends(run, acts, longer, more)
    ensures more == acts + [StartChecks] + HANDLING
    ensures var s := run[|run| - 1];
            longer[|longer| - 1] == s.(journal := s.journal.(status := Failed), files := s.before,
                                       enabled := false, worker := Off)
  {
    var s := run[|run| - 1];
    var mid, steps := Extend(ph, run, acts, StartChecks, AfterStartChecks(s));
    longer, more := FailureIsHandled(ph, mid, steps);
    ExtendsTwice(run, acts, mid, steps, longer, more);
  }

  /** A torn marker is found when the next phase is looked for, and fails the campaign. */
  lemma TornMarkerFails(ph: seq<Phase>, run: seq<State>, acts: seq<Action>)
    returns (longer: seq<State>, more: seq<Action>)
    requires CampaignRun(ph, run, acts) && run[|run| - 1].worker.Looping? && run[|run| - 1].torn != {}
    ensures CampaignRun(ph, longer, more) && Extends(run, acts, longer, more)
    ensures more == acts + [PickPhase] + HANDLING
    ensures var s := run[|run| - 1];
            longer[|longer| - 1] == s.(journal := s.journal.(status := Failed), files := s.before,
                                       enabled := false, worker := Off)
  {
    var s := run[|run| - 1];
    InvRun(ph, run, acts, |run| - 1);
    PickMeaning(ph, s);
    var mid, steps := Extend(ph, run, acts, PickPhase, AfterPick(ph, s));
    longer, more := FailureIsHandled(ph, mid, steps);
    ExtendsTwice(run, acts, mid, steps, longer, more);
  }
}
