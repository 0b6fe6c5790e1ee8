/** What every run of the campaign controller keeps. */
module CampaignSafety {
  import opened Wrappers
  import opened KernelSelection
  import opened Campaign

  // ----- the phase list

  lemma {:induction false} StagesExtend(ph: seq<Phase>, i: nat, j: nat)
    requires i <= j <= |ph|
    ensures Stages(ph, i) <= Stages(ph, j)
    decreases j - i
  {
    if i < j {
      StagesExtend(ph, i, j - 1);
      assert Stages(ph, j) == Stages(ph, j - 1) + ph[j - 1].stages;
    }
  }

  /** The stages of one phase sit together in the flattened list. */
  lemma PhaseSlice(ph: seq<Phase>, i: nat)
    requires i < |ph|
    ensures |Stages(ph, i)| + |ph[i].stages| == |Stages(ph, i + 1)| <= |AllStages(ph)|
    ensures AllStages(ph)[|Stages(ph, i)|..|Stages(ph, i + 1)|] == ph[i].stages
  {
    StagesExtend(ph, i + 1, |ph|);
    assert Stages(ph, i + 1) == Stages(ph, i) + ph[i].stages;
    assert AllStages(ph)[..|Stages(ph, i + 1)|] == Stages(ph, i + 1);
  }

  lemma {:induction false} ExcludingPrefix(stages: seq<Stage>, out: set<Stage>, k: nat)
    requires k <= |stages|
    requires forall i :: 0 <= i < k ==> stages[i] in out
    requires forall i :: k <= i < |stages| ==> stages[i] !in out
    ensures Excluding(stages, out) == stages[k..]
  {
    if stages != [] {
      if k > 0 {
        ExcludingPrefix(stages[1..], out, k - 1);
        assert stages[1..][k - 1..] == stages[k..];
      } else {
        ExcludingPrefix(stages[1..], out, 0);
        assert [stages[0]] + stages[1..] == stages;
      }
    }
  }

  /** `rest` is what is left of phase `i` once the first `n` stages are complete. */
  predicate Remaining(ph: seq<Phase>, i: nat, rest: seq<Stage>, n: nat) {
    && i < |ph|
    && |Stages(ph, i)| <= n
    && n + |rest| == |Stages(ph, i + 1)| <= |AllStages(ph)|
    && rest == AllStages(ph)[n..n + |rest|]
  }

  lemma StageAt(ph: seq<Phase>, i: nat, j: nat)
    requires i < |ph| && j < |ph[i].stages|
    ensures |Stages(ph, i)| + j < |AllStages(ph)| && ph[i].stages[j] == AllStages(ph)[|Stages(ph, i)| + j]
  {
    PhaseSlice(ph, i);
    SliceAt(AllStages(ph), |Stages(ph, i)|, |Stages(ph, i + 1)|, j);
  }

  lemma SliceAt(all: seq<Stage>, from: nat, to: nat, j: nat)
    requires from <= to <= |all| && j < to - from
    ensures all[from..to][j] == all[from + j]
  {
  }

  /** What is left of one phase when the first `n` stages are complete. */
  lemma PhaseLeft(ph: seq<Phase>, valid: set<Stage>, n: nat, i: nat)
    requires i < |ph| && n <= |AllStages(ph)|
    requires forall k :: 0 <= k < |AllStages(ph)| ==> (AllStages(ph)[k] in valid <==> k < n)
    requires |Stages(ph, i)| <= n
    ensures var left, to := Incomplete(ph[i].stages, valid), |Stages(ph, i + 1)|;
            if n < to then Remaining(ph, i, left, n) && left != [] else left == []
  {
    PhaseSlice(ph, i);
    var stages, from, to := ph[i].stages, |Stages(ph, i)|, |Stages(ph, i + 1)|;
    var k := if n < to then n - from else |stages|;
    forall j | 0 <= j < |stages| ensures stages[j] in valid <==> j < k {
      StageAt(ph, i, j);
    }
    ExcludingPrefix(stages, valid, k);
    if n < to {
      assert AllStages(ph)[from..to][k..] == AllStages(ph)[n..to];
    }
  }

  /** Stages stand in the flattened list as in their phase. */
  lemma NextStageInPhase(ph: seq<Phase>, i: nat, n: nat)
    requires i < |ph| && |Stages(ph, i)| <= n < |Stages(ph, i + 1)|
    ensures n < |AllStages(ph)| && AllStages(ph)[n] in ph[i].stages
  {
    PhaseSlice(ph, i);
    StageAt(ph, i, n - |Stages(ph, i)|);
  }

  /** A torn marker belongs to the next stage, if there is one. */
  predicate TornIsNext(ph: seq<Phase>, torn: set<Stage>, n: nat) {
    torn != {} ==> n < |AllStages(ph)| && torn == {AllStages(ph)[n]}
  }

  lemma FinishedPhaseIsWhole(ph: seq<Phase>, torn: set<Stage>, n: nat, i: nat)
    requires WellFormed(ph) && i < |ph| && |Stages(ph, i + 1)| <= n && TornIsNext(ph, torn, n)
    ensures forall st :: st in ph[i].stages ==> st !in torn
  {
    forall j | 0 <= j < |ph[i].stages| ensures ph[i].stages[j] !in torn {
      StageAt(ph, i, j);
      PhaseSlice(ph, i);
    }
  }

  /** With a prefix of the stages complete and at most the next marker torn,
      `next_phase` finds the rest of the first unfinished phase exactly when
      there is one and no marker is torn, and nothing exactly when all stages
      are complete. */
  lemma {:induction false} NextPhaseMeaning(ph: seq<Phase>, valid: set<Stage>, torn: set<Stage>, n: nat, i: nat)
    requires WellFormed(ph) && i <= |ph| && n <= |AllStages(ph)| && TornIsNext(ph, torn, n)
    requires forall k :: 0 <= k < |AllStages(ph)| ==> (AllStages(ph)[k] in valid <==> k < n)
    requires |Stages(ph, i)| <= n
    ensures var r := NextPhase(ph, valid, torn, i);
            && (r.AllDone? <==> n == |AllStages(ph)|)
            && (r.Pick? <==> n < |AllStages(ph)| && torn == {})
            && (r.Pick? ==> Remaining(ph, r.phase, r.pending, n))
    decreases |ph| - i
  {
    if i < |ph| {
      PhaseSlice(ph, i);
      PhaseLeft(ph, valid, n, i);
      if n < |Stages(ph, i + 1)| {
        NextStageInPhase(ph, i, n);
      } else {
        FinishedPhaseIsWhole(ph, torn, n, i);
        NextPhaseMeaning(ph, valid, torn, n, i + 1);
      }
    }
  }

  // ----- the invariant

  predicate LawfulStart(ph: seq<Phase>, start: Start) {
    exists i :: 0 <= i < |ph| && start.stage in ph[i].stages
                && BootMatches(ph[i].variant, ph[i].threaded, start.boot)
  }

  /** Markers are a prefix of the stages, and every start was lawful. */
  predicate Progress(ph: seq<Phase>, s: State) {
    var all, n := AllStages(ph), |s.log.marked|;
    && n <= |all|
    && s.log.marked == all[..n]
    && s.valid == (set k | 0 <= k < n :: all[k])
    && TornIsNext(ph, s.torn, n)
    && (forall k :: 0 <= k < |s.log.started| ==> LawfulStart(ph, s.log.started[k]))
  }

  predicate RestoredUpTo(s: State, k: nat) {
    k <= 4 && forall i :: 0 <= i < k ==> s.files[i] == s.before[i]
  }

  /** The worker is at the stages `rest` of phase `i`, on the right kernel. */
  predicate InPhase(ph: seq<Phase>, s: State, i: nat, rest: seq<Stage>) {
    && Remaining(ph, i, rest, |s.log.marked|)
    && BootMatches(ph[i].variant, ph[i].threaded, s.boot)
    && s.torn == {}
  }

  predicate AllMarked(ph: seq<Phase>, s: State) { |s.log.marked| == |AllStages(ph)| }

  predicate WorkerOk(ph: seq<Phase>, s: State) {
    var st := s.journal.status;
    match s.worker
    case Off => true
    case Starting => true
    case Handling(_) => true
    case Looping => st == Running
    case WritingCmdline(i, _, _) => st == Running && i < |ph|
    case WritingConfig(i, _) => st == Running && i < |ph|
    case SavingPending(i) => st == Running && i < |ph|
    case Requesting(i) => st == Rebooting && i < |ph|
    case Entering(i, rest) => st == Running && rest != [] && InPhase(ph, s, i, rest)
    case Launching(i, rest) => st == Running && rest != [] && InPhase(ph, s, i, rest)
    case Acquiring(i, rest) => st == Running && rest != [] && InPhase(ph, s, i, rest)
    case Confirming(i, rest) => st == Running && rest != [] && rest[0] in s.valid && InPhase(ph, s, i, rest[1..])
    case Analyzing => st == Running && AllMarked(ph, s)
    case Restoring(k, completing) =>
      && RestoredUpTo(s, k)
      && if completing then st == Running && AllMarked(ph, s) && s.derived == WithManifest else st == Failed
    case SavingComplete => st == Running && AllMarked(ph, s) && s.derived == WithManifest && s.files == s.before
    case Disabling(restored, completing) =>
      && (restored ==> s.files == s.before)
      && st == if completing then Complete else Failed
  }

  predicate ControlOk(s: State) {
    && (s.control.StopDisabled? ==> !s.enabled)
    && (s.control.Stopping? ==> s.worker == Off && !s.enabled && RestoredUpTo(s, s.control.written))
  }

  predicate Inv(ph: seq<Phase>, s: State) {
    && WellFormed(ph)
    && Progress(ph, s)
    && WorkerOk(ph, s)
    && (s.journal.status == Complete ==> AllMarked(ph, s) && s.derived == WithManifest)
    && ControlOk(s)
  }

  lemma InvInit(ph: seq<Phase>, s: State)
    requires WellFormed(ph) && Init(s)
    ensures Inv(ph, s)
  {
  }

  lemma ValidMeansMarked(ph: seq<Phase>, s: State)
    requires WellFormed(ph) && Progress(ph, s)
    ensures forall k :: 0 <= k < |AllStages(ph)| ==> (AllStages(ph)[k] in s.valid <==> k < |s.log.marked|)
  {
  }

  /** A step that writes no marker and starts nothing keeps the progress. */
  lemma FrameProgress(ph: seq<Phase>, s: State, t: State)
    requires Progress(ph, s)
    requires t.valid == s.valid && t.torn == s.torn
    requires t.log.started == s.log.started && t.log.marked == s.log.marked
    ensures Progress(ph, t)
  {
  }

  lemma NextValid(ph: seq<Phase>, s: State, i: nat, rest: seq<Stage>)
    requires WellFormed(ph) && Progress(ph, s) && Remaining(ph, i, rest, |s.log.marked|) && rest != []
    ensures |s.log.marked| < |AllStages(ph)|
    ensures rest[0] == AllStages(ph)[|s.log.marked|] && rest[0] !in s.valid
  {
  }

  lemma PickMeaning(ph: seq<Phase>, s: State)
    requires WellFormed(ph) && Progress(ph, s)
    ensures var r := NextPhase(ph, s.valid, s.torn, 0);
            && (r.AllDone? <==> AllMarked(ph, s))
            && (r.Pick? <==> !AllMarked(ph, s) && s.torn == {})
            && (r.Pick? ==> Remaining(ph, r.phase, r.pending, |s.log.marked|))
  {
    ValidMeansMarked(ph, s);
    NextPhaseMeaning(ph, s.valid, s.torn, |s.log.marked|, 0);
  }

  lemma PickKeepsInv(ph: seq<Phase>, s: State)
    requires Inv(ph, s) && s.worker.Looping?
    ensures Inv(ph, AfterPick(ph, s))
  {
    PickMeaning(ph, s);
    FrameProgress(ph, s, AfterPick(ph, s));
  }

  lemma NextStartIsLawful(ph: seq<Phase>, s: State, i: nat, rest: seq<Stage>)
    requires InPhase(ph, s, i, rest) && rest != []
    ensures LawfulStart(ph, Start(rest[0], s.boot))
  {
    NextStageInPhase(ph, i, |s.log.marked|);
  }

  lemma LaunchKeepsProgress(ph: seq<Phase>, s: State, t: State, start: Start)
    requires Progress(ph, s) && LawfulStart(ph, start)
    requires t.valid == s.valid && t.torn == s.torn && t.log.marked == s.log.marked
    requires t.log.started == s.log.started + [start]
    ensures Progress(ph, t)
  {
  }

  lemma LaunchKeepsInv(ph: seq<Phase>, s: State)
    requires Inv(ph, s) && s.worker.Launching?
    ensures Inv(ph, AfterLaunch(s, s.worker.phase, s.worker.rest))
  {
    var i, rest := s.worker.phase, s.worker.rest;
    NextValid(ph, s, i, rest);
    NextStartIsLawful(ph, s, i, rest);
    LaunchKeepsProgress(ph, s, AfterLaunch(s, i, rest), Start(rest[0], s.boot));
  }

  lemma FinishKeepsProgress(ph: seq<Phase>, s: State, t: State, stage: Stage)
    requires WellFormed(ph) && Progress(ph, s) && |s.log.marked| < |AllStages(ph)|
    requires stage == AllStages(ph)[|s.log.marked|] && s.torn == {}
    requires t.valid == s.valid + {stage} && t.torn == s.torn
    requires t.log.started == s.log.started && t.log.marked == s.log.marked + [stage]
    ensures Progress(ph, t)
  {
    var all, n := AllStages(ph), |s.log.marked|;
    assert t.log.marked == all[..n + 1];
    assert t.valid == (set k | 0 <= k < n + 1 :: all[k]);
  }

  lemma FinishKeepsRemaining(ph: seq<Phase>, i: nat, rest: seq<Stage>, n: nat)
    requires Remaining(ph, i, rest, n) && rest != []
    ensures Remaining(ph, i, rest[1..], n + 1)
  {
    assert rest[1..] == AllStages(ph)[n + 1..n + |rest|];
  }

  lemma FinishKeepsInv(ph: seq<Phase>, s: State, t: State)
    requires Inv(ph, s) && WorkerStep(ph, s, FinishAcquisition, t)
    ensures Inv(ph, t)
  {
    NextValid(ph, s, s.worker.phase, s.worker.rest);
    FinishKeepsProgress(ph, s, t, s.worker.rest[0]);
    FinishKeepsWorker(ph, s, t);
  }

  lemma FinishKeepsWorker(ph: seq<Phase>, s: State, t: State)
    requires WorkerOk(ph, s) && WorkerStep(ph, s, FinishAcquisition, t)
    ensures WorkerOk(ph, t)
  {
    FinishKeepsRemaining(ph, s.worker.phase, s.worker.rest, |s.log.marked|);
  }

  lemma RestoreKeepsInv(ph: seq<Phase>, s: State, t: State)
    requires Inv(ph, s)
    requires WorkerStep(ph, s, RestoreFile, t) || WorkerStep(ph, s, RestoreDone, t)
             || OutsideStep(ph, s, StopRestores, t)
    ensures Inv(ph, t)
  {
    if s.worker.Restoring? && s.worker.written == 4 {
      assert s.files == s.before;
    }
  }

  lemma StartKeepsInv(ph: seq<Phase>, s: State)
    requires Inv(ph, s) && s.worker.Starting?
    ensures Inv(ph, AfterStartChecks(s))
  {
    FrameProgress(ph, s, AfterStartChecks(s));
  }

  lemma ConfirmKeepsInv(ph: seq<Phase>, s: State)
    requires Inv(ph, s) && s.worker.Confirming?
    ensures Inv(ph, AfterConfirm(s, s.worker.phase, s.worker.rest))
  {
    FrameProgress(ph, s, AfterConfirm(s, s.worker.phase, s.worker.rest));
  }

  /** Steps on the way to a reboot or into a stage. */
  predicate Preparing(a: Action) {
    a.WriteCmdline? || a.WriteConfig? || a.SavePending? || a.RequestReboot? || a.SaveActive?
  }

  /** Steps on the way out of the campaign. */
  predicate Ending(a: Action) {
    a.Analyze? || a.SaveComplete? || a.Disable? || a.Raise? || a.SaveRaises? || a.SaveFailed?
  }

  lemma PreparingKeepsInv(ph: seq<Phase>, s: State, a: Action, t: State)
    requires Inv(ph, s) && WorkerStep(ph, s, a, t) && Preparing(a)
    ensures Inv(ph, t)
  {
    FrameProgress(ph, s, t);
  }

  lemma EndingKeepsInv(ph: seq<Phase>, s: State, a: Action, t: State)
    requires Inv(ph, s) && WorkerStep(ph, s, a, t) && Ending(a)
    ensures Inv(ph, t)
  {
    FrameProgress(ph, s, t);
  }

  predicate Advancing(a: Action) {
    a.StartChecks? || a.PickPhase? || a.Launch? || a.Confirm?
  }

  lemma AdvancingKeepsInv(ph: seq<Phase>, s: State, a: Action, t: State)
    requires Inv(ph, s) && WorkerStep(ph, s, a, t) && Advancing(a)
    ensures Inv(ph, t)
  {
    if a.StartChecks? {
      StartKeepsInv(ph, s);
    } else if a.PickPhase? {
      PickKeepsInv(ph, s);
    } else if a.Launch? {
      LaunchKeepsInv(ph, s);
    } else {
      ConfirmKeepsInv(ph, s);
    }
  }

  lemma WorkerStepKeepsInv(ph: seq<Phase>, s: State, a: Action, t: State)
    requires Inv(ph, s) && WorkerStep(ph, s, a, t)
    ensures Inv(ph, t)
  {
    if Advancing(a) {
      AdvancingKeepsInv(ph, s, a, t);
    } else if Preparing(a) {
      PreparingKeepsInv(ph, s, a, t);
    } else if Ending(a) {
      EndingKeepsInv(ph, s, a, t);
    } else if a.FinishAcquisition? {
      FinishKeepsInv(ph, s, t);
    } else {
      RestoreKeepsInv(ph, s, t);
    }
  }

  lemma TearKeepsProgress(ph: seq<Phase>, s: State, t: State)
    requires Inv(ph, s) && s.worker.Acquiring?
    requires t == s.(torn := s.torn + {s.worker.rest[0]}, worker := t.worker)
    ensures Progress(ph, t)
  {
    NextValid(ph, s, s.worker.phase, s.worker.rest);
    assert t.torn == {s.worker.rest[0]};
  }

  lemma TearKeepsInv(ph: seq<Phase>, s: State, a: Action, t: State)
    requires Inv(ph, s) && a.WorkerTears? && OutsideStep(ph, s, a, t)
    ensures Inv(ph, t)
  {
    if s.worker.Acquiring? {
      TearKeepsProgress(ph, s, t);
    } else {
      FrameProgress(ph, s, t);
    }
  }

  lemma ResumeKeepsInv(ph: seq<Phase>, s: State, a: Action, t: State)
    requires Inv(ph, s) && (a.ResumeReads? || a.ResumeCommits?) && OutsideStep(ph, s, a, t)
    ensures Inv(ph, t)
  {
    FrameProgress(ph, s, t);
  }

  lemma StopKeepsInv(ph: seq<Phase>, s: State, a: Action, t: State)
    requires Inv(ph, s) && OutsideStep(ph, s, a, t)
    requires a.StopReads? || a.StopDisables? || a.StopKills? || a.StopSaves? || a.ControlDies? || a.ControlTears?
    ensures Inv(ph, t)
  {
    FrameProgress(ph, s, t);
  }

  lemma OutsideStepKeepsInv(ph: seq<Phase>, s: State, a: Action, t: State)
    requires Inv(ph, s) && OutsideStep(ph, s, a, t)
    ensures Inv(ph, t)
  {
    if a.StopRestores? {
      RestoreKeepsInv(ph, s, t);
    } else if a.WorkerTears? {
      TearKeepsInv(ph, s, a, t);
    } else if a.ResumeReads? || a.ResumeCommits? {
      ResumeKeepsInv(ph, s, a, t);
    } else if a.WorkerDies? || a.PowerCycle? {
      FrameProgress(ph, s, t);
    } else {
      StopKeepsInv(ph, s, a, t);
    }
  }

  // ----- every run

  predicate CampaignRun(ph: seq<Phase>, run: seq<State>, acts: seq<Action>) {
    WellFormed(ph) && IsRun(ph, run, acts)
  }

  lemma {:induction false} InvRun(ph: seq<Phase>, run: seq<State>, acts: seq<Action>, i: nat)
    requires CampaignRun(ph, run, acts) && i < |run|
    ensures Inv(ph, run[i])
  {
    if i == 0 {
      InvInit(ph, run[0]);
    } else {
      InvRun(ph, run, acts, i - 1);
      var s, a, t := run[i - 1], acts[i - 1], run[i];
      assert StepAt(ph, run, acts, i - 1);
      if WorkerStep(ph, s, a, t) {
        WorkerStepKeepsInv(ph, s, a, t);
      } else {
        OutsideStepKeepsInv(ph, s, a, t);
      }
    }
  }

  /** The valid markers are always those of a prefix of the flattened phases. */
  lemma CompletedStagesAreAPrefix(ph: seq<Phase>, run: seq<State>, acts: seq<Action>, i: nat)
    requires CampaignRun(ph, run, acts) && i < |run|
    ensures exists n :: 0 <= n <= |AllStages(ph)| && forall st :: st in run[i].valid <==> st in AllStages(ph)[..n]
  {
    InvRun(ph, run, acts, i);
    var n := |run[i].log.marked|;
    forall st ensures st in run[i].valid <==> st in AllStages(ph)[..n] {
    }
  }

  /** Each start happens under a boot that matches the kernel and the threadirqs
      setting of its own phase. */
  lemma StartsAreLawful(ph: seq<Phase>, run: seq<State>, acts: seq<Action>, i: nat, k: nat)
    requires CampaignRun(ph, run, acts) && i < |run| && k < |run[i].log.started|
    ensures LawfulStart(ph, run[i].log.started[k])
  {
    InvRun(ph, run, acts, i);
  }

  /** A torn marker stays, and no stage is started after it. */
  lemma {:induction false} TornMarkerEndsStarts(ph: seq<Phase>, run: seq<State>, acts: seq<Action>, i: nat, j: nat)
    requires CampaignRun(ph, run, acts) && i <= j < |run| && run[i].torn != {}
    ensures run[j].torn == run[i].torn && run[j].log.started == run[i].log.started
    decreases j - i
  {
    if i < j {
      TornMarkerEndsStarts(ph, run, acts, i, j - 1);
      InvRun(ph, run, acts, j - 1);
      assert StepAt(ph, run, acts, j - 1);
      TornStepStartsNothing(ph, run[j - 1], acts[j - 1], run[j]);
    }
  }

  lemma TornStepStartsNothing(ph: seq<Phase>, s: State, a: Action, t: State)
    requires Inv(ph, s) && s.torn != {} && Next(ph, s, a, t)
    ensures t.torn == s.torn && t.log.started == s.log.started
  {
    if WorkerStep(ph, s, a, t) {
      TornWorkerStartsNothing(ph, s, a, t);
    }
  }

  lemma TornWorkerStartsNothing(ph: seq<Phase>, s: State, a: Action, t: State)
    requires WorkerOk(ph, s) && s.torn != {} && WorkerStep(ph, s, a, t)
    ensures t.torn == s.torn && t.log.started == s.log.started
  {
  }

  // ----- completion

  /** `complete` is only ever recorded with every stage marked and the derived
      manifest present. */
  lemma CompleteMeansDone(ph: seq<Phase>, run: seq<State>, acts: seq<Action>, i: nat)
    requires CampaignRun(ph, run, acts) && i < |run| && run[i].journal.status == Complete
    ensures forall st :: st in AllStages(ph) ==> st in run[i].valid
    ensures run[i].derived == WithManifest
  {
    InvRun(ph, run, acts, i);
    ValidMeansMarked(ph, run[i]);
  }

  /** Derived output is made once; without its manifest it stays so, and the
      campaign never completes. */
  lemma {:induction false} DerivedIsKept(ph: seq<Phase>, run: seq<State>, acts: seq<Action>, i: nat, j: nat)
    requires CampaignRun(ph, run, acts) && i <= j < |run| && run[i].derived != Missing
    ensures run[j].derived == run[i].derived
    ensures run[i].derived == WithoutManifest ==> run[j].journal.status != Complete
    decreases j - i
  {
    InvRun(ph, run, acts, j);
    if i < j {
      DerivedIsKept(ph, run, acts, i, j - 1);
      assert StepAt(ph, run, acts, j - 1);
      StepKeepsDerived(ph, run[j - 1], acts[j - 1], run[j]);
    }
  }

  lemma StepKeepsDerived(ph: seq<Phase>, s: State, a: Action, t: State)
    requires Next(ph, s, a, t) && s.derived != Missing
    ensures t.derived == s.derived
  {
  }

  lemma {:induction false} SnapshotIsFixed(ph: seq<Phase>, run: seq<State>, acts: seq<Action>, i: nat)
    requires IsRun(ph, run, acts) && i < |run|
    ensures run[i].before == run[0].files
  {
    if i > 0 {
      SnapshotIsFixed(ph, run, acts, i - 1);
      assert StepAt(ph, run, acts, i - 1);
      StepKeepsSnapshot(ph, run[i - 1], acts[i - 1], run[i]);
    }
  }

  lemma StepKeepsSnapshot(ph: seq<Phase>, s: State, a: Action, t: State)
    requires Next(ph, s, a, t)
    ensures t.before == s.before
  {
  }

  /** The step records `complete`, ends a handled failure after the boot files
      were written back, or records the end of `stop`. */
  predicate Settles(s: State, a: Action) {
    a.SaveComplete? || (a.Disable? && s.worker.Disabling? && s.worker.restored) || a.StopSaves?
  }

  /** Whatever selections, torn writes and failures came before, a campaign that
      settles has the boot files as they were found. */
  lemma SettledCampaignRestoresBootFiles(ph: seq<Phase>, run: seq<State>, acts: seq<Action>, i: nat)
    requires CampaignRun(ph, run, acts) && i < |acts| && Settles(run[i], acts[i])
    ensures run[i + 1].files == run[0].files
    ensures !acts[i].SaveComplete? ==> !run[i + 1].enabled
  {
    InvRun(ph, run, acts, i);
    SnapshotIsFixed(ph, run, acts, i);
    assert StepAt(ph, run, acts, i);
    if acts[i].StopSaves? {
      assert run[i].files == run[i].before;
    }
  }

  // ----- longer runs

  predicate Extends(run: seq<State>, acts: seq<Action>, longer: seq<State>, more: seq<Action>) {
    |run| <= |longer| && |acts| <= |more| && longer[..|run|] == run && more[..|acts|] == acts
  }

  /** One more step. */
  lemma Extend(ph: seq<Phase>, run: seq<State>, acts: seq<Action>, a: Action, t: State)
    returns (longer: seq<State>, more: seq<Action>)
    requires IsRun(ph, run, acts) && Next(ph, run[|run| - 1], a, t)
    ensures IsRun(ph, longer, more) && Extends(run, acts, longer, more)
    ensures longer == run + [t] && more == acts + [a]
  {
    longer, more := run + [t], acts + [a];
    forall i | 0 <= i < |more| ensures StepAt(ph, longer, more, i) {
      assert i < |acts| ==> StepAt(ph, run, acts, i);
    }
  }

  lemma ExtendsTwice(
      run: seq<State>, acts: seq<Action>, mid: seq<State>, steps: seq<Action>, longer: seq<State>, more: seq<Action>)
    requires Extends(run, acts, mid, steps) && Extends(mid, steps, longer, more)
    ensures Extends(run, acts, longer, more)
    ensures forall k :: 0 <= k < |steps| ==> more[k] == steps[k]
  {
    assert longer[..|run|] == longer[..|mid|][..|run|];
    assert more[..|acts|] == more[..|steps|][..|acts|];
  }

  /** The handler of an exception records the failure and is killed while it
      writes the first boot file. */
  lemma HandlerTears(ph: seq<Phase>, run: seq<State>, acts: seq<Action>, garbage: string)
    returns (longer: seq<State>, more: seq<Action>)
    requires CampaignRun(ph, run, acts) && run[|run| - 1].worker.Handling?
    ensures CampaignRun(ph, longer, more) && Extends(run, acts, longer, more)
    ensures more == acts + [SaveFailed, WorkerTears(garbage, false)]
    ensures var s := run[|run| - 1];
            longer[|longer| - 1] == s.(journal := s.worker.memory.(status := Failed),
                                       files := s.files[0 := garbage], worker := Off)
  {
    var s := run[|run| - 1];
    s := s.(journal := s.worker.memory.(status := Failed), worker := Restoring(0, false));
    var mid, steps := Extend(ph, run, acts, SaveFailed, s);
    s := s.(files := s.files[0 := garbage], worker := Off);
    longer, more := Extend(ph, mid, steps, WorkerTears(garbage, false), s);
    ExtendsTwice(run, acts, mid, steps, longer, more);
  }

  /** Writing all boot files back. */
  lemma RestoreAll(ph: seq<Phase>, run: seq<State>, acts: seq<Action>)
    returns (longer: seq<State>, more: seq<Action>)
    requires CampaignRun(ph, run, acts)
    requires run[|run| - 1].worker.Restoring? && run[|run| - 1].worker.written == 0
    ensures CampaignRun(ph, longer, more) && Extends(run, acts, longer, more)
    ensures more == acts + [RestoreFile, RestoreFile, RestoreFile, RestoreFile]
    ensures var s := run[|run| - 1];
            longer[|longer| - 1] == s.(files := s.before, worker := Restoring(4, s.worker.completing))
  {
    longer, more := run, acts;
    var s := run[|run| - 1];
    for k := 0 to 4
      invariant CampaignRun(ph, longer, more) && Extends(run, acts, longer, more)
      invariant more == acts + seq(k, i => RestoreFile)
      invariant longer[|longer| - 1] == s.(files := longer[|longer| - 1].files,
                                           worker := Restoring(k, s.worker.completing))
      invariant RestoredUpTo(longer[|longer| - 1], k)
    {
      var last := longer[|longer| - 1];
      var next := last.(files := last.files[k := last.before[k]], worker := Restoring(k + 1, s.worker.completing));
      var mid, steps := longer, more;
      longer, more := Extend(ph, mid, steps, RestoreFile, next);
      ExtendsTwice(run, acts, mid, steps, longer, more);
    }
    assert longer[|longer| - 1].files == s.before;
  }

  // ----- the shipped phase lists

  lemma {:induction false} ExcludingKeepsDistinct(stages: seq<Stage>, out: set<Stage>)
    requires Distinct(stages)
    ensures Distinct(Excluding(stages, out))
    ensures forall st :: st in Excluding(stages, out) <==> st in stages && st !in out
  {
    if stages != [] {
      assert Distinct(stages[1..]);
      ExcludingKeepsDistinct(stages[1..], out);
      assert stages[0] !in stages[1..];
    }
  }

  lemma {:induction false} ExcludingAppend(a: seq<Stage>, b: seq<Stage>, out: set<Stage>)
    ensures Excluding(a + b, out) == Excluding(a, out) + Excluding(b, out)
  {
    if a == [] {
      assert a + b == b;
    } else {
      assert (a + b)[0] == a[0] && (a + b)[1..] == a[1..] + b;
      ExcludingAppend(a[1..], b, out);
    }
  }

  lemma {:induction false} StagesOfPrefix(ph: seq<Phase>, n: nat, i: nat)
    requires i <= n <= |ph|
    ensures Stages(ph[..n], i) == Stages(ph, i)
  {
    if i > 0 {
      StagesOfPrefix(ph, n, i - 1);
    }
  }

  /** Dropping stages drops them from the flattened list and changes nothing else. */
  lemma {:induction false} SmokeStages(ph: seq<Phase>, out: set<Stage>)
    ensures AllStages(SmokePhases(ph, out)) == Excluding(AllStages(ph), out)
  {
    if ph != [] {
      var n := |ph| - 1;
      var head := ph[..n];
      SmokeStages(head, out);
      var smoke := SmokePhases(ph, out);
      assert smoke[..n] == SmokePhases(head, out);
      StagesOfPrefix(smoke, n, n);
      StagesOfPrefix(ph, n, n);
      ExcludingAppend(Stages(ph, n), ph[n].stages, out);
    }
  }

  /** The smoke variant of a well-formed campaign is well formed, so every result
      above holds for it too. */
  lemma SmokeIsWellFormed(ph: seq<Phase>, out: set<Stage>)
    requires WellFormed(ph)
    ensures WellFormed(SmokePhases(ph, out))
  {
    SmokeStages(ph, out);
    ExcludingKeepsDistinct(AllStages(ph), out);
  }

  lemma ShippedPhasesAreWellFormed()
    ensures WellFormed(PHASES) && WellFormed(SmokePhases(PHASES, SUPPLEMENTS))
  {
    var names := ["e1", "e2-calibrate", "ablation", "e3", "e4-calibrate", "e4-standard-threaded", "e2-urb5",
                  "startup", "e2-urb16", "e4-standard-hardirq", "overhead", "diagnosis", "e4-rt-threaded"];
    assert Stages(PHASES, 0) == [];
    assert Stages(PHASES, 1) == names[..2];
    assert Stages(PHASES, 2) == names[..6];
    assert Stages(PHASES, 3) == names[..7];
    assert Stages(PHASES, 4) == names[..12];
    assert Stages(PHASES, 5) == names;
    forall i, j | 0 <= i < j < |names| ensures names[i] != names[j] {
      assert |names[i]| == |names[j]| ==> names[i][0] != names[j][0] || names[i][1] != names[j][1];
    }
    SmokeIsWellFormed(PHASES, SUPPLEMENTS);
  }
}
