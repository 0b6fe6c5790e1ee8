/** When a completed campaign is final, and how a recorded completion can be lost. */
module CampaignCompletion {
  import opened Wrappers
  import opened KernelSelection
  import opened Campaign
  import opened CampaignSafety

  // ----- while the status stays complete

  /** No step but a `stop` under way writes a boot file of a completed campaign. */
  predicate WritesNothing(w: Worker) {
    w.Off? || w.Starting? || w.Handling? || (w.Disabling? && w.completing)
  }

  predicate StopUnderWay(c: Control) { c.StopRead? || c.StopDisabled? || c.Stopping? }

  predicate StaysComplete(run: seq<State>, i: nat, j: nat)
    requires i <= j < |run|
  {
    forall k :: i <= k <= j ==> run[k].journal.status == Complete
  }

  /** A `stop` is interrupted in the middle of writing a boot file back. */
  predicate TearsBootFile(s: State, a: Action) {
    && a.ControlTears? && s.control.Stopping? && s.control.written < 4
    && a.garbage != s.before[s.control.written]
  }

  predicate NoBootFileTorn(run: seq<State>, acts: seq<Action>, i: nat, j: nat)
    requires i <= j < |run| && j <= |acts|
  {
    forall k :: i <= k < j ==> !TearsBootFile(run[k], acts[k])
  }

  lemma CompleteStep(ph: seq<Phase>, s: State, a: Action, t: State)
    requires Next(ph, s, a, t) && s.journal.status == Complete == t.journal.status && WritesNothing(s.worker)
    ensures WritesNothing(t.worker) && t.before == s.before
    ensures s.files == s.before ==> (t.files == t.before <==> !TearsBootFile(s, a))
    ensures TearsBootFile(s, a) ==> t.control.Idle?
    ensures !StopUnderWay(s.control) ==> !StopUnderWay(t.control) && t.files == s.files
  {
    if a.StopRestores? && s.files == s.before {
      assert t.files == s.files;
    } else if a.ControlTears? {
      assert t.files[s.control.written] == a.garbage;
    }
  }

  /** From the step that records `complete` on, and as long as that is the
      status, the boot files equal the snapshot exactly when no `stop` was
      interrupted while writing one of them. */
  lemma {:induction false} CompletedFilesExactly(
      ph: seq<Phase>, run: seq<State>, acts: seq<Action>, i: nat, j: nat)
    requires CampaignRun(ph, run, acts) && i < j < |run| && acts[i].SaveComplete? && StaysComplete(run, i + 1, j)
    ensures WritesNothing(run[j].worker)
    ensures run[j].files == run[j].before <==> NoBootFileTorn(run, acts, i + 1, j)
    ensures run[j].files == run[j].before || !StopUnderWay(run[j].control)
    decreases j - i
  {
    assert StepAt(ph, run, acts, j - 1);
    if j == i + 1 {
      InvRun(ph, run, acts, i);
    } else {
      CompletedFilesExactly(ph, run, acts, i, j - 1);
      CompleteStep(ph, run[j - 1], acts[j - 1], run[j]);
    }
  }

  /** The run goes on by recording `complete`, keeps that status, and ends with
      boot files other than the snapshot. */
  predicate DamagesCompleted(
      ph: seq<Phase>, run: seq<State>, acts: seq<Action>, longer: seq<State>, more: seq<Action>) {
    && run != [] && |run| == |acts| + 1 && |longer| > |run|
    && IsRun(ph, longer, more) && Extends(run, acts, longer, more)
    && more[|acts|].SaveComplete? && StaysComplete(longer, |run|, |longer| - 1)
    && longer[|longer| - 1].files != longer[|longer| - 1].before
  }

  lemma StopTears(ph: seq<Phase>, run: seq<State>, acts: seq<Action>)
    returns (longer: seq<State>, more: seq<Action>)
    requires CampaignRun(ph, run, acts) && run[|run| - 1].control.StopDisabled?
    requires run[|run| - 1].journal.status == Complete
    ensures CampaignRun(ph, longer, more) && Extends(run, acts, longer, more) && |longer| == |run| + 2
    ensures StaysComplete(longer, |run| - 1, |run| + 1) && longer[|run| + 1].files != longer[|run| + 1].before
  {
    var s := run[|run| - 1];
    var killed, steps := Extend(ph, run, acts, StopKills, s.(worker := Off, control := Stopping(0)));
    var garbage := s.before[0] + "?";
    assert |garbage| != |s.before[0]|;
    var t := s.(worker := Off, files := s.files[0 := garbage], control := Idle);
    assert t.files[0] == garbage;
    longer, more := Extend(ph, killed, steps, ControlTears(garbage), t);
    ExtendsTwice(run, acts, killed, steps, longer, more);
  }

  /** A stop that read the unfinished status goes as far as it needs to. */
  lemma StopDisablesFirst(ph: seq<Phase>, run: seq<State>, acts: seq<Action>)
    returns (longer: seq<State>, more: seq<Action>)
    requires CampaignRun(ph, run, acts)
    requires run[|run| - 1].control.StopRead? || run[|run| - 1].control.StopDisabled?
    requires run[|run| - 1].journal.status == Complete
    ensures CampaignRun(ph, longer, more) && Extends(run, acts, longer, more) && |longer| > |run|
    ensures StaysComplete(longer, |run| - 1, |longer| - 1)
    ensures longer[|longer| - 1].files != longer[|longer| - 1].before
  {
    var s := run[|run| - 1];
    if s.control.StopDisabled? {
      longer, more := StopTears(ph, run, acts);
    } else {
      var mid, steps := Extend(ph, run, acts, StopDisables, s.(enabled := false, control := StopDisabled));
      longer, more := StopTears(ph, mid, steps);
      ExtendsTwice(run, acts, mid, steps, longer, more);
      assert longer[|run| - 1] == longer[..|run|][|run| - 1];
    }
  }

  lemma LateStopDamages(ph: seq<Phase>, run: seq<State>, acts: seq<Action>)
    returns (longer: seq<State>, more: seq<Action>)
    requires CampaignRun(ph, run, acts) && run[|run| - 1].worker.SavingComplete? && StopUnderWay(run[|run| - 1].control)
    ensures DamagesCompleted(ph, run, acts, longer, more)
  {
    InvRun(ph, run, acts, |run| - 1);
    var done, steps := RecordCompletion(ph, run, acts);
    longer, more := StopDisablesFirst(ph, done, steps);
    ExtendsTwice(run, acts, done, steps, longer, more);
  }

  lemma {:induction false} UndisturbedCompletion(
      ph: seq<Phase>, run: seq<State>, acts: seq<Action>, i: nat, j: nat)
    requires CampaignRun(ph, run, acts) && i < j < |run| && acts[i].SaveComplete? && StaysComplete(run, i + 1, j)
    requires !StopUnderWay(run[i].control)
    ensures !StopUnderWay(run[j].control) && WritesNothing(run[j].worker)
    ensures run[j].files == run[j].before
    decreases j - i
  {
    assert StepAt(ph, run, acts, j - 1);
    if j == i + 1 {
      InvRun(ph, run, acts, i);
    } else {
      UndisturbedCompletion(ph, run, acts, i, j - 1);
      CompleteStep(ph, run[j - 1], acts[j - 1], run[j]);
    }
  }

  /** As long as the recorded completion stands, the restored boot files can only
      be damaged by a `stop` that read the unfinished `pipeline.json` before, and
      such a `stop` can damage them. */
  lemma WhileCompleteOnlyAStopDamages(ph: seq<Phase>, run: seq<State>, acts: seq<Action>)
    requires CampaignRun(ph, run, acts) && run[|run| - 1].worker.SavingComplete?
    ensures (exists longer, more :: DamagesCompleted(ph, run, acts, longer, more)) <==>
            StopUnderWay(run[|run| - 1].control)
  {
    if StopUnderWay(run[|run| - 1].control) {
      var longer, more := LateStopDamages(ph, run, acts);
    } else if longer, more :| DamagesCompleted(ph, run, acts, longer, more) {
      assert longer[|run| - 1] == longer[..|run|][|run| - 1];
      UndisturbedCompletion(ph, longer, more, |acts|, |longer| - 1);
    }
  }

  /** A campaign without stages, and without any command, is about to record completion. */
  lemma UndisturbedRun() returns (run: seq<State>, acts: seq<Action>)
    ensures CampaignRun([], run, acts) && |run| == |acts| + 1
    ensures forall k :: 0 <= k < |acts| ==> !acts[k].ResumeReads? && !acts[k].ResumeCommits? && !acts[k].StopReads?
    ensures var s := run[|run| - 1];
            && s.worker == SavingComplete && s.files == s.before && s.control == Idle && s.enabled
            && s.journal == Journal(Running, None, None)
  {
    run, acts := AnalyzedRun();
    var s := run[|run| - 1];
    assert s.(files := s.before, worker := Restoring(4, true)) == s.(worker := Restoring(4, true));
    run, acts := RestoreAll([], run, acts);
    run, acts := Extend([], run, acts, RestoreDone, s.(worker := SavingComplete));
  }

  lemma AnalyzedRun() returns (run: seq<State>, acts: seq<Action>)
    ensures CampaignRun([], run, acts) && acts == [StartChecks, PickPhase, Analyze(WithManifest)]
    ensures var s := run[|run| - 1];
            && s.worker == Restoring(0, true) && s.files == s.before && s.control == Idle && s.enabled
            && s.journal == Journal(Running, None, None)
  {
    var files: BootFiles := ["", "", "", ""];
    var s := State(Journal(Queued, None, None), {}, {}, files, files, true, Missing,
                   Boot(0, "", ""), Starting, Idle, false, History([], [], 0, 0, 0, {}, 0));
    assert AllStages([]) == [];
    run, acts := Extend([], [s], [], StartChecks, AfterStartChecks(s));
    s := AfterStartChecks(s);
    run, acts := Extend([], run, acts, PickPhase, s.(worker := Analyzing));
    s := AfterAnalyze(s.(worker := Analyzing), WithManifest);
    run, acts := Extend([], run, acts, Analyze(WithManifest), s);
  }

  /** Such a run exists: `stop` reads the status before the campaign completes, and
      is interrupted after that. */
  lemma LateStopTearsCompletedCampaign() returns (run: seq<State>, acts: seq<Action>)
    ensures CampaignRun([], run, acts)
    ensures run[|run| - 1].journal.status == Complete && run[|run| - 1].files != run[|run| - 1].before
  {
    run, acts := UndisturbedRun();
    var s := run[|run| - 1];
    run, acts := Extend([], run, acts, StopReads, s.(control := StopRead));
    var longer, more := LateStopDamages([], run, acts);
    assert StaysComplete(longer, |run|, |longer| - 1);
    run, acts := longer, more;
  }

  // ----- finality

  /** The campaign is complete, its service is stopped and disabled, and no
      command is under way. */
  predicate Closed(s: State) {
    s.journal.status == Complete && s.worker.Off? && !s.enabled && s.control.Idle?
  }

  lemma ClosedStep(ph: seq<Phase>, s: State, a: Action, t: State)
    requires Closed(s) && Next(ph, s, a, t)
    ensures Closed(t) && t.journal == s.journal && t.files == s.files && t.before == s.before
    ensures t.valid == s.valid && t.derived == s.derived && t.log.started == s.log.started
  {
  }

  /** A closed campaign stays closed, with the same journal, markers and boot
      files, and starts nothing any more. */
  lemma {:induction false} ClosedIsFinal(ph: seq<Phase>, run: seq<State>, acts: seq<Action>, i: nat, j: nat)
    requires CampaignRun(ph, run, acts) && i <= j < |run| && Closed(run[i])
    ensures Closed(run[j]) && run[j].journal == run[i].journal && run[j].files == run[i].files
    ensures run[j].before == run[i].before && run[j].valid == run[i].valid && run[j].derived == run[i].derived
    ensures run[j].log.started == run[i].log.started
    decreases j - i
  {
    if i < j {
      ClosedIsFinal(ph, run, acts, i, j - 1);
      assert StepAt(ph, run, acts, j - 1);
      ClosedStep(ph, run[j - 1], acts[j - 1], run[j]);
    }
  }

  /** Every recorded `active_stage` is a stage of the campaign. */
  predicate ActiveKnown(ph: seq<Phase>, s: State) {
    && Known(ph, s.journal)
    && (s.control.ResumeRead? ==> Known(ph, s.control.read))
    && (s.worker.Handling? ==> Known(ph, s.worker.memory))
  }

  predicate Known(ph: seq<Phase>, j: Journal) {
    j.active.Some? ==> j.active.value in AllStages(ph)
  }

  lemma WorkerKeepsActive(ph: seq<Phase>, s: State, a: Action, t: State)
    requires Inv(ph, s) && ActiveKnown(ph, s) && WorkerStep(ph, s, a, t)
    ensures ActiveKnown(ph, t)
  {
    if s.worker.Entering? {
      NextValid(ph, s, s.worker.phase, s.worker.rest);
    }
  }

  lemma OutsideKeepsActive(ph: seq<Phase>, s: State, a: Action, t: State)
    requires ActiveKnown(ph, s) && OutsideStep(ph, s, a, t)
    ensures ActiveKnown(ph, t)
  {
  }

  lemma {:induction false} ActiveRun(ph: seq<Phase>, run: seq<State>, acts: seq<Action>, i: nat)
    requires CampaignRun(ph, run, acts) && i < |run|
    ensures ActiveKnown(ph, run[i])
  {
    if i > 0 {
      ActiveRun(ph, run, acts, i - 1);
      InvRun(ph, run, acts, i - 1);
      assert StepAt(ph, run, acts, i - 1);
      if WorkerStep(ph, run[i - 1], acts[i - 1], run[i]) {
        WorkerKeepsActive(ph, run[i - 1], acts[i - 1], run[i]);
      } else {
        OutsideKeepsActive(ph, run[i - 1], acts[i - 1], run[i]);
      }
    }
  }

  /** The completion is gone and a boot file is not the one of the snapshot. */
  predicate Undone(s: State) { s.journal.status != Complete && s.files != s.before }

  /** No command was given from step `i` on. */
  predicate NoCommand(acts: seq<Action>, i: nat) {
    forall k :: i <= k < |acts| ==> !acts[k].ResumeReads? && !acts[k].ResumeCommits? && !acts[k].StopReads?
  }

  lemma HandlingUndoes(ph: seq<Phase>, run: seq<State>, acts: seq<Action>)
    returns (longer: seq<State>, more: seq<Action>)
    requires CampaignRun(ph, run, acts) && run[|run| - 1].worker.Handling?
    ensures CampaignRun(ph, longer, more) && Extends(run, acts, longer, more) && Undone(longer[|longer| - 1])
    ensures NoCommand(more, |acts|)
  {
    var before := run[|run| - 1].before;
    var garbage := before[0] + "?";
    assert |garbage| != |before[0]|;
    longer, more := HandlerTears(ph, run, acts, garbage);
    assert longer[|longer| - 1].files[0] == garbage;
  }

  /** An exception leads to the handler, which writes `failed` and the boot files. */
  lemma RaiseUndoes(ph: seq<Phase>, run: seq<State>, acts: seq<Action>)
    returns (longer: seq<State>, more: seq<Action>)
    requires CampaignRun(ph, run, acts)
    requires var w := run[|run| - 1].worker; w.Starting? || (w.Disabling? && w.completing)
    ensures CampaignRun(ph, longer, more) && Extends(run, acts, longer, more) && Undone(longer[|longer| - 1])
    ensures |longer| > |run| && more[|acts|] == Raise && NoCommand(more, |acts|)
  {
    var s := run[|run| - 1];
    var mid, steps := Extend(ph, run, acts, Raise, s.(worker := Handling(s.journal)));
    longer, more := HandlingUndoes(ph, mid, steps);
    ExtendsTwice(run, acts, mid, steps, longer, more);
  }

  /** The machine restarts while the service is still enabled: the worker does not
      look at the status and starts over. */
  lemma CrashUndoes(ph: seq<Phase>, run: seq<State>, acts: seq<Action>)
    returns (longer: seq<State>, more: seq<Action>)
    requires CampaignRun(ph, run, acts) && run[|run| - 1].enabled
    ensures CampaignRun(ph, longer, more) && Extends(run, acts, longer, more) && Undone(longer[|longer| - 1])
    ensures |longer| > |run| && more[|acts|].PowerCycle? && NoCommand(more, |acts|)
  {
    var s := run[|run| - 1];
    var t := AfterPowerCycle(s, s.boot.release, s.boot.cmdline);
    var mid, steps := Extend(ph, run, acts, PowerCycle(s.boot.release, s.boot.cmdline), t);
    longer, more := RaiseUndoes(ph, mid, steps);
    ExtendsTwice(run, acts, mid, steps, longer, more);
  }

  /** A resume that read the journal before completion writes `queued` over it. */
  lemma ResumeUndoes(ph: seq<Phase>, run: seq<State>, acts: seq<Action>)
    returns (longer: seq<State>, more: seq<Action>)
    requires CampaignRun(ph, run, acts)
    requires var s := run[|run| - 1];
             s.control.ResumeRead? && s.worker.Off? && !Interrupted(s.control.read.active, s.valid)
    ensures CampaignRun(ph, longer, more) && Extends(run, acts, longer, more) && Undone(longer[|longer| - 1])
    ensures |longer| > |run| && more[|acts|] == ResumeCommits(true)
  {
    var s := run[|run| - 1];
    var mid, steps := Extend(ph, run, acts, ResumeCommits(true), AfterResume(s, s.control.read, true));
    longer, more := RaiseUndoes(ph, mid, steps);
    ExtendsTwice(run, acts, mid, steps, longer, more);
  }

  lemma NothingInterrupted(ph: seq<Phase>, s: State, j: Journal)
    requires Inv(ph, s) && AllMarked(ph, s) && Known(ph, j)
    ensures !Interrupted(j.active, s.valid)
  {
    ValidMeansMarked(ph, s);
  }

  /** What a stop under way does next. */
  function StopStep(s: State): (r: (Action, State))
    requires StopUnderWay(s.control) && (s.control.Stopping? ==> s.control.written <= 4)
  {
    match s.control
    case StopRead => (StopDisables, s.(enabled := false, control := StopDisabled))
    case StopDisabled => (StopKills, s.(worker := Off, control := Stopping(0)))
    case Stopping(w) =>
      if w == 4 then (StopSaves, s.(journal := s.journal.(status := Stopped), control := Idle))
      else (StopRestores, s.(files := s.files[w := s.before[w]], control := Stopping(w + 1)))
  }

  function StopLeft(c: Control): nat {
    match c
    case StopRead => 7
    case StopDisabled => 6
    case Stopping(w) => if w <= 4 then 5 - w else 0
    case _ => 0
  }

  lemma StopGoesOn(ph: seq<Phase>, s: State)
    requires StopUnderWay(s.control) && ControlOk(s)
    ensures var (a, t) := StopStep(s);
            && Next(ph, s, a, t) && t.valid == s.valid && StopLeft(t.control) < StopLeft(s.control)
            && (if StopUnderWay(t.control) then t.journal == s.journal
                else t.journal == s.journal.(status := Stopped) && t.control.Idle? && t.worker.Off? && !t.enabled
                     && t.files == t.before)
  {
  }

  /** A stop under way can go on to write the boot files back and record `stopped`. */
  lemma {:induction false} StopFinishes(ph: seq<Phase>, run: seq<State>, acts: seq<Action>)
    returns (longer: seq<State>, more: seq<Action>)
    requires CampaignRun(ph, run, acts) && StopUnderWay(run[|run| - 1].control)
    ensures CampaignRun(ph, longer, more) && Extends(run, acts, longer, more)
    ensures var t := longer[|longer| - 1];
            && t.journal == run[|run| - 1].journal.(status := Stopped) && t.control.Idle?
            && t.worker.Off? && !t.enabled && t.files == t.before && t.valid == run[|run| - 1].valid
    decreases StopLeft(run[|run| - 1].control)
  {
    var s := run[|run| - 1];
    InvRun(ph, run, acts, |run| - 1);
    StopGoesOn(ph, s);
    var (a, t) := StopStep(s);
    var mid, steps := Extend(ph, run, acts, a, t);
    longer, more := mid, steps;
    if StopUnderWay(t.control) {
      longer, more := StopFinishes(ph, mid, steps);
      ExtendsTwice(run, acts, mid, steps, longer, more);
    }
  }

  /** After that the campaign can be resumed. */
  lemma StopUndoes(ph: seq<Phase>, run: seq<State>, acts: seq<Action>)
    returns (longer: seq<State>, more: seq<Action>)
    requires CampaignRun(ph, run, acts) && StopUnderWay(run[|run| - 1].control)
    requires run[|run| - 1].journal.status == Complete
    ensures CampaignRun(ph, longer, more) && Extends(run, acts, longer, more) && Undone(longer[|longer| - 1])
  {
    var stopped, acts1 := StopFinishes(ph, run, acts);
    var s := stopped[|stopped| - 1];
    var mid, steps := Extend(ph, stopped, acts1, ResumeReads, s.(control := ResumeRead(s.journal)));
    ExtendsTwice(run, acts, stopped, acts1, mid, steps);
    ActiveRun(ph, run, acts, |run| - 1);
    InvRun(ph, run, acts, |run| - 1);
    NothingInterrupted(ph, run[|run| - 1], run[|run| - 1].journal);
    longer, more := ResumeUndoes(ph, mid, steps);
    ExtendsTwice(run, acts, mid, steps, longer, more);
  }

  predicate Undoes(ph: seq<Phase>, run: seq<State>, acts: seq<Action>, longer: seq<State>, more: seq<Action>) {
    CampaignRun(ph, longer, more) && Extends(run, acts, longer, more) && Undone(longer[|longer| - 1])
  }

  lemma OpenCompletionUndone(ph: seq<Phase>, run: seq<State>, acts: seq<Action>)
    returns (longer: seq<State>, more: seq<Action>)
    requires CampaignRun(ph, run, acts)
    requires var s := run[|run| - 1]; s.journal.status == Complete && WritesNothing(s.worker) && !Closed(s)
    ensures Undoes(ph, run, acts, longer, more)
  {
    var s := run[|run| - 1];
    InvRun(ph, run, acts, |run| - 1);
    if s.worker.Handling? {
      longer, more := HandlingUndoes(ph, run, acts);
    } else if s.worker.Starting? {
      longer, more := RaiseUndoes(ph, run, acts);
    } else if s.enabled {
      longer, more := CrashUndoes(ph, run, acts);
    } else if StopUnderWay(s.control) {
      longer, more := StopUndoes(ph, run, acts);
    } else if s.worker.Off? {
      ActiveRun(ph, run, acts, |run| - 1);
      NothingInterrupted(ph, s, s.control.read);
      longer, more := ResumeUndoes(ph, run, acts);
    } else {
      longer, more := RaiseUndoes(ph, run, acts);
    }
  }

  /** A completed campaign can still be undone, journal and boot files, exactly
      when it is not closed: its worker has not ended, its service is enabled, or
      a command is under way. */
  lemma CompletionIsFinalExactly(ph: seq<Phase>, run: seq<State>, acts: seq<Action>)
    requires CampaignRun(ph, run, acts) && run[|run| - 1].journal.status == Complete
    ensures (exists longer, more :: Undoes(ph, run, acts, longer, more)) <==> !Closed(run[|run| - 1])
  {
    InvRun(ph, run, acts, |run| - 1);
    if !Closed(run[|run| - 1]) {
      var longer, more := OpenCompletionUndone(ph, run, acts);
    } else if longer, more :| Undoes(ph, run, acts, longer, more) {
      assert longer[|run| - 1] == longer[..|run|][|run| - 1];
      ClosedIsFinal(ph, longer, more, |run| - 1, |longer| - 1);
    }
  }

  /** Recording completion leaves it open: whatever the state, the machine can go
      down or the disabling of the service can fail right after. */
  lemma RecordedCompletionCanBeUndone(ph: seq<Phase>, run: seq<State>, acts: seq<Action>)
    returns (longer: seq<State>, more: seq<Action>)
    requires CampaignRun(ph, run, acts) && run[|run| - 1].worker.SavingComplete?
    ensures CampaignRun(ph, longer, more) && Extends(run, acts, longer, more) && Undone(longer[|longer| - 1])
    ensures |more| > |acts| && more[|acts|] == SaveComplete && NoCommand(more, |acts|)
  {
    var mid, steps := RecordCompletion(ph, run, acts);
    longer, more := RaiseUndoes(ph, mid, steps);
    ExtendsTwice(run, acts, mid, steps, longer, more);
  }

  lemma RecordCompletion(ph: seq<Phase>, run: seq<State>, acts: seq<Action>)
    returns (longer: seq<State>, more: seq<Action>)
    requires CampaignRun(ph, run, acts) && run[|run| - 1].worker.SavingComplete?
    ensures CampaignRun(ph, longer, more) && Extends(run, acts, longer, more) && |longer| == |run| + 1
    ensures more == acts + [SaveComplete]
    ensures var s := run[|run| - 1];
            longer[|run|] == s.(journal := s.journal.(status := Complete), worker := Disabling(true, true))
  {
    var s := run[|run| - 1];
    longer, more := Extend(ph, run, acts, SaveComplete,
                           s.(journal := s.journal.(status := Complete), worker := Disabling(true, true)));
  }

  // ----- runs in which a recorded completion is lost

  /** No command is ever given; the machine goes down before the service is disabled. */
  lemma CrashLosesCompletion() returns (run: seq<State>, acts: seq<Action>, i: nat)
    ensures CampaignRun([], run, acts) && Undone(run[|run| - 1]) && NoCommand(acts, 0)
    ensures i + 1 < |acts| && acts[i].SaveComplete? && acts[i + 1].PowerCycle?
  {
    run, acts := UndisturbedRun();
    i := |acts|;
    var before, earlier := run, acts;
    var done, steps := RecordCompletion([], run, acts);
    run, acts := CrashUndoes([], done, steps);
    ExtendsTwice(before, earlier, done, steps, run, acts);
  }

  /** No command is ever given; the service cannot be disabled. */
  lemma FailedDisableLosesCompletion() returns (run: seq<State>, acts: seq<Action>, i: nat)
    ensures CampaignRun([], run, acts) && Undone(run[|run| - 1]) && NoCommand(acts, 0)
    ensures i + 1 < |acts| && acts[i].SaveComplete? && acts[i + 1] == Raise
  {
    run, acts := UndisturbedRun();
    i := |acts|;
    var before, earlier := run, acts;
    var done, steps := RecordCompletion([], run, acts);
    run, acts := RaiseUndoes([], done, steps);
    ExtendsTwice(before, earlier, done, steps, run, acts);
  }

  /** A resume reads the journal before completion and commits after the service
      was disabled. */
  lemma LateResumeLosesCompletion() returns (run: seq<State>, acts: seq<Action>, i: nat)
    ensures CampaignRun([], run, acts) && Undone(run[|run| - 1])
    ensures i + 2 < |acts| && acts[i].SaveComplete? && acts[i + 1].Disable? && acts[i + 2] == ResumeCommits(true)
  {
    run, acts := UndisturbedRun();
    var s := run[|run| - 1];
    run, acts := Extend([], run, acts, ResumeReads, s.(control := ResumeRead(s.journal)));
    i := |acts|;
    var off, steps := CompleteAndDisable([], run, acts);
    run, acts := ResumeUndoes([], off, steps);
    assert acts[i] == acts[..|steps|][i] && acts[i + 1] == acts[..|steps|][i + 1];
  }

  lemma CompleteAndDisable(ph: seq<Phase>, run: seq<State>, acts: seq<Action>)
    returns (longer: seq<State>, more: seq<Action>)
    requires CampaignRun(ph, run, acts) && run[|run| - 1].worker.SavingComplete?
    ensures CampaignRun(ph, longer, more) && Extends(run, acts, longer, more) && more == acts + [SaveComplete, Disable]
    ensures var s := run[|run| - 1];
            longer[|longer| - 1] == s.(journal := s.journal.(status := Complete), enabled := false, worker := Off)
  {
    var done, steps := RecordCompletion(ph, run, acts);
    longer, more := Extend(ph, done, steps, Disable, done[|done| - 1].(enabled := false, worker := Off));
    ExtendsTwice(run, acts, done, steps, longer, more);
  }
}
