/** How often a stage is started.  A `resume` that read `pipeline.json` too early
    can make a started stage forgotten; without such a resume no stage is ever
    started twice, and with it a second start is possible exactly when the marker
    was not left torn. */
module CampaignStarts {
  import opened Wrappers
  import opened Text
  import opened KernelSelection
  import opened Campaign
  import opened CampaignSafety

  /** At most the next stage was started beyond the marked ones, and then the
      journal names it. */
  predicate OnceEach(ph: seq<Phase>, s: State) {
    var all, n, m := AllStages(ph), |s.log.marked|, |s.log.started|;
    && n <= m <= n + 1 && m <= |all|
    && (forall k :: 0 <= k < m ==> s.log.started[k].stage == all[k])
    && (m == n + 1 ==> s.journal.active == Some(all[n]))
  }

  predicate AllFinished(s: State) { |s.log.started| == |s.log.marked| }

  predicate WorkerOnce(s: State) {
    var active := s.journal.active;
    match s.worker
    case Off => true
    case Starting => true
    case Handling(memory) => memory.active == active || AllFinished(s)
    case Launching(_, rest) => rest != [] && active == Some(rest[0]) && AllFinished(s)
    case Acquiring(_, rest) => |s.log.started| == |s.log.marked| + 1
    case Confirming(_, rest) => AllFinished(s)
    case Restoring(_, completing) => completing ==> active == None
    case Disabling(_, completing) => completing ==> AllFinished(s)
    case _ => active == None
  }

  predicate Once(ph: seq<Phase>, s: State) {
    Inv(ph, s) && OnceEach(ph, s) && WorkerOnce(s)
  }

  lemma UnmarkedIsInterrupted(ph: seq<Phase>, s: State)
    requires Inv(ph, s) && OnceEach(ph, s)
    ensures AllFinished(s)
            || (Interrupted(s.journal.active, s.valid) && WasStarted(s, s.journal.active.value))
  {
    ValidMeansMarked(ph, s);
    var n := |s.log.marked|;
    if |s.log.started| == n + 1 {
      assert s.log.started[n].stage == AllStages(ph)[n];
    }
  }

  lemma FrameOnce(ph: seq<Phase>, s: State, t: State)
    requires OnceEach(ph, s)
    requires t.log.started == s.log.started && t.log.marked == s.log.marked
    requires t.journal.active == s.journal.active || AllFinished(s)
    ensures OnceEach(ph, t)
  {
  }

  lemma LaunchKeepsOnce(ph: seq<Phase>, s: State, t: State)
    requires Once(ph, s) && WorkerStep(ph, s, Launch, t)
    ensures OnceEach(ph, t) && WorkerOnce(t)
  {
    NextValid(ph, s, s.worker.phase, s.worker.rest);
  }

  lemma FinishKeepsOnce(ph: seq<Phase>, s: State, t: State)
    requires Once(ph, s) && WorkerStep(ph, s, FinishAcquisition, t)
    ensures OnceEach(ph, t) && WorkerOnce(t)
  {
  }

  lemma StartKeepsOnce(ph: seq<Phase>, s: State, t: State)
    requires Once(ph, s) && s.worker.Starting?
    requires WorkerStep(ph, s, StartChecks, t) || WorkerStep(ph, s, SaveRaises, t)
    ensures OnceEach(ph, t) && WorkerOnce(t)
  {
    if !Interrupted(s.journal.active, s.valid) {
      UnmarkedIsInterrupted(ph, s);
    }
  }

  lemma EndingKeepsOnce(ph: seq<Phase>, s: State, a: Action, t: State)
    requires OnceEach(ph, s) && WorkerOnce(s) && WorkerStep(ph, s, a, t) && Ending(a)
    requires s.worker.Starting? ==> a.Raise?
    ensures OnceEach(ph, t) && WorkerOnce(t)
  {
    FrameOnce(ph, s, t);
  }

  lemma OtherKeepsOnce(ph: seq<Phase>, s: State, a: Action, t: State)
    requires OnceEach(ph, s) && WorkerOnce(s) && WorkerStep(ph, s, a, t)
    requires !Ending(a) && !a.Launch? && !a.FinishAcquisition? && !a.StartChecks?
    ensures OnceEach(ph, t) && WorkerOnce(t)
  {
    FrameOnce(ph, s, t);
  }

  lemma WorkerStepKeepsOnce(ph: seq<Phase>, s: State, a: Action, t: State)
    requires Once(ph, s) && WorkerStep(ph, s, a, t)
    ensures OnceEach(ph, t) && WorkerOnce(t)
  {
    if a.Launch? {
      LaunchKeepsOnce(ph, s, t);
    } else if a.FinishAcquisition? {
      FinishKeepsOnce(ph, s, t);
    } else if s.worker.Starting? && !a.Raise? {
      StartKeepsOnce(ph, s, t);
    } else if Ending(a) {
      EndingKeepsOnce(ph, s, a, t);
    } else {
      OtherKeepsOnce(ph, s, a, t);
    }
  }

  lemma OutsideStepKeepsOnce(ph: seq<Phase>, s: State, a: Action, t: State)
    requires Once(ph, s) && OutsideStep(ph, s, a, t) && Timely(s, a)
    ensures OnceEach(ph, t) && WorkerOnce(t)
  {
    if a.ResumeCommits? {
      UnmarkedIsInterrupted(ph, s);
    }
    FrameOnce(ph, s, t);
  }

  /** No resume of the run overwrites the record of a started stage without a marker. */
  predicate TimelyRun(ph: seq<Phase>, run: seq<State>, acts: seq<Action>) {
    CampaignRun(ph, run, acts) && AllTimely(run, acts)
  }

  lemma {:induction false} OnceRun(ph: seq<Phase>, run: seq<State>, acts: seq<Action>, i: nat)
    requires TimelyRun(ph, run, acts) && i < |run|
    ensures Once(ph, run[i])
  {
    InvRun(ph, run, acts, i);
    if i > 0 {
      OnceRun(ph, run, acts, i - 1);
      var s, a, t := run[i - 1], acts[i - 1], run[i];
      assert StepAt(ph, run, acts, i - 1) && TimelyAt(run, acts, i - 1);
      if WorkerStep(ph, s, a, t) {
        WorkerStepKeepsOnce(ph, s, a, t);
      } else {
        OutsideStepKeepsOnce(ph, s, a, t);
      }
    }
  }

  /** No stage is started twice. */
  lemma StartsAreOnce(ph: seq<Phase>, run: seq<State>, acts: seq<Action>, i: nat)
    requires TimelyRun(ph, run, acts) && i < |run|
    ensures forall j, k :: 0 <= j < k < |run[i].log.started| ==>
                             run[i].log.started[j].stage != run[i].log.started[k].stage
  {
    OnceRun(ph, run, acts, i);
  }

  /** The acquisition of `st` was started and ended without a valid marker. */
  predicate Abandoned(s: State, st: Stage) {
    && WasStarted(s, st)
    && st !in s.valid
    && !(s.worker.Acquiring? && s.worker.rest != [] && s.worker.rest[0] == st)
  }

  /** `active_stage` names a started stage without a marker and no worker is past the start checks. */
  predicate Stuck(s: State, st: Stage) {
    && s.journal.active == Some(st) && st !in s.valid && WasStarted(s, st)
    && (s.worker.Off? || s.worker.Starting? || (s.worker.Handling? && s.worker.memory.active == Some(st))
        || (s.worker.Restoring? && !s.worker.completing) || (s.worker.Disabling? && !s.worker.completing))
  }

  lemma AbandonedIsNext(ph: seq<Phase>, s: State, st: Stage)
    requires WellFormed(ph) && Progress(ph, s) && OnceEach(ph, s) && WasStarted(s, st) && st !in s.valid
    ensures |s.log.started| == |s.log.marked| + 1 && s.journal.active == Some(st)
    ensures |s.log.marked| < |AllStages(ph)| && st == AllStages(ph)[|s.log.marked|]
  {
    ValidMeansMarked(ph, s);
  }

  lemma AbandonedIsStuck(ph: seq<Phase>, s: State, st: Stage)
    requires Once(ph, s) && Abandoned(s, st)
    ensures Stuck(s, st)
  {
    AbandonedIsNext(ph, s, st);
    if s.worker.Acquiring? {
      NextValid(ph, s, s.worker.phase, s.worker.rest);
    }
  }

  lemma StuckStaysStuck(ph: seq<Phase>, s: State, a: Action, t: State, st: Stage)
    requires Stuck(s, st) && Next(ph, s, a, t) && Timely(s, a)
    ensures Stuck(t, st) && t.log.started == s.log.started
  {
    if WorkerStep(ph, s, a, t) {
      StuckWorker(ph, s, a, t, st);
    } else {
      StuckOutside(ph, s, a, t, st);
    }
  }

  lemma StuckWorker(ph: seq<Phase>, s: State, a: Action, t: State, st: Stage)
    requires Stuck(s, st) && WorkerStep(ph, s, a, t)
    ensures Stuck(t, st) && t.log.started == s.log.started
  {
  }

  lemma StuckOutside(ph: seq<Phase>, s: State, a: Action, t: State, st: Stage)
    requires Stuck(s, st) && OutsideStep(ph, s, a, t) && Timely(s, a)
    ensures Stuck(t, st) && t.log.started == s.log.started
  {
  }

  lemma {:induction false} StuckRun(ph: seq<Phase>, run: seq<State>, acts: seq<Action>, i: nat, j: nat, st: Stage)
    requires IsRun(ph, run, acts) && AllTimely(run, acts) && i <= j < |run| && Stuck(run[i], st)
    ensures Stuck(run[j], st) && run[j].log.started == run[i].log.started
    decreases j - i
  {
    if i < j {
      StuckRun(ph, run, acts, i, j - 1, st);
      var s, a, t := run[j - 1], acts[j - 1], run[j];
      assert StepAt(ph, run, acts, j - 1) && TimelyAt(run, acts, j - 1);
      StuckStaysStuck(ph, s, a, t, st);
    }
  }

  /** A stage whose acquisition ended without a marker stays recorded in
      `active_stage` for ever, and no stage is started after it. */
  lemma InterruptedStageEndsCampaign(
      ph: seq<Phase>, run: seq<State>, acts: seq<Action>, i: nat, j: nat, st: Stage)
    requires TimelyRun(ph, run, acts) && i <= j < |run| && Abandoned(run[i], st)
    ensures run[j].journal.active == Some(st) && st !in run[j].valid
    ensures run[j].log.started == run[i].log.started
  {
    OnceRun(ph, run, acts, i);
    AbandonedIsStuck(ph, run[i], st);
    StuckRun(ph, run, acts, i, j, st);
  }

  // ----- a resume that read the journal too early

  /** Every started stage has its marker or is named by `active_stage`. */
  predicate Accounted(s: State) {
    forall k :: 0 <= k < |s.log.started| ==>
                  s.log.started[k].stage in s.valid || s.journal.active == Some(s.log.started[k].stage)
  }

  /** `resume` reads `pipeline.json` before it checks that the service is idle.
      Its write keeps the record of started stages exactly when the file it
      overwrites does not name a started stage without a marker. */
  lemma ResumeAccountsExactly(
      ph: seq<Phase>, run: seq<State>, acts: seq<Action>, i: nat, launched: bool, t: State)
    requires TimelyRun(ph, run, acts) && i < |run| && OutsideStep(ph, run[i], ResumeCommits(launched), t)
    ensures Accounted(run[i])
    ensures Accounted(t) <==>
            !(Interrupted(run[i].journal.active, run[i].valid) && WasStarted(run[i], run[i].journal.active.value))
  {
    OnceRun(ph, run, acts, i);
    ValidMeansMarked(ph, run[i]);
    UnmarkedIsInterrupted(ph, run[i]);
  }

  // ----- whether the stage is then started again

  predicate StartedTwice(s: State, st: Stage) {
    exists j, k :: 0 <= j < k < |s.log.started| && s.log.started[j].stage == st == s.log.started[k].stage
  }

  /** The run goes on with the resume and starts the stage a second time. */
  predicate Repeats(
      ph: seq<Phase>, run: seq<State>, acts: seq<Action>, st: Stage, longer: seq<State>, more: seq<Action>) {
    && run != [] && |run| == |acts| + 1 && |longer| > |run|
    && IsRun(ph, longer, more) && Extends(run, acts, longer, more)
    && more[|acts|].ResumeCommits?
    && StartedTwice(longer[|longer| - 1], st)
  }

  /** A resume is about to overwrite the record of a started stage without a marker. */
  predicate LateResumeReady(s: State, st: Stage) {
    && s.control.ResumeRead? && s.worker.Off? && !Interrupted(s.control.read.active, s.valid)
    && s.journal.active == Some(st) && st !in s.valid && WasStarted(s, st)
  }

  lemma KernelOf(p: Phase) returns (release: string, cmdline: string)
    ensures forall id :: BootMatches(p.variant, p.threaded, Boot(id, release, cmdline))
  {
    release := Release(p.variant);
    var words: seq<string> := if p.threaded then [THREADIRQS] else [];
    cmdline := Join(words, ' ');
    ThreadirqsIsWord();
    WordsOfJoin(words);
  }

  lemma RestartStage(ph: seq<Phase>, run: seq<State>, acts: seq<Action>, i: nat, pending: seq<Stage>)
    returns (longer: seq<State>, more: seq<Action>)
    requires CampaignRun(ph, run, acts)
    requires var s := run[|run| - 1];
             && s.worker == Starting && s.journal.pending == None && !Interrupted(s.journal.active, s.valid)
             && s.torn == {} && NextPhase(ph, s.valid, s.torn, 0) == Pick(i, pending)
             && BootMatches(ph[i].variant, ph[i].threaded, s.boot) && pending[0] !in s.valid
    ensures CampaignRun(ph, longer, more) && |longer| > |run| && Extends(run, acts, longer, more)
    ensures longer[|longer| - 1].log.started ==
            run[|run| - 1].log.started + [Start(pending[0], run[|run| - 1].boot)]
  {
    var s := AfterStartChecks(run[|run| - 1]);
    longer, more := Extend(ph, run, acts, StartChecks, s);
    s := s.(worker := Entering(i, pending));
    longer, more := Extend(ph, longer, more, PickPhase, s);
    s := s.(journal := s.journal.(active := Some(pending[0])), worker := Launching(i, pending));
    longer, more := Extend(ph, longer, more, SaveActive, s);
    longer, more := Extend(ph, longer, more, Launch, AfterLaunch(s, i, pending));
  }

  /** The resume goes through and the machine comes up with the given kernel. */
  lemma ResumeAndReboot(
      ph: seq<Phase>, run: seq<State>, acts: seq<Action>, release: string, cmdline: string)
    returns (longer: seq<State>, more: seq<Action>)
    requires CampaignRun(ph, run, acts)
    requires var s := run[|run| - 1];
             s.control.ResumeRead? && s.worker.Off? && !Interrupted(s.control.read.active, s.valid)
    ensures CampaignRun(ph, longer, more) && |longer| == |run| + 2 && Extends(run, acts, longer, more)
    ensures more[|acts|] == ResumeCommits(true)
    ensures var s := run[|run| - 1];
            longer[|run| + 1] == AfterPowerCycle(AfterResume(s, s.control.read, true), release, cmdline)
  {
    var s := run[|run| - 1];
    var t := AfterResume(s, s.control.read, true);
    longer, more := Extend(ph, run, acts, ResumeCommits(true), t);
    longer, more := Extend(ph, longer, more, PowerCycle(release, cmdline), AfterPowerCycle(t, release, cmdline));
  }

  lemma NextStageIsPicked(ph: seq<Phase>, s: State, st: Stage)
    requires Once(ph, s) && s.torn == {} && s.journal.active == Some(st) && st !in s.valid && WasStarted(s, st)
    ensures var r := NextPhase(ph, s.valid, s.torn, 0); r.Pick? && r.pending[0] == st
  {
    ValidMeansMarked(ph, s);
    PickMeaning(ph, s);
    var r := NextPhase(ph, s.valid, s.torn, 0);
    NextValid(ph, s, r.phase, r.pending);
  }

  lemma LateResumeRepeats(ph: seq<Phase>, run: seq<State>, acts: seq<Action>, st: Stage)
    returns (longer: seq<State>, more: seq<Action>)
    requires TimelyRun(ph, run, acts) && LateResumeReady(run[|run| - 1], st) && run[|run| - 1].torn == {}
    ensures Repeats(ph, run, acts, st, longer, more)
  {
    var s := run[|run| - 1];
    OnceRun(ph, run, acts, |run| - 1);
    NextStageIsPicked(ph, s, st);
    var choice := NextPhase(ph, s.valid, s.torn, 0);
    var release, cmdline := KernelOf(ph[choice.phase]);
    var mid, steps := ResumeAndReboot(ph, run, acts, release, cmdline);
    longer, more := RestartStage(ph, mid, steps, choice.phase, choice.pending);
    RepeatedStart(s, longer[|longer| - 1], st, mid[|run| + 1].boot);
    ExtendsTwice(run, acts, mid, steps, longer, more);
  }

  lemma RepeatedStart(s: State, t: State, st: Stage, boot: Boot)
    requires WasStarted(s, st) && t.log.started == s.log.started + [Start(st, boot)]
    ensures StartedTwice(t, st)
  {
    var j :| 0 <= j < |s.log.started| && s.log.started[j].stage == st;
    assert t.log.started[j].stage == st == t.log.started[|s.log.started|].stage;
  }

  /** After such a resume the stage can be started a second time exactly when its
      marker was not left torn. */
  lemma LateResumeRepeatsExactly(ph: seq<Phase>, run: seq<State>, acts: seq<Action>, st: Stage)
    requires TimelyRun(ph, run, acts) && LateResumeReady(run[|run| - 1], st)
    ensures (exists longer, more :: Repeats(ph, run, acts, st, longer, more)) <==> st !in run[|run| - 1].torn
  {
    var s := run[|run| - 1];
    OnceRun(ph, run, acts, |run| - 1);
    ValidMeansMarked(ph, s);
    assert st == AllStages(ph)[|s.log.marked|];
    if s.torn == {} {
      var longer, more := LateResumeRepeats(ph, run, acts, st);
    } else if longer, more :| Repeats(ph, run, acts, st, longer, more) {
      assert longer[|run| - 1] == longer[..|run|][|run| - 1];
      TornMarkerEndsStarts(ph, longer, more, |run| - 1, |longer| - 1);
      StartsAreOnce(ph, run, acts, |run| - 1);
    }
  }

  const ONE_STAGE: seq<Stage> := ["e1"]
  const ONE_PHASE: seq<Phase> := [Phase(RtUrb16, false, ONE_STAGE)]

  lemma OnePhase()
    ensures WellFormed(ONE_PHASE)
    ensures NextPhase(ONE_PHASE, {}, {}, 0) == Pick(0, ONE_STAGE)
  {
    assert Stages(ONE_PHASE, 0) == [] && Stages(ONE_PHASE, 1) == ONE_STAGE;
    assert Excluding(ONE_STAGE, {}) == [ONE_STAGE[0]] + Excluding(ONE_STAGE[1..], {}) == ONE_STAGE;
  }

  lemma RunToStage(run: seq<State>, acts: seq<Action>) returns (longer: seq<State>, more: seq<Action>)
    requires IsRun(ONE_PHASE, run, acts)
    requires var s := run[|run| - 1];
             && s.worker == Starting && s.journal == Journal(Queued, None, None)
             && s.valid == {} && s.torn == {} && s.boot.release == Release(RtUrb16)
    ensures IsRun(ONE_PHASE, longer, more)
    ensures longer[|longer| - 1]
            == run[|run| - 1].(journal := Journal(Running, None, None), worker := Entering(0, ONE_STAGE))
  {
    OnePhase();
    var s := AfterStartChecks(run[|run| - 1]);
    longer, more := Extend(ONE_PHASE, run, acts, StartChecks, s);
    longer, more := Extend(ONE_PHASE, longer, more, PickPhase, s.(worker := Entering(0, ONE_STAGE)));
  }

  lemma StartStage(run: seq<State>, acts: seq<Action>) returns (longer: seq<State>, more: seq<Action>)
    requires IsRun(ONE_PHASE, run, acts)
    requires var s := run[|run| - 1]; s.worker == Entering(0, ONE_STAGE) && s.valid == {} && s.torn == {}
    ensures IsRun(ONE_PHASE, longer, more)
    ensures var s := run[|run| - 1];
            longer[|longer| - 1]
            == s.(journal := s.journal.(active := Some(ONE_STAGE[0])),
                  worker := Acquiring(0, ONE_STAGE),
                  log := s.log.(started := s.log.started + [Start(ONE_STAGE[0], s.boot)]))
  {
    var s := run[|run| - 1];
    var t := s.(journal := s.journal.(active := Some(ONE_STAGE[0])), worker := Launching(0, ONE_STAGE));
    longer, more := Extend(ONE_PHASE, run, acts, SaveActive, t);
    longer, more := Extend(ONE_PHASE, longer, more, Launch, AfterLaunch(t, 0, ONE_STAGE));
  }

  predicate Ready(s: State, starts: nat) {
    && s.worker == Starting && s.journal == Journal(Queued, None, None)
    && s.valid == {} && s.torn == {} && s.boot.release == Release(RtUrb16)
    && s.control == Idle
    && |s.log.started| == starts && forall k :: 0 <= k < starts ==> s.log.started[k].stage == ONE_STAGE[0]
  }

  lemma LateResume(run: seq<State>, acts: seq<Action>) returns (longer: seq<State>, more: seq<Action>)
    requires IsRun(ONE_PHASE, run, acts) && Ready(run[|run| - 1], 0)
    ensures IsRun(ONE_PHASE, longer, more) && Ready(longer[|longer| - 1], 1)
  {
    longer, more := RunToStage(run, acts);
    var s := longer[|longer| - 1];
    longer, more := Extend(ONE_PHASE, longer, more, ResumeReads, s.(control := ResumeRead(s.journal)));
    longer, more := StartStage(longer, more);
    var t := longer[|longer| - 1].(worker := Off);
    longer, more := Extend(ONE_PHASE, longer, more, WorkerDies, t);
    longer, more := Extend(ONE_PHASE, longer, more, ResumeCommits(true), AfterResume(t, s.journal, true));
  }

  /** Without the timely check the promise fails: a resume that read the journal
      while the worker was about to start a stage starts that stage again. */
  lemma LateResumeStartsAStageTwice() returns (run: seq<State>, acts: seq<Action>)
    ensures WellFormed(ONE_PHASE) && IsRun(ONE_PHASE, run, acts)
    ensures var started := run[|run| - 1].log.started;
            |started| == 2 && started[0].stage == started[1].stage
  {
    OnePhase();
    var files: BootFiles := ["", "", "", ""];
    var s0 := State(Journal(Queued, None, None), {}, {}, files, files, true, Missing,
                    Boot(0, Release(RtUrb16), ""), Starting, Idle, false, History([], [], 0, 0, 0, {}, 0));
    run, acts := LateResume([s0], []);
    run, acts := RunToStage(run, acts);
    run, acts := StartStage(run, acts);
  }
}
