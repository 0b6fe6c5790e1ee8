/** The reboot-spanning campaign controller (reproduction/pipeline.py) as a
    crash-restart state machine.

    Durable: `pipeline.json`, the per-stage markers, the boot files, the
    snapshot of the boot files, the derived output, whether the service is
    enabled.  Volatile: the boot that came up, the worker, an invocation of
    `resume` or `stop`.  A step is the work between two durable writes; a crash
    of the worker, of the controller or of the machine may come before any step
    and may leave a half-written file behind. */
module Campaign {
  import opened Wrappers
  import opened Text
  import opened KernelSelection

  type Stage = string

  datatype Phase = Phase(variant: Variant, threaded: bool, stages: seq<Stage>)

  // ----- phases

  /** The stages of the first `i` phases, in order. */
  function Stages(ph: seq<Phase>, i: nat): seq<Stage>
    requires i <= |ph|
  {
    if i == 0 then [] else Stages(ph, i - 1) + ph[i - 1].stages
  }

  function AllStages(ph: seq<Phase>): seq<Stage> { Stages(ph, |ph|) }

  predicate Distinct<T(==)>(s: seq<T>) {
    forall i, j :: 0 <= i < j < |s| ==> s[i] != s[j]
  }

  predicate WellFormed(ph: seq<Phase>) { Distinct(AllStages(ph)) }

  const PHASES: seq<Phase> := [
    Phase(RtUrb16, false, ["e1", "e2-calibrate"]),
    Phase(StandardUrb16, true, ["ablation", "e3", "e4-calibrate", "e4-standard-threaded"]),
    Phase(StandardUrb5, false, ["e2-urb5"]),
    Phase(StandardUrb16, false, ["startup", "e2-urb16", "e4-standard-hardirq", "overhead", "diagnosis"]),
    Phase(RtUrb16, false, ["e4-rt-threaded"])
  ]

  const SUPPLEMENTS: set<Stage> := {"startup", "ablation", "overhead", "diagnosis"}

  function Excluding(stages: seq<Stage>, out: set<Stage>): seq<Stage> {
    if stages == [] then []
    else (if stages[0] in out then [] else [stages[0]]) + Excluding(stages[1..], out)
  }

  /** The smoke campaign drops the supplementary stages; a phase may become empty. */
  function SmokePhases(ph: seq<Phase>, out: set<Stage>): (r: seq<Phase>)
    ensures |r| == |ph|
  {
    if ph == [] then []
    else SmokePhases(ph[..|ph| - 1], out)
         + [ph[|ph| - 1].(stages := Excluding(ph[|ph| - 1].stages, out))]
  }

  // ----- state

  datatype Boot = Boot(id: nat, release: string, cmdline: string)

  predicate BootMatches(v: Variant, threaded: bool, boot: Boot) {
    boot.release == Release(v) && (v.RtUrb16? || (THREADIRQS in Words(boot.cmdline)) == threaded)
  }

  datatype Status = Queued | Running | Rebooting | Complete | Failed | Stopped

  datatype Pending = Pending(variant: Variant, threaded: bool, bootId: nat)

  /** `pipeline.json`. */
  datatype Journal = Journal(status: Status, active: Option<Stage>, pending: Option<Pending>)

  datatype Derived = Missing | WithoutManifest | WithManifest

  datatype Worker =
    | Off
    | Starting
    | Looping
    | WritingCmdline(phase: nat, config: string, cmdline: string)
    | WritingConfig(phase: nat, config: string)
    | SavingPending(phase: nat)
    | Requesting(phase: nat)
    | Entering(phase: nat, rest: seq<Stage>)
    | Launching(phase: nat, rest: seq<Stage>)
    | Acquiring(phase: nat, rest: seq<Stage>)
    | Confirming(phase: nat, rest: seq<Stage>)
    | Analyzing
    | Restoring(written: nat, completing: bool)
    | SavingComplete
    | Disabling(restored: bool, completing: bool)
    | Handling(memory: Journal)

  /** An invocation of `resume` or `stop` and how far it got. */
  datatype Control = Idle | ResumeRead(read: Journal) | StopRead | StopDisabled | Stopping(written: nat)

  datatype Start = Start(stage: Stage, boot: Boot)

  /** What happened so far; no step reads it. */
  datatype History = History(
    started: seq<Start>,
    marked: seq<Stage>,
    requested: nat,
    unplanned: nat,
    resumes: nat,
    charged: set<nat>,
    lastCharged: nat)

  datatype State = State(
    journal: Journal,
    valid: set<Stage>,
    torn: set<Stage>,
    files: BootFiles,
    before: BootFiles,
    enabled: bool,
    derived: Derived,
    boot: Boot,
    worker: Worker,
    control: Control,
    rebootIssued: bool,
    log: History)

  predicate Init(s: State) {
    && s.journal == Journal(Queued, None, None)
    && s.valid == {} && s.torn == {}
    && s.files == s.before
    && s.derived == Missing
    && (s.worker == Off || s.worker == Starting)
    && s.control == Idle && !s.rebootIssued
    && s.log == History([], [], 0, 0, 0, {}, 0)
  }

  // ----- reading the markers

  /** `complete` on the stage recorded in `pipeline.json` would not let the campaign go on. */
  predicate Interrupted(active: Option<Stage>, valid: set<Stage>) {
    active.Some? && active.value !in valid
  }

  function Incomplete(stages: seq<Stage>, valid: set<Stage>): seq<Stage> {
    Excluding(stages, valid)
  }

  datatype Choice = AllDone | Pick(phase: nat, pending: seq<Stage>) | BadMarker

  /** `next_phase`: the first phase with stages not complete; a torn marker raises. */
  function NextPhase(ph: seq<Phase>, valid: set<Stage>, torn: set<Stage>, i: nat): (r: Choice)
    requires i <= |ph|
    ensures r.Pick? ==> i <= r.phase < |ph| && r.pending != []
    decreases |ph| - i
  {
    if i == |ph| then AllDone
    else if exists st :: st in ph[i].stages && st in torn then BadMarker
    else
      var pending := Incomplete(ph[i].stages, valid);
      if pending != [] then Pick(i, pending) else NextPhase(ph, valid, torn, i + 1)
  }

  // ----- steps

  datatype Action =
    | StartChecks
    | PickPhase
    | WriteCmdline
    | WriteConfig
    | SavePending
    | RequestReboot
    | SaveActive
    | Launch
    | FinishAcquisition
    | Confirm
    | Analyze(result: Derived)
    | RestoreFile
    | RestoreDone
    | SaveComplete
    | Disable
    | Raise
    | SaveRaises
    | SaveFailed
    | WorkerDies
    | WorkerTears(garbage: string, handled: bool)
    | PowerCycle(release: string, cmdline: string)
    | ResumeReads
    | ResumeCommits(launched: bool)
    | StopReads
    | StopDisables
    | StopKills
    | StopRestores
    | StopSaves
    | ControlDies
    | ControlTears(garbage: string)

  predicate PendingCheckFails(s: State) {
    s.journal.pending.Some?
    && var p := s.journal.pending.value;
       p.bootId == s.boot.id || !BootMatches(p.variant, p.threaded, s.boot)
  }

  function AfterStartChecks(s: State): State {
    if Interrupted(s.journal.active, s.valid) || PendingCheckFails(s)
    then s.(worker := Handling(s.journal))
    else s.(journal := Journal(Running, None, None), worker := Looping)
  }

  function AfterPick(ph: seq<Phase>, s: State): State {
    match NextPhase(ph, s.valid, s.torn, 0)
    case BadMarker => s.(worker := Handling(s.journal))
    case AllDone => s.(worker := Analyzing)
    case Pick(i, pending) =>
      if BootMatches(ph[i].variant, ph[i].threaded, s.boot) then s.(worker := Entering(i, pending))
      else
        match BootSelection(s.files[0], s.files[FileOf(ph[i].variant)], Prefix(ph[i].variant), ph[i].threaded)
        case Failure(_) => s.(worker := Handling(s.journal))
        case Success((config, cmdline)) => s.(worker := WritingCmdline(i, config, cmdline))
  }

  /** `reproduce.py run`: an existing marker short-circuits, otherwise the acquisition starts. */
  function AfterLaunch(s: State, phase: nat, rest: seq<Stage>): State
    requires rest != []
  {
    if rest[0] in s.valid || rest[0] in s.torn then s.(worker := Confirming(phase, rest))
    else s.(worker := Acquiring(phase, rest),
            log := s.log.(started := s.log.started + [Start(rest[0], s.boot)]))
  }

  function AfterConfirm(s: State, phase: nat, rest: seq<Stage>): State
    requires rest != []
  {
    if rest[0] in s.valid
    then s.(journal := s.journal.(active := None),
            worker := if |rest| == 1 then Looping else Entering(phase, rest[1..]))
    else s.(worker := Handling(s.journal))
  }

  function AfterAnalyze(s: State, result: Derived): State {
    var derived := if s.derived == Missing then result else s.derived;
    s.(derived := derived, worker := if derived == WithManifest then Restoring(0, true) else Handling(s.journal))
  }

  /** An exception: the handler runs, except that inside the handler a failing
      restore still disables the service. */
  function AfterRaise(s: State): Worker {
    if s.worker.Restoring? && !s.worker.completing then Disabling(false, false) else Handling(s.journal)
  }

  /** What the worker holds in memory while it saves `pipeline.json`: the handler
      records this even if that save failed. */
  function Unsaved(ph: seq<Phase>, s: State): Option<Journal> {
    match s.worker
    case Starting =>
      if Interrupted(s.journal.active, s.valid) || PendingCheckFails(s) then None
      else Some(Journal(Running, None, None))
    case SavingPending(i) =>
      if i < |ph|
      then Some(s.journal.(status := Rebooting, pending := Some(Pending(ph[i].variant, ph[i].threaded, s.boot.id))))
      else None
    case Entering(_, rest) => if rest != [] then Some(s.journal.(active := Some(rest[0]))) else None
    case Confirming(_, rest) =>
      if rest != [] && rest[0] in s.valid then Some(s.journal.(active := None)) else None
    case SavingComplete => Some(s.journal.(status := Complete))
    case _ => None
  }

  predicate CanRaise(w: Worker) {
    !w.Off? && !w.Handling? && !(w.Disabling? && !w.completing)
  }

  /** The file that the worker may leave half written, dying or raising an exception. */
  function TornFile(w: Worker, ph: seq<Phase>): Option<nat> {
    match w
    case WritingCmdline(i, _, _) => if i < |ph| then Some(FileOf(ph[i].variant)) else None
    case WritingConfig(_, _) => Some(0)
    case Restoring(k, _) => if k < 4 then Some(k) else None
    case _ => None
  }

  /** A boot into whatever kernel came up; the enabled service starts a worker. */
  function AfterPowerCycle(s: State, release: string, cmdline: string): State {
    s.(boot := Boot(s.boot.id + 1, release, cmdline),
       worker := if s.enabled then Starting else Off,
       control := Idle,
       rebootIssued := false,
       log := if s.rebootIssued then s.log
              else s.log.(unplanned := s.log.unplanned + 1, charged := s.log.charged - {s.log.lastCharged}))
  }

  function AfterResume(s: State, read: Journal, launched: bool): State {
    s.(journal := Journal(Queued, read.active, None),
       enabled := s.enabled || launched,
       worker := if launched then Starting else Off,
       control := Idle,
       log := s.log.(resumes := s.log.resumes + 1, charged := s.log.charged - {s.log.lastCharged}))
  }

  predicate WorkerStep(ph: seq<Phase>, s: State, a: Action, t: State) {
    match a
    case StartChecks => s.worker.Starting? && t == AfterStartChecks(s)
    case PickPhase => s.worker.Looping? && t == AfterPick(ph, s)
    case WriteCmdline =>
      && s.worker.WritingCmdline? && s.worker.phase < |ph|
      && t == s.(files := s.files[FileOf(ph[s.worker.phase].variant) := s.worker.cmdline],
                 worker := WritingConfig(s.worker.phase, s.worker.config))
    case WriteConfig =>
      && s.worker.WritingConfig?
      && t == s.(files := s.files[0 := s.worker.config], worker := SavingPending(s.worker.phase))
    case SavePending =>
      && s.worker.SavingPending? && s.worker.phase < |ph|
      && var p := ph[s.worker.phase];
         t == s.(journal := s.journal.(status := Rebooting, pending := Some(Pending(p.variant, p.threaded, s.boot.id))),
                 worker := Requesting(s.worker.phase))
    case RequestReboot =>
      && s.worker.Requesting?
      && t == s.(worker := Off, rebootIssued := true,
                 log := s.log.(requested := s.log.requested + 1,
                               charged := s.log.charged + {s.worker.phase},
                               lastCharged := s.worker.phase))
    case SaveActive =>
      && s.worker.Entering? && s.worker.rest != []
      && t == s.(journal := s.journal.(active := Some(s.worker.rest[0])),
                 worker := Launching(s.worker.phase, s.worker.rest))
    case Launch => s.worker.Launching? && s.worker.rest != [] && t == AfterLaunch(s, s.worker.phase, s.worker.rest)
    case FinishAcquisition =>
      && s.worker.Acquiring? && s.worker.rest != []
      && t == s.(valid := s.valid + {s.worker.rest[0]},
                 worker := Confirming(s.worker.phase, s.worker.rest),
                 log := s.log.(marked := s.log.marked + [s.worker.rest[0]]))
    case Confirm => s.worker.Confirming? && s.worker.rest != [] && t == AfterConfirm(s, s.worker.phase, s.worker.rest)
    case Analyze(result) => s.worker.Analyzing? && result != Missing && t == AfterAnalyze(s, result)
    case RestoreFile =>
      && s.worker.Restoring? && s.worker.written < 4
      && t == s.(files := s.files[s.worker.written := s.before[s.worker.written]],
                 worker := Restoring(s.worker.written + 1, s.worker.completing))
    case RestoreDone =>
      && s.worker.Restoring? && s.worker.written == 4
      && t == s.(worker := if s.worker.completing then SavingComplete else Disabling(true, false))
    case SaveComplete =>
      && s.worker.SavingComplete?
      && t == s.(journal := s.journal.(status := Complete), worker := Disabling(true, true))
    case Disable => s.worker.Disabling? && t == s.(enabled := false, worker := Off)
    case Raise => CanRaise(s.worker) && t == s.(worker := AfterRaise(s))
    case SaveRaises => Unsaved(ph, s).Some? && t == s.(worker := Handling(Unsaved(ph, s).value))
    case SaveFailed =>
      && s.worker.Handling?
      && t == s.(journal := s.worker.memory.(status := Failed), worker := Restoring(0, false))
    case _ => false
  }

  predicate OutsideStep(ph: seq<Phase>, s: State, a: Action, t: State) {
    match a
    case WorkerDies => !s.worker.Off? && t == s.(worker := Off)
    case WorkerTears(garbage, handled) =>
      var next := if handled then AfterRaise(s) else Off;
      if s.worker.Acquiring? && s.worker.rest != []
      then t == s.(torn := s.torn + {s.worker.rest[0]}, worker := next)
      else
        var torn := TornFile(s.worker, ph);
        torn.Some? && torn.value < 4 && t == s.(files := s.files[torn.value := garbage], worker := next)
    case PowerCycle(release, cmdline) => t == AfterPowerCycle(s, release, cmdline)
    case ResumeReads => s.control.Idle? && s.journal.status != Complete && t == s.(control := ResumeRead(s.journal))
    case ResumeCommits(launched) =>
      && s.control.ResumeRead? && s.worker.Off?
      && !Interrupted(s.control.read.active, s.valid)
      && t == AfterResume(s, s.control.read, launched)
    case StopReads => s.control.Idle? && s.journal.status != Complete && t == s.(control := StopRead)
    case StopDisables =>
      && s.control.StopRead?
      && t == s.(enabled := false, control := StopDisabled)
    case StopKills => s.control.StopDisabled? && t == s.(worker := Off, control := Stopping(0))
    case StopRestores =>
      && s.control.Stopping? && s.control.written < 4
      && t == s.(files := s.files[s.control.written := s.before[s.control.written]],
                 control := Stopping(s.control.written + 1))
    case StopSaves =>
      && s.control.Stopping? && s.control.written == 4
      && t == s.(journal := s.journal.(status := Stopped), control := Idle)
    case ControlDies => !s.control.Idle? && t == s.(control := Idle)
    case ControlTears(garbage) =>
      && s.control.Stopping? && s.control.written < 4
      && t == s.(files := s.files[s.control.written := garbage], control := Idle)
    case _ => false
  }

  predicate Next(ph: seq<Phase>, s: State, a: Action, t: State) {
    WorkerStep(ph, s, a, t) || OutsideStep(ph, s, a, t)
  }

  predicate WasStarted(s: State, st: Stage) {
    exists k :: 0 <= k < |s.log.started| && s.log.started[k].stage == st
  }

  /** A resume that does not overwrite the record of a started stage without a marker. */
  predicate Timely(s: State, a: Action) {
    a.ResumeCommits? ==> !(Interrupted(s.journal.active, s.valid) && WasStarted(s, s.journal.active.value))
  }

  predicate StepAt(ph: seq<Phase>, run: seq<State>, acts: seq<Action>, i: nat) {
    i < |acts| && i + 1 < |run| && Next(ph, run[i], acts[i], run[i + 1])
  }

  /** Every sequence of steps from a fresh campaign. */
  predicate IsRun(ph: seq<Phase>, run: seq<State>, acts: seq<Action>) {
    && |run| == |acts| + 1
    && Init(run[0])
    && forall i {:trigger StepAt(ph, run, acts, i)} :: 0 <= i < |acts| ==> StepAt(ph, run, acts, i)
  }

  predicate TimelyAt(run: seq<State>, acts: seq<Action>, i: nat) {
    i < |acts| && i < |run| && Timely(run[i], acts[i])
  }

  predicate AllTimely(run: seq<State>, acts: seq<Action>) {
    forall i {:trigger TimelyAt(run, acts, i)} :: 0 <= i < |acts| ==> TimelyAt(run, acts, i)
  }
}
