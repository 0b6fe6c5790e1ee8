# Verified models of the RealSense measurement and reproduction tools

This project models five parts of the repository in Dafny and proves what they
are relied on for. `dafny verify dfyconfig.toml` checks everything.

**The reboot-spanning campaign** (`Campaign`, `CampaignSafety`, `CampaignProgress`,
`CampaignStarts`, `CampaignCompletion`, `CampaignReboots`, `KernelSelection`, `Text`).
The controller of the full reproduction runs stages under three kernels and reboots between them.
It is a crash-restart state machine: `pipeline.json`, the completion markers, the
boot files and the enabled service survive; the worker and the booted kernel do
not. A step is the work between two durable writes. The worker, the controlling
command or the machine may stop before any step, a boot file or a marker that was
being written may be left half written, a save may fail, any kernel may come up,
and `stop` and `resume` may come at any time. The phase list is arbitrary, with
distinct stage names. Except for the two results named in the next paragraph and the
boots taken as written in `CampaignReboots` and `CampaignProgress`, the safety
theorems speak about every sequence of such steps. `CampaignProgress` adds where they
lead: if nothing disturbs the worker any more, the campaign can always go on, in a
bounded number of steps, until it is complete with every missing stage started once,
in order; and a failure that is handled ends with the boot files restored.

`resume` reads `pipeline.json` (reproduction/pipeline.py:377) before it checks that
the service is idle (reproduction/pipeline.py:399) and later writes back what it
read. A worker that starts a stage and dies in between is overwritten, and the
stage can be started twice, although reproduction/README.md:83 and :95 promise that
an interrupted acquisition is never resumed. `ResumeAccountsExactly` says which
resumes keep the record, `LateResumeRepeatsExactly` when the second start is then
possible, and `LateResumeStartsAStageTwice` is such a run. Only the results that
this breaks, that starts are unique and that an interrupted stage ends the
campaign, are stated for runs in which no resume overwrites the record of a started
stage without a marker (`TimelyRun`); that is the exact condition of
`ResumeAccountsExactly`.

The worker records `complete` (reproduction/pipeline.py:363) before it disables the
service (:364), inside the `try` whose handler writes `failed`, and it never looks at
the status when it starts. A completion is final exactly when the campaign is closed:
status `complete`, the worker gone, the service disabled and no command under way
(`ClosedIsFinal`, `CompletionIsFinalExactly`). Before that it can be undone:
`RecordedCompletionCanBeUndone` says that this is so after every recording, and
`CrashLosesCompletion`, `FailedDisableLosesCompletion` and `LateResumeLosesCompletion`
are runs in which a crash, a failing `systemctl disable` and a resume that read the
journal too early do it. `stop` reads the status (reproduction/pipeline.py:377-385)
before it stops the service (:393), so a campaign that completes in between is stopped
all the same, and an interruption leaves status `complete` with a half-written boot
file (`LateStopTearsCompletedCampaign`). `CompletedFilesExactly` says when the boot
files of a completed campaign equal the snapshot, and `WhileCompleteOnlyAStopDamages`
that nothing else damages them while the status stays `complete`.

**The steady probe** (`SteadyMetrics`, `CameraMetrics`, `Probe`, `ProbeSafety`,
`ProbeFaults`, `ProbeRecords`, `ProbeSamples`). The locked sections of the camera threads, the main thread and the
noise process are the steps of an interleaving. The metrics of one camera are also
given as a class whose methods update its fields and are proved against the value
model.

**Frame freshness** (`Freshness`, `FreshnessMeaning`, `FreshnessRebuild`,
`FreshnessCounts`, `FreshnessPath`, `FreshnessAgreement`, `ProbeFramesets`). The summary of the probe and the
reconstructions of E2, E3 and E4 are loops, each proved to compute a fold over the
rows; the folds are then proved to have one meaning in terms of sets of rows,
positions and numbers.

**From trace to schedule** (`LogicalJobs`, `ThreadIdentity`, `ThreadModel`,
`ThreadMeaning`, `DeadlineProfile`, `Csv`, `ProfileLoader`, `ProfileDominance`, `Scheduler`). The
threshold `sqrt(a * b)` is the pair `(a, b)`, compared through squares; margins
and ratios are exact. The kernel's scheduling state is a class whose calls may be
refused at any time.

**Interval engines and reversible controls** (`SchedulerIntervals`, `Overlap`,
`StageCpu`, `Scans`, `CpuList`, `CpuIsolation`, `MemoryNoise`). Fast scans are
proved equal to their plain definitions. The system files that CPU isolation
writes are a class whose writes may fail, and which counts the failures. The rate limiter and the copy worker
run over arbitrary clocks and stop requests.

`Wrappers`, `Numbers`, `Sequences` and `OrderedDict` hold shared datatypes and facts.

## Model

| member | source | states |
|---|---|---|
| CampaignSafety.InvRun | reproduction/pipeline.py:299-405 | every state of every run satisfies the invariant that ties journal, markers, worker position and boot files together |
| CampaignSafety.CompletedStagesAreAPrefix | reproduction/pipeline.py:138-142 | the stages with a valid marker are always a prefix of the flattened phase list |
| CampaignSafety.StartsAreLawful | reproduction/pipeline.py:331-352 | in every run each stage is started under a boot that matches the kernel and threadirqs setting of a phase holding it |
| CampaignSafety.TornMarkerEndsStarts | reproduction/pipeline.py:118-142 | a half-written marker stays, and no stage is started after it |
| CampaignSafety.CompleteMeansDone | reproduction/pipeline.py:353-365 | status `complete` is only ever recorded with every stage marked and the manifest present |
| CampaignSafety.DerivedIsKept | reproduction/pipeline.py:353-359 | derived output is made once and kept; without its manifest the campaign never has status `complete` again |
| CampaignProgress.UndisturbedRunCompletes | reproduction/pipeline.py:299-364 | from a worker that was just started with nothing in its way, every run of its own steps without exceptions and of boots as written has a bounded length, and cannot go on if and only if it is complete, with the missing stages started once each in order, the boot files restored and the service disabled |
| CampaignProgress.EveryStateCompletes | reproduction/pipeline.py:299-364 | every reachable state without interrupted stage, torn marker or derived output lacking its manifest, with the service enabled and files that allow selection and select the pending boot, can boot as written and, undisturbed, complete in that sense |
| CampaignProgress.ResumedCampaignCompletes | reproduction/pipeline.py:375-404 | wherever the worker has ended without completion and nothing stands in the way, a resume goes through and the campaign, undisturbed, completes in that sense |
| CampaignProgress.FailureIsHandled | reproduction/pipeline.py:365-371 | a handled failure records `failed` over the journal in memory, writes the boot files back and disables the service, changing nothing else |
| CampaignProgress.UnfitWorkerFails | reproduction/pipeline.py:315-325 | a worker that finds an interrupted stage or a pending boot that did not come up fails in that way and keeps the record |
| CampaignProgress.TornMarkerFails | reproduction/pipeline.py:118-142 | a torn marker fails the campaign in that way when the next phase is looked for |
| CampaignCompletion.StopFinishes | reproduction/pipeline.py:392-396 | a stop under way can go on to end the worker, disable the service, write the boot files back and record `stopped` |
| CampaignSafety.SettledCampaignRestoresBootFiles | reproduction/pipeline.py:209-221 | when completion is recorded, after a handled failure whose restore succeeded, and when stop ends, the boot files are those found at the start, whatever selections and torn writes came before |
| CampaignCompletion.ClosedIsFinal | reproduction/pipeline.py:361-405 | once the status is `complete`, the worker gone, the service disabled and no command under way, this stays so for ever with the same journal, markers and boot files, and nothing is started |
| CampaignCompletion.CompletionIsFinalExactly | reproduction/pipeline.py:361-405 | in every state with status `complete`, some continuation ends with another status and a boot file other than the snapshot if and only if the campaign is not closed in that sense |
| CampaignCompletion.RecordedCompletionCanBeUndone | reproduction/pipeline.py:361-371 | every run that is about to record completion can go on, without any command, to lose both the status and the boot files |
| CampaignCompletion.CrashLosesCompletion | reproduction/pipeline.py:361-371 | a concrete run without any command in which the machine goes down after the record of completion and the completion is lost |
| CampaignCompletion.FailedDisableLosesCompletion | reproduction/pipeline.py:364-371 | a concrete run without any command in which disabling the service fails and the handler undoes the completion |
| CampaignCompletion.LateResumeLosesCompletion | reproduction/pipeline.py:375-404 | a concrete run in which a resume that read the journal before completion undoes it after the service was disabled |
| CampaignCompletion.CompletedFilesExactly | reproduction/pipeline.py:361-396 | from the record of completion on, and while that is the status, the boot files equal the snapshot if and only if no stop was interrupted while writing one of them |
| CampaignCompletion.WhileCompleteOnlyAStopDamages | reproduction/pipeline.py:375-396 | a campaign about to record completion can go on to damaged boot files with status `complete` throughout if and only if a stop has read the unfinished status by then |
| CampaignCompletion.LateStopTearsCompletedCampaign | reproduction/pipeline.py:385-396 | a concrete run that ends with status `complete` and a boot file other than the snapshot |
| CampaignStarts.StartsAreOnce | reproduction/pipeline.py:345-352 | no stage is started twice, if no resume overwrites the record of a started stage without a marker |
| CampaignStarts.InterruptedStageEndsCampaign | reproduction/pipeline.py:315-317 | once an acquisition ended without a marker, `active_stage` names it in every later state and no stage is ever started again, if no resume overwrites the record of a started stage without a marker |
| CampaignStarts.ResumeAccountsExactly | reproduction/pipeline.py:375-405 | a resume keeps every started stage accounted for if and only if the journal it overwrites does not name a started stage without a marker |
| CampaignStarts.LateResumeRepeatsExactly | reproduction/pipeline.py:377-404 | wherever such a resume is about to overwrite the record of an interrupted stage, the campaign can go on to start that stage a second time if and only if its marker was not left torn |
| CampaignStarts.LateResumeStartsAStageTwice | reproduction/pipeline.py:377-404 | a concrete run in which a resume that read the journal early starts the same stage a second time |
| CampaignSafety.NextPhaseMeaning | reproduction/pipeline.py:138-142 | with a prefix of the stages complete and at most the next marker torn, a phase is found if and only if stages are left and no marker is torn, and it is the first unfinished one with exactly its remaining stages |
| CampaignSafety.SmokeIsWellFormed | reproduction/pipeline.py:128-135 | dropping the supplementary stages keeps stage names distinct, so all results hold for smoke campaigns |
| CampaignSafety.ShippedPhasesAreWellFormed | reproduction/pipeline.py:128-135 | the shipped full and smoke phase lists have distinct stage names |
| CampaignReboots.RequestedRebootsAreBounded | reproduction/pipeline.py:331-343 | requested reboots never exceed phases plus unplanned boots plus resumes |
| CampaignReboots.SecondRequestNeedsACause | reproduction/pipeline.py:320-343 | two reboot requests for the same phase have an unplanned boot or a resume between them |
| CampaignReboots.PlannedBootIsAccepted | reproduction/pipeline.py:320-325 | if every boot comes up as the boot files say, a worker that starts under a pending reboot fails the check only when the campaign had already failed |
| CampaignReboots.PendingBootFailsExactly | reproduction/pipeline.py:320-325 | if the measured kernels come up exactly when the configuration names them, a worker that finds a pending boot refuses it if and only if the boot files, as the machine came up, did not select a kernel that the pending boot accepts |
| CampaignReboots.PendingBootCanFail | reproduction/pipeline.py:320-371 | every run about to request a reboot with the service enabled can go on, through a failure and an interrupted restore, to a boot as written whose worker refuses the pending boot |
| KernelSelection.SelectCmdlineMeaning | reproduction/setup/kernel.py:38-42 | the written command line has `threadirqs` exactly when asked for, keeps all other words in order, and is refused exactly without a `root=` word |
| KernelSelection.SelectConfigNames | reproduction/setup/kernel.py:31-37 | a written configuration names exactly the chosen prefix; it is refused exactly when it holds several prefix lines |
| KernelSelection.SelectConfigKeeps | reproduction/setup/kernel.py:31-37 | every other line of the configuration stays in its place, and a new entry is appended under `[all]` to the text without its trailing white space |
| KernelSelection.BootSelectionExactly | reproduction/setup/kernel.py:31-42 | a selection succeeds if and only if there is at most one prefix line and a `root=` word |
| KernelSelection.LastSelectionWins | reproduction/setup/kernel.py:31-37 | selecting a second kernel over a first gives the same configuration as selecting the second alone |
| KernelSelection.PrefixesDiffer | reproduction/setup/kernel.py:31-37 | different kernels are named by different configuration lines |
| KernelSelection.BootSelectionSelects | reproduction/setup/kernel.py:31-42 | a successful selection names the chosen kernel alone with threaded interrupts as requested |
| ProbeSafety.InvRun | src/realsense_steady_probe.cpp:1215-1376 | every state of every interleaving satisfies the invariant over counters, flags, failure and main position |
| ProbeSafety.MeasuringMeansWarmAndNoisy | src/realsense_steady_probe.cpp:1215-1376 | measurement is enabled only when every camera passed its warm-up check and, with a gate, noise start-up has finished |
| ProbeSafety.NoiseWaitsForWarmup | tools/realsense_steady_bench/noise_transition.py:102-131 | noise starts only once every camera is warm |
| ProbeSafety.CountersMatchFlags | src/realsense_steady_probe.cpp:449-605 | until a failure, each shared counter plus its increments in flight is the number of flagged cameras |
| ProbeFaults.FailureHasCause | src/realsense_steady_probe.cpp:417-430 | a run that failed has had a timeout, a scheduler, stop or noise error, or a delivery that failed the warm-up check or could not be stored |
| ProbeFaults.MainWaitsExactly | src/realsense_steady_probe.cpp:1215-1376 | until a failure, each wait of the main thread ends if and only if every camera has reached what is waited for and its increment has landed, or the gate has been published |
| ProbeFaults.MainGoesItsWay | src/realsense_steady_probe.cpp:1215-1376 | without a fault the main thread passes through its stages one by one, none left out, the scheduler's and the gate's where they are configured |
| ProbeSafety.FailureIsPermanent | src/realsense_steady_probe.cpp:417-430 | a failure is permanent and keeps its first error |
| ProbeSafety.SuccessMeansExactDeliveries | src/realsense_steady_probe.cpp:524-571 | a successful delivery-count run leaves every camera with exactly `frames` deliveries |
| ProbeSafety.StorageNeverExhausted | src/realsense_steady_probe.cpp:449-605 | in delivery-count mode, deliveries of at most one frame per expected stream never exhaust a preallocated buffer |
| SteadyMetrics.CountedPlanIsRoomy | src/steady_metrics.cpp:92-125 | the delivery-count plan has room for n deliveries if and only if n is at most `frames` |
| SteadyMetrics.DeliveryFits | src/steady_metrics.cpp:221-302 | a delivery of at most one frame per stream stores without error while the plan has room for one more |
| SteadyMetrics.WarmupCountersMeaning | src/steady_metrics.cpp:151-175 | the warm-up counters count the frames and the repeats, and the gap and order counters stay zero if and only if no number was skipped and none fell back |
| ProbeRecords.MeasuringMeansSteadyWarmup | src/steady_metrics.cpp:177-219 | while measurement is enabled, each expected stream of each camera had at least two frames in its health window, no skipped or falling number, and repeats only as far as tolerated, so that outside hardware-synchronised color the numbers were consecutive |
| ProbeRecords.BecomesWarmExactly | src/realsense_steady_probe.cpp:470-523 | a camera becomes warm if and only if a delivery is at least the last of the warm-up, brought expected streams only, and leaves every expected stream steady in its window |
| ProbeRecords.WarmupProgress | src/realsense_steady_probe.cpp:470-505 | in every reachable state the window holds the last so many warm-up deliveries that the options ask for, and a camera is ready for its scheduler exactly from the configured delivery on |
| ProbeSamples.ReachableSamples | src/steady_metrics.cpp:221-302 | in every reachable state before a buffer was exhausted, a camera's interval and wait samples are those of the deliveries it recorded, and each stream's sensor and host gaps are the differences of the sensor times of its frames and of their arrivals at the host |
| ProbeSamples.CountedSamples | src/realsense_steady_probe.cpp:524-571 | in delivery-count mode, with at most one frame per expected stream and delivery, this holds in every reachable state |
| ProbeSamples.CapacityRun | src/steady_metrics.cpp:221-302 | in every reachable state, in either mode and for any deliveries, no buffer holds more than was allocated |
| ProbeSamples.RefusalsAreReal | src/steady_metrics.cpp:221-302 | a delivery is refused only for a buffer that is full or a stream that is not expected |
| CameraMetrics.CameraState.constructor | src/steady_metrics.cpp:127-149 | a prepared camera has one empty entry per expected stream and empty buffers |
| CameraMetrics.CameraState.RecordMeasuredFrame | src/steady_metrics.cpp:221-302 | storing one frame as the value model does, whose samples are explained by `ProbeSamples`, or the first exhausted buffer with nothing changed |
| CameraMetrics.CameraState.Record | src/realsense_steady_probe.cpp:449-571 | one delivery under the camera's lock: warm-up, waiting, measuring or after completion, in place |
| Freshness.AnalyzeFreshness | src/steady_metrics.cpp:312-409 | the loops over events and streams compute the fold whose meaning is proved below |
| Freshness.FramesetProblemCounts | reproduction/paper_metrics.py:96-119 | the loop computes the fold over rows with running maxima and delivery sets |
| FreshnessMeaning.StreamCountersMeaning | src/steady_metrics.cpp:355-398 | duplicates are observed minus distinct, gaps are the numbers in the span never seen, nonadvancing are the positions not above all before and at least the duplicates; without late frames nonadvancing equals duplicates and the online drops equal the gaps |
| FreshnessMeaning.FreshnessOfStream | src/steady_metrics.cpp:377-399 | each reported stream has the result of its own rows alone |
| ProbeRecords.ReachableDeliveryClasses | src/steady_metrics.cpp:331-375 | in every reachable probe state, the fully fresh, partially stale and stale deliveries of a camera are those without repeating rows, with both kinds, and without advancing rows, and add up to all deliveries |
| FreshnessMeaning.StaleMeansRepeating | reproduction/paper_metrics.py:107-113 | the deliveries E2 marks stale are exactly those with a row that does not exceed all earlier rows of its stream |
| ProbeRecords.ReachableStaleFramesetsAgree | reproduction/paper_metrics.py:96-119 | in every reachable probe state, E2's stale framesets on the event file equal the summary's partially stale plus stale ones, for any frame numbers |
| ProbeRecords.ReachableDropsEqualGaps | src/steady_metrics.cpp:267-284 | in every reachable probe state, a stream without late frames reports as gaps exactly the drops counted while recording |
| FreshnessRebuild.FramesetFreshnessMetrics | reproduction/paper_metrics.py:176-212 | grouping, sorting and comparing with the previous delivery compute E3's fold, whose meaning is `PathMetricsMeaning` |
| FreshnessRebuild.ReconstructFreshness | reproduction/e4_scheduling/metrics.py:29-58 | grouping in file order and comparing with the last number seen compute E4's fold, whose meaning is `ReconstructionMeaning` |
| FreshnessCounts.ProblemCountsMeaning | reproduction/paper_metrics.py:96-119 | for any rows, E2 counts the deliveries, those with a row not above all earlier ones of its stream, those with a row that leaves out numbers above all of them, and those with either |
| FreshnessCounts.ReconstructionMeaning | reproduction/e4_scheduling/metrics.py:29-58 | for any file whose deliveries stand together, E4 counts the rows at or below the last earlier number of their stream, the numbers left out since it, and the deliveries with such a row |
| FreshnessPath.PathMetricsMeaning | reproduction/paper_metrics.py:176-212 | for any rows, E3 counts against the camera's previous delivery the streams with the same number, the numbers left out, and the deliveries with such a stream; a number that falls back counts for nothing |
| FreshnessAgreement.ReconstructionsAgree | reproduction/paper_metrics.py:176-212 | when cameras always deliver the same streams once with numbers that never decrease, E2, E3 and E4 agree on problem framesets, E2 and E3 on stale and gap-bearing ones, E3 and E4 on duplicates and gaps |
| ProbeFramesets.ReachableReconstructionsAgree | reproduction/paper_metrics.py:96-212 | in every reachable state of a delivery-count run whose measured deliveries carry one frame of each of their camera's streams, if the numbers in the event file never decrease, E2, E3 and E4 agree on that file and count exactly the recorded deliveries |
| LogicalJobs.SteepestMeaning | tools/realsense_steady_bench/generate_deadline_profile.py:110-119 | the index found is the first of the steepest relative steps between sorted gaps |
| LogicalJobs.SplitLogicalJobs | tools/realsense_steady_bench/generate_deadline_profile.py:98-137 | the loops compute the jobs and threshold that the two lemmas below describe |
| LogicalJobs.JobsPartitionActivations | tools/realsense_steady_bench/generate_deadline_profile.py:128-137 | the jobs are the release-sorted activations cut into nonempty pieces, and their execution adds up to that of the input |
| LogicalJobs.CutsAreTheUpperCluster | tools/realsense_steady_bench/generate_deadline_profile.py:108-137 | a chosen threshold separates two neighbouring sorted gaps; gaps inside jobs are at most the lower, gaps between jobs at least the upper one, and there is one job more than upper gaps |
| ThreadMeaning.ThresholdExactly | tools/realsense_steady_bench/generate_deadline_profile.py:108-127 | a threshold is chosen between two gaps if and only if there are at least four positive gaps, these two are the steepest step, lowest of its ratio, at least fourfold, and two or more gaps, a twentieth to nine tenths of all, lie above it |
| ThreadIdentity.IdentitiesDiffer | tools/realsense_steady_bench/generate_deadline_profile.py:63-95 | no two threads share an identity |
| ThreadIdentity.IdentitiesPresent | src/deadline_scheduler.cpp:291-298 | a role has exactly the ranks from one to the number of its threads |
| ThreadModel.ModelBoundsThread | tools/realsense_steady_bench/generate_deadline_profile.py:140-172 | a thread's model bounds every job and every stable period of its trace, and both bounds are reached |
| ThreadMeaning.StartGapsMeaning | tools/realsense_steady_bench/generate_deadline_profile.py:143-148 | the distances from which periods are taken are those between the first releases of neighbouring jobs |
| ThreadMeaning.StablePeriodsMeaning | tools/realsense_steady_bench/generate_deadline_profile.py:140-155 | stable periods exist if and only if job starts have two positive distances and at least two and half of them lie within 80 and 120 percent of the median, given by rank, and are exactly those |
| ThreadModel.ModelThread | tools/realsense_steady_bench/generate_deadline_profile.py:140-172 | splitting a thread's activations and taking the smallest stable period and the longest job computes its model, or finds that it has none |
| ThreadModel.TraceThreads | tools/realsense_steady_bench/generate_deadline_profile.py:175-230 | a trace is modelled exactly when each of its threads can be, and then thread by thread |
| DeadlineProfile.RoleWorstCase | tools/realsense_steady_bench/generate_deadline_profile.py:301-309 | the shared demand of a role is its largest execution and its smallest period over all runs and instances |
| DeadlineProfile.RuntimeIsLeast | tools/realsense_steady_bench/generate_deadline_profile.py:327-330 | the runtime is the least integer that reaches the kernel's minimum and the execution times the margin |
| DeadlineProfile.PeriodIsGreatest | tools/realsense_steady_bench/generate_deadline_profile.py:331-334 | the period is the greatest integer within the kernel's maximum and the observed period times the scale |
| DeadlineProfile.FitsExactly | tools/realsense_steady_bench/generate_deadline_profile.py:335-339 | a role is refused if and only if no integer is both enough as a runtime and short enough as a period |
| DeadlineProfile.GenerateProfile | tools/realsense_steady_bench/generate_deadline_profile.py:247-377 | a profile is produced exactly when the factors are valid, the runs agree on the threads, every included role fits and one is included; it then has one row for each thread of an included role, which grants the least runtime and the greatest period for the demand of its role |
| ProfileDominance.ProfileDominates | tools/realsense_steady_bench/generate_deadline_profile.py:317-352 | every row covers each job and each stable period of every thread of its role in every trace, rows of a role share parameters, and 0 < runtime <= deadline = period |
| ProfileDominance.ProfileFromTraces | tools/realsense_steady_bench/generate_deadline_profile.py:247-377 | read off the traces alone: a profile is made if and only if the factors are valid, all threads can be modelled, the runs agree on them, every included role fits and one is included; exactly the threads have a row whose role's shortest stable period is not above the given maximum, and it grants the least runtime for the role's longest job and the greatest period for that period; identities are distinct, 0 < runtime <= deadline = period, each row covers every thread of its role in every trace, and the loader returns it unchanged if and only if ranks and periods fit their fields |
| ProfileDominance.ProfileLoadsExactly | src/deadline_scheduler.cpp:157-176 | the loader accepts a generated profile and returns it unchanged if and only if ranks and periods fit their fields |
| ProfileLoader.LoadProfile | src/deadline_scheduler.cpp:125-181 | a profile loads exactly when it is nonempty, all rows parse and are ordered, and identities are distinct after narrowing the instance to 32 bits |
| Csv.SplitCsv | src/deadline_scheduler.cpp:76-106 | the character loop computes the recursive reading of a quoted line |
| Csv.RefusedExactly | src/deadline_scheduler.cpp:76-106 | any line is refused if and only if its number of quotes is odd |
| Csv.UnquotedSplits | src/deadline_scheduler.cpp:76-106 | a line without quotes is split at its commas |
| Csv.LineSplitsBack | src/deadline_scheduler.cpp:76-106 | any fields written with minimal quoting are split back unchanged |
| Scheduler.BuildLive | src/deadline_scheduler.cpp:291-298 | the live threads are bound to role and rank in creation order |
| Scheduler.LiveThread | src/deadline_scheduler.cpp:291-298 | every live thread is found under its own identity |
| Scheduler.AssignPriorities | src/deadline_scheduler.cpp:431-436 | the i-th shortest period gets the i-th priority from the highest down |
| Scheduler.ApplyDeadline | src/deadline_scheduler.cpp:279-347 | applied exactly when the profile loads, fits the live threads and names only live ones; then each entry's thread gets its parameters, or, if and only if a call is refused, the calls made so far are undone |
| Scheduler.ApplyRateMonotonic | src/deadline_scheduler.cpp:384-476 | applied exactly when the band is valid and wide enough, the profile loads and matches all live threads; then each thread gets its priority, or, if and only if a call is refused, the calls made so far are undone |
| Scheduler.RateMonotonicOrder | src/deadline_scheduler.cpp:420-436 | priorities are strictly inverse to periods, and equal periods share one |
| Scheduler.RateMonotonicFillsBand | src/deadline_scheduler.cpp:420-436 | the priorities used are exactly those from the lowest to the highest |
| Scheduler.EveryThreadAssignedOnce | src/deadline_scheduler.cpp:405-452 | every live thread has exactly one assignment |
| Scheduler.RollbackIsComplete | src/deadline_scheduler.cpp:227-249 | a refused call leaves the threads changed before it at SCHED_OTHER and all others as they were, when no reset is refused |
| Scheduler.DeadlineReachesThreads | src/deadline_scheduler.cpp:310-346 | after a complete deadline application every live thread has the parameters of the entry for its own role and rank, or no entry and its old policy |
| Scheduler.RateMonotonicReachesThreads | src/deadline_scheduler.cpp:438-476 | after a complete rate-monotonic application every live thread has an entry for its own role and rank and runs at the priority assigned for it |
| SchedulerIntervals.BuildIntervals | tools/realsense_startup_bench/parse_startup_trace.py:317-386 | the event loop computes the intervals that the lemmas below describe |
| SchedulerIntervals.IntervalsShowState | tools/realsense_startup_bench/parse_startup_trace.py:355-386 | at every time the interval around it, if any, carries the state the events up to then leave the thread in |
| SchedulerIntervals.IntervalsShowCause | tools/realsense_startup_bench/parse_startup_trace.py:317-386 | every interval begins with an event that put the thread in its state and has the CPU and the reason that this event, the blocking calls and the CPUs before it give |
| SchedulerIntervals.FirstTimes | tools/realsense_startup_bench/parse_startup_trace.py:363-375 | first run and first sleep are the times of the first switch-in and of the first switch-out that is not a preemption, if there is one |
| SchedulerIntervals.IntervalsAreChronological | tools/realsense_startup_bench/parse_startup_trace.py:317-386 | intervals follow one another inside the window |
| SchedulerIntervals.ChronologicalOrder | tools/realsense_startup_bench/parse_startup_trace.py:317-386 | any two emitted intervals lie inside the window and the earlier one ends no later than the later one starts |
| SchedulerIntervals.IntervalsTile | tools/realsense_startup_bench/parse_startup_trace.py:317-386 | without a process exit the intervals tile from the first opening event to the end, and running, ready and sleeping time add up to it |
| Overlap.BisectRight | tools/realsense_steady_bench/analyze_capture_residual.py:114-114 | the position splits the sorted list at the value |
| Overlap.IntervalOverlap | tools/realsense_steady_bench/analyze_capture_residual.py:106-122 | the loop computes the bounded scan |
| Overlap.OverlapIsExactIff | tools/realsense_steady_bench/analyze_capture_residual.py:106-122 | the scan never exceeds the sum over all intervals and equals it if and only if the intervals before its start have ended by the stage's begin |
| Overlap.DisjointOverlapIsExact | tools/realsense_steady_bench/analyze_capture_residual.py:106-122 | on intervals that do not overlap the scan is exact and at most the stage's length |
| Overlap.NestedIntervalHidesOuter | tools/realsense_steady_bench/analyze_capture_residual.py:106-122 | two nested intervals on which the scan misses the outer one |
| StageCpu.RunningIntervals | tools/realsense_steady_bench/analyze_capture_residual.py:65-88 | the event loop computes the runs |
| StageCpu.RunsAreSwitchPairs | tools/realsense_steady_bench/analyze_capture_residual.py:77-87 | a run is reported exactly for each switch-out that follows a switch-in later than it |
| StageCpu.RunsAreDisjoint | tools/realsense_steady_bench/analyze_capture_residual.py:65-88 | the runs of a time-sorted trace are sorted and do not overlap |
| StageCpu.StageCpuTime | tools/realsense_steady_bench/analyze_capture_residual.py:125-162 | the loop computes the bounded split, and task time is the rest, never below zero |
| StageCpu.StageSplitIsExact | tools/realsense_steady_bench/analyze_capture_residual.py:125-162 | for a time-sorted trace and interrupts that do not overlap on a CPU the split is the plain sum over all runs and interrupts, interrupts never exceed residency, and residency never exceeds the stage |
| StageCpu.StageSplitIsExactIff | tools/realsense_steady_bench/analyze_capture_residual.py:125-162 | for a time-sorted trace and any sorted interrupts the split counts every run and never too much interrupt time, and hard (soft) interrupt time is the plain sum if and only if no run's part of the stage begins inside a hard (soft) interrupt of its CPU that a later one hides |
| Scans.FindEnclosing | tools/realsense_steady_bench/analyze_full_receive_path.py:327-340 | the backward search bounded by the longest callback finds every enclosing callback |
| Scans.LatestIsFirst | tools/realsense_steady_bench/analyze_full_receive_path.py:341-344 | the first candidate is an enclosing callback with the latest start, and there is one exactly when some callback encloses the time |
| Scans.AnnotationMeaning | tools/realsense_steady_bench/analyze_full_receive_path.py:331-350 | a buffer takes release, start and interrupt of an enclosing callback with the latest start, and stays as it was where none encloses it |
| Scans.AnnotateBuffers | tools/realsense_steady_bench/analyze_full_receive_path.py:331-350 | every buffer is annotated in place from its latest enclosing callback, or left as it was |
| Scans.NearestDeltas | tools/realsense_hardware_sync_bench/compare_usb_irq_pressure.py:111-123 | on sorted input each result is the smallest distance to any timestamp |
| Scans.SlidingWindowMax | tools/realsense_hardware_sync_bench/compare_usb_irq_pressure.py:126-134 | the queue computes the densest window that ends with a timestamp |
| Scans.NoWindowIsDenser | tools/realsense_hardware_sync_bench/compare_usb_irq_pressure.py:126-134 | no window of the width, wherever it starts, holds more timestamps |
| Scans.SomeWindowIsAsDense | tools/realsense_hardware_sync_bench/compare_usb_irq_pressure.py:126-134 | some window holds that many |
| CpuList.ParseCpuList | tools/realsense_bench_common/cpu_isolation.py:22-44 | the token loop computes the set, or refuses the text |
| CpuList.ParseMeaning | tools/realsense_bench_common/cpu_isolation.py:22-44 | any text parses if and only if it is blank or each comma-separated token is a number or a range that does not descend, and gives exactly the CPUs in one of them |
| CpuList.FormatCpuList | tools/realsense_bench_common/cpu_isolation.py:47-61 | the loop prints the maximal ranges |
| CpuList.ParseFormat | tools/realsense_bench_common/cpu_isolation.py:22-61 | printing a CPU set and parsing it gives the set back |
| CpuList.FormatIsInjective | tools/realsense_bench_common/cpu_isolation.py:47-61 | equal printed lists come from equal sets |
| CpuList.FormatIsCanonical | tools/realsense_bench_common/cpu_isolation.py:47-61 | the printed ranges ascend with a CPU missing between neighbours, and any such list of ranges is the printed form of exactly its own CPUs |
| CpuIsolation.Isolation.Prepare | tools/realsense_bench_common/cpu_isolation.py:358-462 | the partition is set up, with CPUs, memory nodes, interrupts and process where they belong, if and only if it is wanted, not there yet, and no write, read or check fails; after one failure the system is as it was, after more at most one setting fewer than failures differs |
| CpuIsolation.Isolation.Restore | tools/realsense_bench_common/cpu_isolation.py:464-526 | a first restore reports an error for each failed write, goes on after it, and leaves at most that many settings other than they were; without one everything is as before |
| CpuIsolation.PrepareAndRestore | tools/realsense_bench_common/cpu_isolation.py:358-526 | whatever write or check fails, prepare followed by restore changes at most as many settings as restore reports errors, and nothing without one |
| MemoryNoise.RateLimiter.constructor | src/realsense_memory_noise.cpp:213-226 | the interval is the time of one quantum at the target rate, rounded down to nanoseconds and at least one |
| MemoryNoise.RateLimiter.WaitForSlot | src/realsense_memory_noise.cpp:238-269 | each grant is at least one interval after the grant before it, the wait asks to sleep no longer than until its slot, and only a stop request ends it without a grant |
| MemoryNoise.GrantsSpan | src/realsense_memory_noise.cpp:238-269 | any k + 1 successive grants span at least k intervals |
| MemoryNoise.WindowBound | src/realsense_memory_noise.cpp:238-269 | a window of length W holds at most W / interval + 1 grants |
| MemoryNoise.WindowBytes | src/realsense_memory_noise.cpp:213-269 | the bytes let through in a window, but for one quantum, are at most the target rate over the window and one nanosecond per further grant |
| MemoryNoise.TakeSlot | src/realsense_memory_noise.cpp:238-269 | a worker's slot is a grant of the shared limiter, whatever the other workers take before it |
| MemoryNoise.CopyWorker | src/realsense_memory_noise.cpp:280-326 | one copy per granted slot, in bounds, and none missing before a stop request; chunks = swaps times chunks per pass plus position, the measured chunks and passes are those of the flag readings, the buffers hold the first buffer's contents as far as copied, and the checksum is that of the first buffer's initial contents |

## Left out

- CampaignStarts.InterruptedStageEndsCampaign: assumes that no resume overwrites the record of a started stage without a marker, because without that the promise is false; the gap is described above.
- CampaignStarts.StartsAreOnce: the same assumption, for the same reason.
- CampaignCompletion.CompletedFilesExactly: a stop that comes too late can leave a completed campaign with a half-written boot file, so equality with the snapshot is promised exactly as far as it holds.
- The campaign's worker and control loops and the probe's threads appear as steps of a transition relation instead of loops over mutable objects, because a crash or another thread may come between any two steps; fields of the `state` dictionary are updated as records.
- A resume writes `pipeline.json` only while no worker runs: a service that was queued before and starts between the idle check and that write is not part of the campaign model.
- Two controlling commands at the same time, a changed repository path and failing checks of sources, network and privileges beyond "the worker fails at this point" are not part of the campaign model; Wi-Fi state, the smoke calibration length and PDF rendering are left out.
- CampaignReboots.PendingBootFailsExactly: takes the three measured releases as coming up only when `config.txt` names them.
- CampaignReboots.PlannedBootIsAccepted: takes the firmware as booting the one kernel that `config.txt` names; overlapping sections and other boot options are not modelled.
- KernelSelection: white space is ASCII, and lines end at line feeds only.
- The probe's `stop` flag stored with a failure is not a separate flag: deliveries after a failure are allowed, so the model has more runs than the program; a timeout is a step that may be taken while the awaited condition is false.
- Null frames handed out by the camera library are left out; a frame is a stream and a number.
- ProbeSafety.StorageNeverExhausted: covers delivery-count mode only, because the fixed-duration capacity rests on a guessed headroom for the frame rate.
- Frame numbers are unbounded natural numbers, and the sums over streams in the freshness summary are left out.
- Files with blank or malformed fields, and the equality of camera numbers written in different ways, are not part of the freshness model.
- ProbeFramesets.ReachableReconstructionsAgree: covers delivery-count mode, where no frame is lost to an exhausted buffer, and deliveries that carry whole framesets.
- FreshnessAgreement.ReconstructionsAgree: each delivery lists a stream once and in written order, as its hypotheses say; for a number that falls back E2, E3 and E4 do not agree, and `ProblemCountsMeaning`, `PathMetricsMeaning` and `ReconstructionMeaning` say what each counts.
- LogicalJobs.SplitLogicalJobs: ratios and the square root are exact, where the program rounds them.
- DeadlineProfile.GenerateProfile: roles and rows come in an arbitrary order instead of sorted, the display name and the metadata file are left out, and margins are exact reals.
- ThreadModel.TraceThreads: starts from the activations of each identity; reading trace files, the policy check of a thread's summary and overwritten thread numbers are left out.
- ProfileLoader.LoadProfile: starts from split fields that are numbers; text that is not a number is refused before it.
- Csv.LineSplitsBack: one line at a time; a field that contains a line feed is cut by the reader's line splitting.
- Scheduler.DeadlineReachesThreads: takes the live threads of a snapshot to have different thread numbers, as the kernel gives them.
- Scheduler: signal handling for deadline overruns and the JSON reports are left out; a refused system call changes nothing.
- SchedulerIntervals.BuildIntervals: identifiers and millisecond columns copied into each interval are left out.
- Scans.NearestDeltas: distances stay in nanoseconds; trace parsing before the scans is left out.
- CpuList.ParseCpuList: ASCII digits and white space only; a set is its ascending listing.
- CampaignProgress.UndisturbedRunCompletes: takes the derived output as written with its manifest, and acquisitions as ending with a valid marker.
- ProbeFaults.MainGoesItsWay: says in which order the main thread goes on, not that cameras deliver.
- FreshnessCounts.ReconstructionMeaning: deliveries stand together in the file, as the probe writes them; in another order E4 compares in the order of the deliveries.
- CpuIsolation.Isolation.Restore: speaks about the first call only, since the record of affinities is cleared by it; a failed write is taken to change nothing.
- MemoryNoise.CopyWorker: the readings of the measurement flag are a given finite sequence, and the worker stops when it runs out or a wait ends without a slot.
- Hardware synchronisation, retried attempts, camera resets, adapter generation, plots and reports are left out; they repeat these patterns in simpler form.
