# A verified model of the resource manager

resman watches the CPU, memory and I/O use of the users of a machine. When a resource is over its
threshold it puts the users into a shared cgroup, and it lets them go when all resources are calm
again. This project models the parts of it whose correctness is a matter of whole runs and not of
single calls, and proves what those parts are for.

| files | what they model |
|---|---|
| `ControlModel`, `Manager` | the control loop of the `state` package: `ControlModel` is its step function over values, `Manager` the object whose methods carry out the same steps on fields |
| `ControlDecisions`, `ControlEffects` | when the loop decides what, and what a step does to one user, in terms of the reading, the clock and the cgroup answers |
| `ControlInvariants`, `ControlTiming` | what all runs of the control loop keep, how long active periods last, and what their counters mean |
| `ControlActivation`, `ControlStability`, `ControlRelease` | what an activation and a deactivation prove about the readings before them, and when limits go away |
| `ControlFailures` | runs of the control loop that go wrong |
| `SystemReading` | the pass that collects a cycle's totals, and the I/O baseline behind the write rates |
| `IORemediation` | the starvation timer, boost and hourly cap of I/O remediation |
| `PSIWatcher`, `WatcherLaws` | the monitor list that the pressure poll loop reads through a snapshot, and what the manager sees of it |
| `PatternDetector`, `PatternLaws`, `PatternClasses` | hourly running means, their variance, and what the workload classification says of the samples |
| `MetricsCache`, `CacheFreshness` | the collector's two-level cache, and how old its answers can be |
| `ProcessSamples` | the per-process CPU samples and the moving average |
| `Exporter`, `ExporterLaws` | counters fed with differences, and labels that follow their users |
| `Text`, `TrackingFile` | lines, numbers, and the file from which a restarted daemon recovers its cgroups |
| `ConfigFile`, `ConfigReading`, `ConfigLaws` | loading the configuration file and writing the user lists back into it |

Each object of the program is a class with its fields. Its methods have the program's loops and are
proved against functions on values. Runs are sequences of events over those functions, and the
theorems are about all runs. Time is an integer input of every step and never an assumption about
speed; Go's zero time is `None`. Readings, and the success or failure of every system call, are
inputs. A `go` statement of the control loop is a token in a multiset, which any later step may
complete. Floating point numbers are reals.

## Findings

Some statements that the code or its documentation suggests are not true of it. The model keeps the
code as it is, and a lemma says exactly when the statement holds. The runs of the control loop that
serve as counterexamples are `Possible`: their clocks advance, and their readings are sums that a
pass over the users can report (`CollectedIff`).

* A boost whose weight cannot be written back is forgotten anyway. The user then stays boosted for
  as long as it is limited and has no new pressure event: `RevertAccountsIff` gives the condition,
  `LostBoost` a run, `LostBoostStays` what follows.
* A forced activation drops users that have logged out, but not their boosts and monitors:
  `ForceActivateLeaksIff` and `ForcedLeak`. Such a leaked boost can outlive its duration when an
  execution fails, because that ends the cycle before boosts are reverted: `ExpiryIff` and
  `SurvivingBoost`. Without a leak a failed execution costs nothing: `BoostsExpire`.
* I/O pressure alone activates limits only without `IO_THRESHOLD_DURATION`. With it, the first
  waiting cycle counts as "nothing exceeded" and resets the timer it has just started:
  `IOAloneActivatesIff`, and `SustainedIO` for a run of any length.
* An activation for RAM or I/O that comes to nothing leaves the CPU timer running while the CPU is
  idle, and the next CPU peak can activate limits at once: `ActivationWindowIff` and `StaleTimer`.
* The three low samples before a deactivation need not lie in the period that it ends. A user that
  was released as idle keeps its samples through the deactivation, and one more can end the next
  period: `EndsEarlyIff`, `CounterIsClearedIff` and `OneCyclePeriod`.
* A user that leaves the filters for some cycles and returns is charged with the bytes of its
  absence as if written in one cycle: `ChargeIsGrowthIff` and `ReturningUserIsOvercharged`.
* Patterns with commas, `#`, or outer quotes or blanks are accepted by the setters and come back
  changed: `ReadBackIff` and `RepetitionIsLost`. A pattern with a newline makes the file grow with
  every save: `SavingTwiceIff` and `NewlineGrows`. A line with a blank before the equals sign, or a
  legacy `USER_WHITELIST` line, can win over the saved one: `OutcomeIs` and `SpacedKeyWins`.
* Quotes around a value are stripped only if no blank stands between them and a comment behind it;
  otherwise the closing quote becomes part of the value: `CommentedValueIff` and `QuoteStays`.
* A user that is never seen between 8 and 18 o'clock has a ratio of night to day of zero. It is never
  classified as nightly, and a steady load at midnight is classified as a day user: `DaylessIff` and
  `NightUser`.
* A cgroup whose line could not be appended is lost at the next restart: `LostSaveIff` and `LostSave`.
* A directory that comes back from outside makes a restart recover a cgroup that was cleaned up, if
  its line could not be removed: `UnknownIff` and `StaleLine`.
* A full cache evicts nothing for a store that is not later than any of its entries:
  `SizeIsBoundedIff` and `BurstExceeds`, a run with ten thousand stores and one more within one
  reading of the clock.
* A uid that was labelled under two names has two live pattern labels: `OneLabelPerUidIff` and
  `TwoNames`.
* A user that is labelled after its cleanup keeps the label while it is away, as a cleanup only looks
  at users with an update: `StaleLabelIff` and `LabelOutlivesUser`.
* Cleaning up a user leaves its two average gauges exported: `StaleGaugeIff` and
  `AveragesOutliveUser`.
* A counter equals its raw reading only as long as that reading never falls: `CounterMeansReading`.

## Model

| member | source | states |
|---|---|---|
| StateManager.ThresholdTracker.constructor | state/decision_engine.go:264-271 | a new tracker has seen nothing |
| StateManager.ThresholdTracker.Reset | state/decision_engine.go:264-271 | forgets the first exceedance and both counters |
| StateManager.ThresholdTracker.ShouldActivateLimits | state/decision_engine.go:274-303 | ready exactly when the value is at or above the threshold and was first seen there at least the required time ago; a lower value restarts the wait |
| StateManager.Manager.constructor | state/manager.go:157-217 | a new manager has no limits, users, boosts, monitors or pending goroutines |
| StateManager.Manager.SampleLimitedUsers | state/decision_engine.go:142-150 | one sample per limited user with metrics: below the release threshold counts up, otherwise back to zero |
| StateManager.Manager.AllStable | state/decision_engine.go:153-159 | every limited user has three samples in a row |
| StateManager.Manager.CheckIODuration | state/decision_engine.go:75-88 | I/O counts as exceeded only once its tracker is ready; otherwise the tracker is reset |
| StateManager.Manager.MayDeactivate | state/decision_engine.go:117-173 | the decision and the trackers while limits are active |
| StateManager.Manager.MayActivate | state/decision_engine.go:176-220 | the decision and the trackers while limits are inactive |
| StateManager.Manager.MakeDecision | state/decision_engine.go:28-221 | the whole decision is the decision function of the step model |
| StateManager.Manager.FindIdleUsers | state/limits_applier.go:25-40 | exactly the limited users that are gone or below 0.1% CPU |
| StateManager.Manager.FindReturningUsers | state/limits_applier.go:45-52 | exactly the eligible users at or above 0.1% that are not limited |
| StateManager.Manager.ReleaseAll | state/limits_applier.go:55-74 | released users lose their mark, boost and both monitors, and each has a release goroutine |
| StateManager.Manager.AddAll | state/limits_applier.go:92-139 | exactly the users whose cgroup could be created are marked, watched and have a placement goroutine |
| StateManager.Manager.ReleaseIdleUsers | state/limits_applier.go:12-147 | the maintain step, including the new application time when somebody was added |
| StateManager.Manager.DropGoneUsers | state/limits_applier.go:178-188 | the marks of users without processes go, and nothing else |
| StateManager.Manager.EnsureSharedCgroup | state/limits_applier.go:194-227 | the shared path is kept once it exists, even when the quota cannot be set |
| StateManager.Manager.EnrolUsers | state/limits_applier.go:234-395 | limits become active if anybody was added or dropped, and failures are reported |
| StateManager.Manager.ActivateNow | state/limits_applier.go:150-396 | the three phases together are the activation step |
| StateManager.Manager.RestoreLimits | state/limits_applier.go:457-506 | an error is reported exactly when one user's limit could not be restored |
| StateManager.Manager.WaitForTasks | state/limits_applier.go:403 | waiting completes all pending goroutines, in whatever order they end |
| StateManager.Manager.ForgetUsers | state/limits_applier.go:410-451 | users, monitors, counters and boosts are cleared, limits are off and have no path |
| StateManager.Manager.DeactivateNow | state/limits_applier.go:399-527 | the deactivation step |
| StateManager.Manager.FinishOne | state/limits_applier.go:281-301 | a placement ends with weight 100 if it can be written; a release changes no table |
| StateManager.Manager.OnUserPSIEvent | state/manager.go:387-420 | a boost is recorded only for a limited user whose weight was written |
| StateManager.Manager.FindExpiredBoosts | state/manager.go:429-436 | exactly the boosts of at least the boost duration |
| StateManager.Manager.RevertPSIBoosts | state/manager.go:423-458 | expired entries go, and the weights that can be written are 100 |
| StateManager.Manager.RunControlCycle | state/control_cycle.go:86-118 | the stages in their order, with the early exits of a blackout, a failed reading and a failed execution |
| StateManager.Manager.ForceActivateLimits | state/limits_applier.go:551-560 | an activation without a decision |
| StateManager.Manager.ForceDeactivateLimits | state/limits_applier.go:563-576 | a deactivation that also clears all stability counters |
| StateManager.Manager.ReplaceConfig | state/manager.go:365-371 | only the configuration changes, and not even that for nil |
| ControlInvariants.RunIsConsistent | state/limits_applier.go:363-427 | in every run, for any failures: inactive limits mean no limited users, active limits have a shared path and a start time, and counters are not negative |
| ControlInvariants.RunDoesNotLeak | state/limits_applier.go:54-61 | without forced activation, boosts and monitors belong to limited users in every run |
| ControlInvariants.ForceActivateLeaksIff | state/limits_applier.go:176-188 | a forced activation keeps that exactly when no user that logged out has a boost or a monitor |
| ControlFailures.ForcedLeak | state/limits_applier.go:176-188 | a possible run in which it fails |
| ControlInvariants.RunAccountsForBoosts | state/manager.go:387-458 | with weight writes succeeding, in any interleaving a limited user whose weight is not 100 has a boost entry or a pending placement |
| ControlInvariants.BoostsExpire | state/manager.go:423-458 | after every evaluated cycle with a watcher all remaining boosts are younger than the boost duration, if activation was never forced or the decision could be carried out; with weight writes succeeding every other boosted user awaits its placement |
| ControlInvariants.SuccessIs | state/limits_applier.go:191-506 | an execution succeeds exactly if it maintains, if there is a shared cgroup and every eligible user's can be created, or if every limit can be restored |
| ControlInvariants.ExpiryIff | state/control_cycle.go:108-115 | a cycle leaves no expired boost exactly if its decision can be carried out or no boost of a user that is not limited has expired |
| ControlInvariants.FailureLeavesLeaks | state/control_cycle.go:176-188 | a failed execution leaves exactly the boosts of users that were not limited, so none if nothing has leaked |
| ControlFailures.SurvivingBoost | state/control_cycle.go:108-115 | a possible run in which an expired boost survives a failed execution |
| ControlInvariants.RevertAccountsIff | state/manager.go:442-457 | with failing writes the accounting survives a revert exactly when each failed user has weight 100, a pending placement or no limits |
| ControlFailures.LostBoost | state/manager.go:442-457 | a possible run that ends with a limited user whose boost nothing records and nothing pending will revert |
| ControlFailures.LostBoostStays | state/manager.go:442-457 | it stays so in every run in which the user is never released and has no new pressure event |
| ControlTiming.CheckPair | config/config.go:814-822 | no message exactly when release lies below the threshold and both lie in 1 to 100 |
| ControlTiming.CheckThresholds | config/config.go:810-924 | the threshold rules find nothing exactly in valid configurations |
| ControlTiming.NoReadingFlaps | config/config.go:820-822 | with a valid configuration no reading calls for activation and for release at once |
| ControlTiming.CPUFlapsIff | config/config.go:814-822 | a reading that can be collected calls for both exactly when the release threshold is positive and above the activation threshold |
| ControlTiming.ActivePeriodsLast | state/decision_engine.go:117-121 | without forced operations, limits last at least MIN_ACTIVE_TIME after the start and after every later addition |
| ControlTiming.AppliedOnlyGrows | state/limits_applier.go:130-139 | while limits are active, additions move the gate forward only |
| ControlTiming.OnlyDeactivationEnds | state/decision_engine.go:117-173 | only a deactivation decision past the gate ends limits |
| ControlTiming.PeriodEndsIff | state/decision_engine.go:117-173 | without force limits end with a cycle that is past the gate, finds CPU, RAM and I/O below release and no system load, and gives every user in GetLimitedUsers its third low sample; with any such cycle, and with nothing else |
| ControlTiming.PeriodStartsIff | state/decision_engine.go:175-215 | and start with a cycle that finds a resource over its threshold for long enough, cores to spare and the load allowed, if there is a shared cgroup and one eligible user can enter it |
| ControlDecisions.DeactivatesIff | state/decision_engine.go:117-173 | the decision while limits are active, as a condition on the reading's numbers, the clock and the counters |
| ControlDecisions.ActivatesIff | state/decision_engine.go:175-215 | the decision while limits are inactive, likewise |
| ControlDecisions.TimersAfter | state/decision_engine.go:74-90 | when each timer starts, goes on and is cleared |
| ControlDecisions.TrackerIs | state/decision_engine.go:274-303 | after any series of values a tracker counts those at or above the threshold, in all and at the end, and has the time of the first of the latter |
| ControlDecisions.ReadyIff | state/decision_engine.go:288-296 | it is ready exactly if those at the end cover the duration |
| ControlEffects.LimitedIff | state/limits_applier.go:12-396 | who is limited after a cycle: with active limits that stay, the users at 0.1% CPU or more that were limited or are eligible and can be; with an activation, the eligible ones that can be; otherwise nobody |
| ControlEffects.CycleMoves | state/limits_applier.go:54-139 | who joins is watched as far as AddMonitor works and waits for its placement; who leaves is not watched and waits for its release |
| ControlEffects.CycleGate | state/limits_applier.go:130-227 | the gate moves exactly when somebody joins; the shared path is kept even if its quota failed |
| ControlEffects.ActivationIs | state/limits_applier.go:150-396 | an activation from any state: who is limited, watched and waiting after it |
| ControlEffects.ActivationGate | state/limits_applier.go:150-396 | when it makes limits active and moves the gate, and what it leaves alone |
| ControlEffects.DeactivationIs | state/limits_applier.go:399-527 | what a deactivation leaves of every table |
| ControlEffects.BoostGoesIff | state/manager.go:423-458 | in a cycle a boost goes exactly if its user is released, or if it has lasted the boost duration and boosts are reverted; until then it keeps its time and weight |
| ControlEffects.BoostLasts | state/manager.go:429-436 | so the boost of a user that stays limited goes exactly at PSI_BOOST_DURATION |
| ControlEffects.PressureIs | state/manager.go:387-420 | a pressure event boosts exactly a limited user whose weight can be written, to the nearest weight from 1 to 10000, and changes nobody else |
| ControlEffects.FinishIs | state/limits_applier.go:281-301 | a goroutine that ends is no longer pending, and only a placement writes a weight |
| ControlEffects.SkippedIs | state/control_cycle.go:116-170 | a blackout, a missing reading and a refresh change nothing |
| ControlEffects.RunIsWatched | state/limits_applier.go:54-139 | if AddMonitor works and activation is never forced, the watched users are the limited users in every run |
| ControlActivation.ActivationWindowIff | state/decision_engine.go:74-215 | for any configuration: an activation that only the CPU justifies has a cycle at least the window back since which every evaluated cycle called for limits, and the CPU was over its threshold for a whole window exactly if since some cycle that far back no activation found it low |
| ControlActivation.ActivationNeedsWindow | state/decision_engine.go:194-215 | if no activation ever finds the CPU low, it was over its threshold in every evaluated cycle of a whole window; no stale timer is ever read |
| ControlActivation.OnlyCPU | state/decision_engine.go:53-72 | which is so for every activation in every run with RAM and I/O limiting off |
| ControlActivation.StaleTimer | state/decision_engine.go:196-214 | a possible run with an activation for the CPU that no window leads up to |
| ControlActivation.TimerIsExplained | state/decision_engine.go:161-220 | whenever limits are inactive the timer dates from a cycle with the CPU over its threshold, since which every evaluated cycle called for limits |
| ControlActivation.IOAloneNeverActivates | state/decision_engine.go:75-90 | with an I/O window, runs in which only I/O is ever exceeded never activate limits |
| ControlActivation.IOAloneActivatesIff | state/decision_engine.go:75-90 | in runs in which only I/O is ever exceeded, some cycle activates exactly if there is no I/O window and some evaluated cycle finds I/O exceeded with cores to spare and load allowed |
| ControlActivation.SustainedIO | state/decision_engine.go:75-90 | a possible run of any length with I/O at ten times its limit that never activates |
| ControlTiming.CountersAreRuns | state/decision_engine.go:142-150 | a stability counter is the length of the trailing run of low samples since it was cleared |
| ControlTiming.SamplesAreGenuine | state/decision_engine.go:134-150 | those samples are the user's averages in distinct evaluated cycles of the run, in order |
| ControlTiming.DeactivationNeedsThreeSamples | state/decision_engine.go:152-165 | a deactivation has three genuine low samples in a row for every user in GetLimitedUsers, and no other cycle since the first of them took a sample of that user |
| ControlTiming.SamplesAreComplete | state/decision_engine.go:142-150 | since the first listed sample every cycle that sampled the user is listed |
| ControlStability.CountersGoOn | state/decision_engine.go:142-150 | while limits stay active a counter goes on from its value until a sample is not low |
| ControlStability.EndsEarlyIff | state/decision_engine.go:152-165 | a period of active limits can end with fewer than three samples of a user in it exactly if the user's counter was not zero at its start |
| ControlStability.CounterIsClearedIff | state/limits_applier.go:440-443 | a deactivation clears the counter of exactly those users that were still limited |
| ControlStability.OneCyclePeriod | state/limits_applier.go:54-74 | a possible run in which a period is ended by its first low sample |
| ControlTiming.MaintainRepairsIff | state/limits_applier.go:20-139 | one maintain step leaves exactly the busy eligible users limited if and only if busy limited users are still eligible and needed creations work |
| ControlTiming.LimitedUsersPass | state/limits_applier.go:234-366 | under fixed filters every limited user passes them, in every run |
| ControlTiming.MaintainRepairs | state/limits_applier.go:12-147 | so after any such history one maintain cycle limits exactly the eligible users at or above 0.1% |
| ControlRelease.AtMostThreeGates | state/decision_engine.go:117-170 | in any run of calm readings from any consistent state, whatever fails, at most three cycles pass the MIN_ACTIVE_TIME gate, and limits are off after the third |
| ControlRelease.NobodyAddedLater | state/limits_applier.go:42-52 | after the first calm cycle no event adds a user or moves the gate |
| ControlRelease.LimitsAreReleased | state/decision_engine.go:117-170 | so in time: after the first calm cycle, the third cycle at least MIN_ACTIVE_TIME later finds limits off or releases them, for good |
| SystemReading.Collector.constructor | state/manager.go:192 | a new baseline is empty |
| SystemReading.Collector.TakeRate | state/control_cycle.go:394-402 | the rate over the user's previous value, which the new one replaces |
| SystemReading.Collector.AddEligible | state/control_cycle.go:386-404 | totals and rates of the eligible users, in any map order |
| SystemReading.Collector.CollectSystemMetrics | state/control_cycle.go:333-420 | all totals; a refresh leaves the baseline alone and computes no rates |
| SystemReading.TotalAnyOrder | state/control_cycle.go:357-405 | the totals do not depend on the order of the map |
| SystemReading.CollectedIff | state/control_cycle.go:357-405 | a reading can be reported exactly if no use is negative, its CPU total is the sum over its eligible users, and nobody eligible means no memory and no writes |
| SystemReading.BaselineIs | state/control_cycle.go:402-416 | in every run a user's baseline is its value in the last decision cycle in which it passed the filters |
| SystemReading.ChargedIs | state/control_cycle.go:394-401 | a user is charged with its growth since its last pass, and with nothing without one |
| SystemReading.ChargeIsGrowthIff | state/control_cycle.go:394-401 | the rate is the charge per second; the charge is the growth since the last cycle exactly if the counter had not moved between the last pass and that cycle, or both are zero after a reset; bytes written in between come on top |
| SystemReading.PassingUserIsCharged | state/control_cycle.go:394-402 | a user that passed in the last cycle is charged with its growth |
| SystemReading.ReturningUserIsOvercharged | state/control_cycle.go:394-402 | a user at 1000 bytes per second is read as 3000 after two cycles outside the filters |
| SystemReading.RatesAddUp | state/control_cycle.go:394-409 | over any steady run the rates charge the whole growth, less at most one byte per second |
| IORemediation.Remediation.constructor | state/io_remediation.go:51-56 | a new remediation knows nobody |
| IORemediation.Remediation.CheckAndRemediate | state/io_remediation.go:68-148 | one due check treats the listed users in order; one that is not due changes nothing |
| IORemediation.Remediation.CheckOne | state/io_remediation.go:93-147 | timer, boost, expiry and revert of one user |
| IORemediation.Remediation.Cleanup | state/io_remediation.go:192-207 | drops idle old states and resets the counts of those an hour past their last boost |
| IORemediation.WorldFollowsCode | state/io_remediation.go:68-148 | the observed run has exactly the states of the code |
| IORemediation.TurnIs | state/io_remediation.go:93-183 | in every run a turn boosts exactly if pressure could be read and is at the threshold, no boost is in force, the timer is old enough, the count is below the cap and the removal works; a boost ends exactly after its duration or, if configured, with a calm reading; the timer runs exactly while every readable check finds pressure |
| IORemediation.CheckTakesTurns | state/io_remediation.go:68-91 | a check takes the turns of its users exactly if it is enabled and its interval has passed, and does nothing otherwise |
| IORemediation.CleanupIs | state/io_remediation.go:192-207 | which users a cleanup drops and whose counts it resets |
| IORemediation.BoostRateIsLimited | state/io_remediation.go:119-131 | no window of one hour holds more boosts of a user than the cap, in any order of checks and cleanups |
| IORemediation.BoostCountIsExact | state/io_remediation.go:165-168 | the counter covers the boosts of the last hour and never exceeds the cap |
| IORemediation.BoostNeedsStarvation | state/io_remediation.go:110-146 | a boost means pressure at every readable check for the starvation threshold; boosts are that far apart; a boost in force started at the last one |
| PSIWatcher.Watcher.constructor | cgroup/psi_watcher.go:46-53 | a new watcher has no monitors and no thresholds |
| PSIWatcher.Watcher.AddMonitor | cgroup/psi_watcher.go:71-109 | appends one monitor unless the key is watched, has no threshold or cannot be opened, and says whether the key is watched |
| PSIWatcher.Watcher.RemoveMonitor | cgroup/psi_watcher.go:112-124 | clears the active flag of that key only and keeps all positions |
| PSIWatcher.Watcher.Snapshot | cgroup/psi_watcher.go:191-209 | the active descriptors in list order, and the last position of each |
| PSIWatcher.Watcher.Resolve | cgroup/psi_watcher.go:241-248 | the monitor at the remembered position, if it is still active |
| PSIWatcher.Watcher.Clear | cgroup/psi_watcher.go:150-158 | the list is empty |
| PSIWatcher.EntryResolves | cgroup/psi_watcher.go:201-208 | under distinct descriptors the index leads from a polled entry to its own monitor |
| PSIWatcher.EventsAreAttributed | cgroup/psi_watcher.go:235-272 | in any interleaving each event carries the uid and type of the polled monitor, which was active when checked, even if descriptors are reused |
| PSIWatcher.OneMonitorPerKey | cgroup/psi_watcher.go:71-124 | at most one active monitor per user and type |
| PSIWatcher.AddWatchesIff | cgroup/psi_watcher.go:71-109 | a user is watched from then on exactly if it was, or if the type has a threshold and the file could be opened; the new monitor has this user, type and descriptor |
| PSIWatcher.WatchedIs | cgroup/psi_watcher.go:71-124 | in every run the watched users of a type are those whose file was opened with a threshold set and not given up since |
| PSIWatcher.StopEnds | cgroup/psi_watcher.go:141-164 | stopping empties the list once the loop has left, and not before |
| PSIWatcher.PolledIff | cgroup/psi_watcher.go:191-209 | a snapshot polls every active monitor once, in list order, and no other |
| PSIWatcher.EntryIsDelivered | cgroup/psi_watcher.go:235-272 | in every run a readable entry is delivered exactly if its monitor is still active when checked |
| WatcherLaws.AdditionsAreSeen | state/limits_applier.go:104-118 | adding both files of some users, in any order, gives the watched users that the control loop's step says |
| WatcherLaws.RemovalsAreSeen | state/limits_applier.go:62-66 | and so does removing them |
| PSIWatcher.AddWatches | cgroup/psi_watcher.go:71-109 | to the manager an addition adds this user to this type's watched set, or nothing |
| PSIWatcher.RemoveUnwatches | cgroup/psi_watcher.go:112-124 | a removal takes exactly this user out of it |
| PatternDetector.UserHourlyStats.constructor | state/pattern_detector.go:77-83 | new statistics are zero |
| PatternDetector.UserHourlyStats.Add | state/pattern_detector.go:85-90 | one sample moves its hour's mean and count and leaves the other hours |
| PatternDetector.UserHourlyStats.MeanOf | state/pattern_detector.go:176-189 | the mean over the hours that exist |
| PatternDetector.UserHourlyStats.MeanOfAll | state/pattern_detector.go:192-203 | the weighted mean over all hours |
| PatternDetector.UserHourlyStats.CalculateVariance | state/pattern_detector.go:206-226 | the weighted variance of the hourly means |
| PatternDetector.UserHourlyStats.ClassifyPattern | state/pattern_detector.go:116-173 | the decision table, with results below the threshold made unknown |
| PatternDetector.Detector.constructor | state/pattern_detector.go:65-70 | a new detector knows nobody |
| PatternDetector.Detector.Update | state/pattern_detector.go:73-91 | feeds this user's object and no other |
| PatternDetector.Detector.Analyze | state/pattern_detector.go:94-113 | one result for every known user, unknown with too few samples |
| PatternDetector.Detector.Cleanup | state/pattern_detector.go:229-239 | drops exactly the users without a recent sample |
| PatternLaws.MeansAreExact | state/pattern_detector.go:85-90 | for every hour mean times count is the sum of its samples |
| PatternLaws.OverallAverageIsMean | state/pattern_detector.go:192-203 | the overall average is the plain mean of every sample |
| PatternLaws.TotalVariance | state/pattern_detector.go:206-226 | the variance is the population variance less the mean variance inside the hours, or zero for a zero mean |
| PatternLaws.VarianceIsBounded | state/pattern_detector.go:206-226 | it is never negative and at most the population variance |
| PatternLaws.ConfidenceIsProbability | state/pattern_detector.go:116-173 | for any samples the confidence lies in [0, 1], and a named pattern reaches the threshold |
| PatternLaws.ConstantLoad | state/pattern_detector.go:136-165 | a constant load has no variance and is never called nightly, mixed or sporadic |
| PatternLaws.RunIsPerUser | state/pattern_detector.go:73-91 | in every run a user's statistics are those of its own samples since it was last dropped |
| PatternClasses.HourMeanIs | state/pattern_detector.go:85-90 | the running mean of an hour is the mean of its samples |
| PatternClasses.ClassifiedIs | state/pattern_detector.go:94-173 | for any samples the answer is the pattern that their night, day, unevenness and mean fit, with its trust, or unknown below the threshold or with too few samples |
| PatternClasses.PatternIff | state/pattern_detector.go:136-165 | what each named pattern says of the samples, in both directions |
| PatternClasses.DaylessIff | state/pattern_detector.go:120-135 | without samples by day nothing is nightly, and what is even and busy enough is a day user |
| PatternClasses.NightUser | state/pattern_detector.go:120-145 | samples at midnight only that are classified as a day user |
| MetricsCache.TotalsAnyOrder | metrics/collector.go:417-419 | totals do not depend on the order of the map |
| MetricsCache.TotalsAre | metrics/collector.go:425-445 | filtered totals are the sums over exactly the users that pass the filters |
| MetricsCache.AnswerIs | metrics/collector.go:362-487 | each query's answer is the sum, list or count that it names, over all users or only those that pass |
| MetricsCache.Collector.constructor | metrics/collector.go:133-151 | a new cache is empty |
| MetricsCache.Collector.GetFromCache | metrics/collector.go:828-847 | a hit exactly for an entry whose stamp is at most the time to live old |
| MetricsCache.Collector.Oldest | metrics/collector.go:855-864 | an oldest entry, if any is older than now |
| MetricsCache.Collector.SetInCache | metrics/collector.go:850-877 | stores under the new stamp and gives up at most that entry |
| MetricsCache.Collector.CleanupCache | metrics/collector.go:897-907 | drops exactly the entries older than five minutes |
| MetricsCache.Collector.ClearCache | metrics/collector.go:942-948 | empties the cache |
| MetricsCache.Collector.GetAllUserMetrics | metrics/collector.go:1026-1154 | the cached table, or a fresh scan that is cached unless it was the fallback |
| MetricsCache.Collector.SumOf | metrics/collector.go:425-445 | the CPU and memory totals over all users or over the filtered ones |
| MetricsCache.Collector.ListOf | metrics/collector.go:476-483 | all users or the filtered ones |
| MetricsCache.Collector.Compute | metrics/collector.go:407-487 | each query's answer from one table |
| MetricsCache.Collector.Ask | metrics/collector.go:1312-1350 | a getter returns its entry, or the answer for the table it fetched, which it stores |
| MetricsCache.AskedIs | metrics/collector.go:1312-1350 | a getter returns its live entry, or the answer for the live table or a new scan, which it stores; with room left nothing is evicted |
| CacheFreshness.AnswersAreFresh | metrics/collector.go:407-487 | under any interleaving a cached answer is the total over one real scan at most two times to live old, plus the delays inside two getters |
| CacheFreshness.TablesAreFresh | metrics/collector.go:1026-1032 | a table in use is at most one time to live old, plus one delay |
| CacheFreshness.CacheIsTyped | metrics/collector.go:407-411 | the type assertions of the getters never fail, those of the six machine-wide readings included |
| CacheFreshness.GettersAreRuns | metrics/collector.go:1312-1328 | a getter call is a run of these steps |
| CacheFreshness.HitIff | metrics/collector.go:828-847 | in every run a key is answered from the cache exactly if its last store was not evicted, expired or cleared and is at most the time to live old, and with that value |
| CacheFreshness.OldestGoes | metrics/collector.go:850-877 | a store evicts exactly if ten thousand entries are cached and one is older than it, and then one of the oldest |
| CacheFreshness.SizeIsBoundedIff | metrics/collector.go:855-876 | in every run the bound is kept at all times exactly if no store meets a full cache with a new key and no older entry |
| CacheFreshness.SizeIsBounded | metrics/collector.go:855-876 | so it is kept if every store finds room or an older entry |
| CacheFreshness.BurstExceeds | metrics/collector.go:361-375 | a run of getters that exceeds it, with no clock tick between |
| ProcessSamples.ProcCache.constructor | metrics/collector.go:144-150 | no samples and no averages |
| ProcessSamples.ProcCache.Oldest | metrics/collector.go:1600-1609 | a longest unsampled process |
| ProcessSamples.ProcCache.GetProcessCPUUsage | metrics/collector.go:1555-1620 | the percentage since the last sample, and the new sample with its eviction |
| ProcessSamples.ProcCache.CleanupCache | metrics/collector.go:909-919 | drops exactly the samples older than five minutes from both maps |
| ProcessSamples.ProcCache.CalculateEMA | metrics/collector.go:1484-1500 | the first value, then 0.3 new and 0.7 old, for this user only |
| ProcessSamples.SamplesAreBounded | metrics/collector.go:1598-1618 | in every run both maps know the same processes, never more than the limit |
| ProcessSamples.LastSampleIs | metrics/collector.go:1555-1620 | in every run both maps hold the last sample of a process that was not evicted or expired since |
| ProcessSamples.PercentIs | metrics/collector.go:1577-1592 | so a percentage is the CPU time used since that sample per elapsed time, and zero without one or without time passed |
| ProcessSamples.OldestGoes | metrics/collector.go:1598-1612 | a first sample evicts exactly if five thousand processes are known, and then one of the longest unsampled |
| ProcessSamples.PercentagesTelescope | metrics/collector.go:1577-1592 | percentages times elapsed time add up to 100 times the CPU growth, less what samples without elapsed time swallowed |
| ProcessSamples.NothingSwallowed | metrics/collector.go:1580-1581 | nothing is swallowed if the clock moves between samples |
| ProcessSamples.EmaIsPerUser | metrics/collector.go:1484-1500 | a user's average depends on its own readings only |
| ProcessSamples.EmaStaysInRange | metrics/collector.go:1497-1498 | it never leaves the range of its readings |
| ProcessSamples.EmaConverges | metrics/collector.go:1497-1498 | towards a constant reading the distance shrinks by 0.7 per scan |
| Exporter.KeyRoundTrip | metrics/prometheus.go:831-843 | a key is taken apart into its uid and username, even if the name has underscores |
| Exporter.PrometheusExporter.constructor | metrics/prometheus.go:174-177 | a new exporter tracks nobody |
| Exporter.PrometheusExporter.AddRise | metrics/prometheus.go:771-795 | a counter grows by the rise of its reading and never for a fall |
| Exporter.PrometheusExporter.UpdateUserMetrics | metrics/prometheus.go:727-800 | the user is tracked, its gauges exist, its five counters rise and the readings become the previous ones |
| Exporter.PrometheusExporter.UpdateUserWorkloadPattern | metrics/prometheus.go:905-925 | the new label replaces the previous one |
| Exporter.PrometheusExporter.Forget | metrics/prometheus.go:846-867 | the series and previous values of one user go |
| Exporter.PrometheusExporter.CleanupUserMetrics | metrics/prometheus.go:820-875 | exactly the tracked users that are not active are forgotten |
| ExporterLaws.RiseIsLastIff | metrics/prometheus.go:770-795 | rises add up to the last reading exactly if no reading fell, and to more otherwise |
| ExporterLaws.CountersAreRises | metrics/prometheus.go:770-800 | in every run a counter is the sum of the rises since the user was last cleaned up |
| ExporterLaws.CounterMeansReading | metrics/prometheus.go:770-800 | so it is at least the last reading, and equal to it exactly if readings never fell |
| ExporterLaws.CountersNeverFall | metrics/prometheus.go:770-800 | no call but the user's own cleanup lets a counter fall |
| ExporterLaws.CleanupLeavesActive | metrics/prometheus.go:829-873 | after a cleanup every tracked key, counter and cleaned gauge is about an active uid |
| ExporterLaws.OnePatternPerName | metrics/prometheus.go:914-924 | at most one live pattern label per uid and username |
| ExporterLaws.LabelIff | metrics/prometheus.go:905-925 | in every run the live label of a uid and name is its last one, unless cleaned up since |
| ExporterLaws.OneLabelPerUidIff | metrics/prometheus.go:905-925 | a uid has at most one live pattern label exactly if it was labelled under at most one name, not counting names cleaned up since |
| ExporterLaws.TwoNames | metrics/prometheus.go:829-873 | a run after which one uid has two labels, which a cleanup spares |
| ExporterLaws.StaleLabelIff | metrics/prometheus.go:829-873 | a cleanup leaves a pattern label of an inactive uid exactly if the uid was labelled under a name without an update since that name's last cleanup |
| ExporterLaws.LabelOutlivesUser | state/control_cycle.go:221-226 | a run with such a label |
| ExporterLaws.GaugesIff | metrics/prometheus.go:727-867 | in every run the four other gauges are exported exactly from an update to the next cleanup |
| ExporterLaws.AveragesIff | metrics/prometheus.go:754-755 | in every run the two average gauges of a uid and name are exported exactly if they were ever updated |
| ExporterLaws.StaleGaugeIff | metrics/prometheus.go:846-867 | a cleanup leaves a gauge of an inactive user exactly if one was ever exported |
| ExporterLaws.AveragesOutliveUser | metrics/prometheus.go:846-867 | one update and one cleanup are enough |
| Text.ScanAppend | cgroup/storage.go:19 | appending to newline-terminated text never merges lines |
| Text.ScanCRLF | cgroup/storage.go:65 | a carriage return before a newline is dropped with it |
| Text.ScanJoined | cgroup/storage.go:52 | joined lines are scanned as they were; no lines become one empty line |
| Text.AtoiItoa | cgroup/storage.go:44 | a printed number is parsed as itself |
| Text.SplitJoined | config/config.go:765 | joining and splitting are inverse for parts without the separator |
| TrackingFile.ParsePrinted | cgroup/storage.go:74-84 | a written line is read as its uid and path |
| TrackingFile.CgroupManager.constructor | cgroup/storage.go:56-97 | a started manager knows what it recovered |
| TrackingFile.CgroupManager.ReadLine | cgroup/storage.go:68-84 | which lines are entries |
| TrackingFile.CgroupManager.LoadExistingCgroups | cgroup/storage.go:56-97 | the last entry of each uid whose path exists |
| TrackingFile.CgroupManager.SaveCgroupToFile | cgroup/storage.go:12-21 | appends one terminated line |
| TrackingFile.CgroupManager.RemoveCgroupFromFile | cgroup/storage.go:24-53 | rewrites the file without the user's lines and empty ones |
| TrackingFile.CgroupManager.CreateUserCgroup | cgroup/cpu.go:13-44 | directory, map entry and line; a lost line is no error |
| TrackingFile.CgroupManager.CleanupUserCgroup | cgroup/cleanup.go:12-70 | directory, map entry and lines go; a directory that cannot be removed keeps all three |
| TrackingFile.RunIsConsistent | cgroup/storage.go:12-97 | the file stays terminated and names no live directory that the map does not know |
| TrackingFile.RewriteKeeps | cgroup/storage.go:33-52 | a rewrite drops the user's lines and empty ones, and keeps all others as often and in order |
| TrackingFile.LoadsLast | cgroup/storage.go:68-89 | whatever is on file, a user is recovered exactly from the last of its lines that leads to a directory |
| TrackingFile.CallIs | cgroup/cleanup.go:12-70 | what a creation and a cleanup change, when they do, and that nothing else changes |
| TrackingFile.LinesAre | cgroup/storage.go:12-53 | in every run a user has a line exactly from a creation that saves to a cleanup that rewrites |
| TrackingFile.CleanupUndoes | cgroup/cleanup.go:12-70 | a cleanup undoes a creation |
| TrackingFile.RecoversNothingElse | cgroup/storage.go:56-97 | however creations, cleanups and rewrites fail, a restart recovers only known live cgroups, with their paths |
| TrackingFile.UnknownIff | cgroup/storage.go:86-95 | if directories appear from outside, it recovers an unknown user exactly if the user's directory is among them and its line was left behind |
| TrackingFile.StaleLine | cgroup/cleanup.go:12-70 | a run that leaves such a line |
| TrackingFile.RestartRecovers | cgroup/storage.go:12-97 | if saves work, a restart at any moment recovers exactly the known cgroups whose directory exists |
| TrackingFile.RestartRecoversAll | cgroup/storage.go:12-97 | which is the whole map unless directories vanish from outside |
| TrackingFile.LostSaveIff | cgroup/cpu.go:33-40 | a creation is recovered exactly if its save worked or an old line was left behind |
| TrackingFile.LostSave | cgroup/cpu.go:33-40 | a run in which a known cgroup is not recovered |
| TrackingFile.ReadPids | cgroup/storage.go:109-130 | the numbers among the lines, in order |
| TrackingFile.WritePids | cgroup/storage.go:133-148 | the numbers joined by newlines, and no write for an empty list |
| TrackingFile.PidsRoundTrip | cgroup/storage.go:109-148 | a written list is read back as it was |
| ConfigFile.Config.constructor | config/config.go:336 | the default has no user lists |
| ConfigFile.Config.ParseRegexList | config/config.go:759-781 | the trimmed entries that are not empty, or an error if one is not a pattern |
| ConfigFile.Config.SetConfigField | config/config.go:521-527 | only the field of the key changes, and nothing on an error |
| ConfigFile.Config.ReadLine | config/config.go:416-436 | what a line means: nothing, an error, or a key and a cleaned value |
| ConfigFile.Config.LoadFromFile | config/config.go:404-443 | all lines in order, up to the first malformed or rejected one; nothing changes for a missing or unreadable file, and the latter is an error |
| ConfigFile.Config.Owner | config/config.go:1283-1304 | which lines the editor replaces |
| ConfigFile.Config.UpdateConfigLines | config/config.go:1265-1340 | owned lines are replaced, missing ones appended, all others kept in place |
| ConfigFile.Config.SetUserList | config/config.go:1166-1221 | list and file change together, and not at all on an invalid pattern or a failed write |
| ConfigReading.LoadIs | config/config.go:412-441 | loading takes the lines before the first one it does not accept and names that one; the last setters decide the lists, and the handlers in turn everything else |
| ConfigReading.LoadsIff | config/config.go:412-441 | a file loads without a problem exactly if every line is accepted |
| ConfigReading.MeaningIff | config/config.go:415-425 | which lines say nothing and which are malformed |
| ConfigReading.ReadsSetting | config/config.go:421-428 | the key ends at the first equals sign, without blanks around it |
| ConfigReading.CommentedValueIff | config/config.go:430-436 | a quoted value with a comment behind it is read as meant exactly if no blank precedes the comment or nothing is quoted |
| ConfigReading.QuotedLine | config/config.go:415-436 | a line with tabs, quotes and a comment that is read as meant |
| ConfigReading.QuoteStays | config/config.go:430-436 | a line whose closing quote becomes part of the pattern |
| ConfigLaws.ReadBackIff | config/config.go:759-781 | a written list is read back as it was exactly if no pattern is empty or has outer blanks, a comma or `#`, and the text has no outer quotes |
| ConfigLaws.RepetitionIsLost | config/config.go:765-776 | a valid pattern with a repetition count is not |
| ConfigLaws.SaveThenLoad | config/config.go:1265-1340 | for any loadable file, loading after a save gives the new lists by `Outcome` and leaves every other setting as the old file had it |
| ConfigLaws.OutcomeIs | config/config.go:1282-1318 | the new list wins exactly if no foreign spelling comes after all owned lines; otherwise the last such line does |
| ConfigLaws.SpacedKeyWins | config/config.go:1292-1297 | a later line with a blank before the equals sign wins |
| ConfigLaws.SavingTwiceIff | config/config.go:1265-1340 | for any file saving again changes nothing exactly if no pattern holds a newline |
| ConfigLaws.SavesGrow | config/config.go:1292-1317 | with a newline in a pattern every save adds lines |
| ConfigLaws.NewlineGrows | config/config.go:1292-1317 | a pattern for which two saves differ |

## Left out

- The kernel, the file system, `/proc`, gopsutil, SQLite, HTTP, TLS, JWT, MCP, logging, limit hooks, signals and file watching: their answers are inputs of the steps.
- Regular expressions and the handlers of all configuration keys but the user lists are function parameters; blackout matching is a boolean input of a cycle.
- The policy engine, the control history, reason strings, getters and database writes would only add easy members.
- Manager shutdown and `CleanupAll`, which removes the tracking file at the end.
- Rounding of floating point numbers, and sums of 64-bit byte counts that overflow; the product of the I/O write limit and the number of users is taken modulo 2^64 as in the code.
- StateManager.Manager.ReplaceConfig: happens between steps; the code does not hold the operation lock, so it could also fall inside a cycle, between two reads of the configuration.
- StateManager.Manager.FinishOne: the processes themselves, and the RAM and I/O limits a placement applies, are not state of the model, so a release that overtakes a later placement is not visible.
- StateManager.Manager.RunControlCycle: remediation and pattern detection are modelled as machines of their own and not as stages of the cycle, as they share no state with it.
- ControlRelease.AtMostThreeGates: is about constant readings in which every limited user has an average.
- ControlRelease.LimitsAreReleased: needs the creations of busy users to succeed in addition, as every re-addition moves the gate in time.
- StateManager.Manager.RestoreLimits: the removal of RAM and I/O limits, whose failures are only logged, is not state of the model.
- ControlTiming.CheckThresholds: the other rules of the configuration check are independent of the thresholds.
- IORemediation.BoostRateIsLimited: for a fixed configuration and cleanups of at least one hour, as the control cycle uses them.
- PSIWatcher.EventsAreAttributed: assumes that the system never hands out a descriptor number that is still open in the watcher; a full event channel only drops events.
- MetricsCache.Collector.GetAllUserMetrics: the scan itself, usernames and filters are inputs; the username cache, whose eviction treats uid 0 as "none", is not modelled.
- MetricsCache.Collector.ListOf: the users are a set; the code returns them in map order.
- TrackingFile.CgroupManager.SaveCgroupToFile: a failed write writes nothing; a partly written line is not modelled, and neither is the scanner's limit of 64 kilobytes per line, which no path reaches.
- TrackingFile.RecoversNothingElse: a directory that appears from outside is looked at once, right before a restart, and is not an event of the runs.
- TrackingFile.RestartRecovers: starts from the first run of the daemon, not from a file edited by hand.
- ConfigFile.Config.LoadFromFile: environment variables, which override the file, are not applied.
- Exporter.PrometheusExporter.UpdateUserMetrics: values of gauges and the cgroup gauges are not modelled, only which series exist.
- Exporter.PrometheusExporter.UpdateUserWorkloadPattern: the exported confidence is not modelled, only which labels exist.
- The CPU weight of a user is one number: the code writes it below the base cgroup, while the sub-cgroup of a limited user lies in the shared one (`cgroup/cpu.go:142-176`, `cgroup/shared.go`); the two directories are not modelled.
