# Verified model of automationctl

automationctl runs standalone tasks from scheduler-owned timers (systemd, launchd), keeps a durable
record of every execution, and repairs what crashes leave behind. This project models the parts of
it where a wrong branch is hardest to see by reading, and proves what they keep.

**Transient executions.** `TransientRecord` holds the durable record of one execution and the locked
blocks that rewrite it. `TransientProtocol` is a step system in which any number of delivered
wrappers, stop hooks, reconciles, cancels and prunes race on that record: one locked block is one
step, everything between two blocks is another, and any process can be signalled or killed at any
point. Submission's block talks to the scheduler while it holds the lock, so it is split into taking
the lock and writing. An exception between a wrapper's starting and reporting blocks leads to the block
that records an error; an I/O error is a crash of the process that meets it.

`TransientSafety` proves what holds with no assumption about the scheduler at all. `TransientCommands`
says what each block leaves in the record, by the place of the process that runs it, and follows a
cancel and a report from the command to the end of every run; `TransientProgress` that no process gets
stuck. `TransientOutcome`,
`TransientPruning` and `TransientPresence` add one assumption, honest verdicts: when a recovery block
runs because a registration was reported absent, or inactive after a claim, or because the stop hook
runs, the wrapper that holds the claim is dead. `TransientScheduler` puts the scheduler's own objects
(a timer and a service) under the protocol and derives that assumption from probes that answer
truthfully at the moment they are asked, as long as no reconcile finds nothing registered only because
it asked too early. `TransientContinuations` is about what a run can still lead to; with it the conditions under
which a promise fails are proved exact: something bad can follow if and only if the condition holds.
`TransientCounterexamples` gives the shortest stories as reachable states. `TransientRetention` is
prune over the whole store, run by one process alone.

**Schedules.** `Schedule.Matches` is the one denotation: the wall-clock minutes a calendar schedule
means. The backwards search maximises it (`Schedule`), the systemd expression and the launchd table
both mean it (`Lowering`), and the catch-up decision is stated with it (`Catchup`). `Calendar` is the
Gregorian arithmetic below, `ScheduleText` and `Duration` are the text forms.

**Installed tasks.** `UnitFiles` says which files a task wants and how a plan reconciles the unit
directory with them. `UnitDirectory` models install, replace and remove under arbitrary scheduler
refusals; between two commands there is nothing but the files and the definition texts, which every
command reads again. `LossExamples` names two tasks that are lost that way, `UnitRepair` says what is
wrong after such losses and what mends it. `LaunchdIndex` is the
accepted-content index by which launchd activation skips reloads.

**Smaller cores.** `Tail` with `Utf8` (the chunked backwards read of the last lines), `Waiting` (the
polling loop and the single timed wait), `Locks` (run locks and named locks), `TomlText`,
`TomlDocument`, `Definition`, `DefinitionMeaning` and `DefinitionPrinter` (printing and reading task
definitions),
`Quoting` (words on a unit line) and `Template` (placeholders). `Common`, `Text`, `TomlValue` and
`TaskSpec` hold shared types.

## Where the code and its promises differ

- "Collected implies terminal" does not hold without a condition. Submission writes its first record
  without the lock, and its block later overwrites the status but not the cleanup field
  (src/automationctl/transient.py:190-193): a reconcile that marks the execution collected in between
  leaves `cleanup = collected` with `status = scheduled`. The exact condition is
  `TransientOutcome.CollectedMeansTerminal`.
- "A terminal outcome is final" holds from the moment submission has answered or has died
  (`TransientOutcome.FinalExactlyOnceOver`); before that its block can overwrite the status.
- "Prune removes only executions whose registrations this prune itself found absent" holds when prune
  runs alone (`TransientRetention.PruneDeletesExactly`). With other processes it can remove an
  execution that it saw present, in two cases and no other (`TransientPresence.RemovalOfPresent`):
  another reconcile finds both registrations absent after prune's own block, before prune's later,
  unlocked read of the candidates (src/automationctl/transient.py:427-455); or prune's own block finds
  a record that is collected but not terminal, and leaves that mark where it is
  (src/automationctl/transient.py:414). In the
  second case nobody needs to have collected anything since the prune began, and the execution removed
  can be one that has just succeeded (`TransientCounterexamples.RemovedAfterSuccess`).
- "A pruned execution never runs again" fails exactly when the record prune read was neither claimed
  nor cancelled and submission had yet to answer (`TransientPruning.PrunedNeverRunsAgain`): that answer
  makes the execution claimable again, and a wrapper can enter the workload after prune has removed the
  directory. An execution whose submitter died before it could answer is safe to prune. The removal
  itself does not stop a wrapper that has read the snapshot: it makes the directory again when it
  records its run, and enters the workload (`TransientPruning.EntryAfterRemoval`).
- "The record has the outcome of its run" holds for every task without notification references, which
  is all that `submit --transient` makes. With references, an exception while the outcome is being
  announced replaces it by an error (src/automationctl/wrapper.py:316), and that is the only way in
  which the two can disagree (`TransientOutcome.OutcomeIsTheRuns`,
  `TransientOutcome.AgreesExactlyUnannounced`).
- Probes that tell the truth when they are asked are not enough for a sound recovery. A reconcile that
  finds nothing registered because submission has not registered yet carries that answer to its
  settling block, which may run when a wrapper has already claimed. That can happen exactly if the
  record is there and not cancelled when the answer is given
  (`TransientScheduler.EarlyAnswerMisleads`).
- The catch-up files are meant to exist exactly while an enabled persistent calendar task is installed.
  Installed definitions are read again by every command, and what cannot be read is dropped
  (src/automationctl/config.py:43-57). A definition with U+007F in it is written but cannot be read, so
  the next command on another task deletes the catch-up files while the task's own timer stays
  (`UnitDirectory.UnreadableTaskLosesCatchup`). A raw schedule with a value the printer does not know,
  such as a fraction, fails after the unit files are in place and leaves them without a definition
  (src/automationctl/cli.py:193-194). Installing is safe exactly for all other tasks
  (`UnitDirectory.SafeExactlyForSurvivors`). Whatever was installed, only the files of such tasks and
  the catch-up files can be wrong, and removing those tasks puts everything right
  (`UnitRepair.LostNamesCanBeRemoved`).
- The dry-run listing also names executions of the other backend, which prune never removes
  (`TransientRetention.DryRunForetells`).
- Resuming a launchd job loads whatever plist is on disk and records nothing, so it can leave the
  index describing content that is not loaded: exactly when that plist is not the accepted one
  (`LaunchdIndex.ResumeAgreesWhenAccepted`).
- A timeout of zero ends a single timed wait at once and is no deadline at all for the polling loop
  (src/automationctl/wrapper.py:567-569).
- A word with a single quote that is not double-quoted, a lone semicolon and a line feed do not survive
  a unit line (`Quoting.LineRoundTrip`); U+007F does not survive a task definition
  (`Definition.DefinitionRoundTrip`).

## Model

| member | source | states |
|---|---|---|
| `TransientRecord.Ratchet` | src/automationctl/transient.py:190-230 | no locked block withdraws a claim or a cancellation request, or forgets the scheduler's answer; only the claiming block claims, and only an unclaimed, unfinished, uncancelled record |
| `TransientRecord.OthersKeepOutcome` | src/automationctl/transient.py:333-419 | blocks of anyone but submission and the claim's owner keep a terminal status, exit code and completion time, and mark only terminal executions collected |
| `TransientRecord.RecordFile.RecoverOutcome` | src/automationctl/transient.py:333-341 | a terminal record stays; otherwise the latest run's terminal outcome, or cancelled or abandoned |
| `TransientRecord.RecordFile.SettleRegistration` | src/automationctl/transient.py:408-415 | both registrations absent: recover and collect; otherwise cleanup is pending for a cancelled or terminal record, and nothing changes for any other |
| `TransientProtocol.ProgramIsEntitled` | src/automationctl/transient.py:206-256 | the program counters allow recording, entering and finalising a run only to the claimant, after the deadline, and once |
| `TransientProtocol.RunKeepsInv` | src/automationctl/transient.py:138-455 | the invariant over every reachable state: at most one run and one entry, the claim shows in every copy of the record, the owner's place agrees with the run history, every pending removal is justified |
| `TransientSafety.AtMostOnce` | src/automationctl/transient.py:206-238 | over every interleaving, redelivery and crash the workload of an execution is entered at most once, with no scheduler assumption |
| `TransientSafety.EntryIsClaimed` | src/automationctl/wrapper.py:500-540 | whoever enters the workload holds the claim, does so when no deadline is left in the future, has recorded the only run, and had passed the look at the cancellation |
| `TransientSafety.CancelledStaysCancelled` | src/automationctl/transient.py:211-230 | one step of the whole system keeps "cancelled in time" |
| `TransientSafety.CancelSafety` | src/automationctl/transient.py:211-230 | once a cancellation is durable before the claimant's starting block, no continuation records a run or enters the workload, whatever submission later writes |
| `TransientSafety.ResultsAreBacked` | src/automationctl/transient.py:240-256 | success, failure, timeout and skip are never reported without the run that ended so |
| `TransientSafety.ResultsAreEarned` | src/automationctl/wrapper.py:562-604 | whatever probes answer, a record says success only if the workload was entered and ended with code zero, failure only if it was entered and did not, timeout only if it was entered |
| `TransientCommands.CancelStops` | src/automationctl/transient.py:386-392 | once a cancel makes its request before anybody got past the starting block, no continuation records a run or enters the workload |
| `TransientCommands.CancelAsksFirst` | src/automationctl/transient.py:386-405 | no cancel probes, stops or settles anything before it has made its request durable |
| `TransientCommands.RequestIsDurable` | src/automationctl/transient.py:390-392 | the request is in the record after that block, and nothing else changed |
| `TransientCommands.RecoveryGoesByTheRequest` | src/automationctl/transient.py:333-341 | the stop hook and the recovery after a claim leave the outcome of the run that ended, else cancelled exactly if the record holds a request, else abandoned |
| `TransientCommands.SettlingGoesByTheCommand` | src/automationctl/transient.py:409-413 | a reconcile that saw both absent leaves the outcome of the run that ended, else cancelled exactly if it was asked to cancel, else abandoned, and marks the execution collected |
| `TransientCommands.SettlingOfPresent` | src/automationctl/transient.py:414-415 | one that saw a registration leaves everything but the cleanup field, and that too unless it cancels or the record is terminal |
| `TransientCommands.BothWereAbsent` | src/automationctl/transient.py:407-410 | nothing is settled as absent without having asked for the service after the timer was absent |
| `TransientCommands.CancelledForGood` | src/automationctl/transient.py:403-413 | a cancel that settles an unfinished execution without a run leaves it cancelled in every continuation, once submission is over |
| `TransientCommands.SubmissionAnswers` | src/automationctl/transient.py:190-193 | accepted and scheduled, or unconfirmed and unknown, and nothing else changes |
| `TransientCommands.DeliveredClaims` | src/automationctl/transient.py:211-214 | a delivered wrapper takes the claim if and only if the record is there, unclaimed, unfinished and uncancelled |
| `TransientCommands.ReadyStarts` | src/automationctl/transient.py:220-228 | the starting block runs the workload unless a signal or a request came first, and cancels otherwise |
| `TransientCommands.WrapperReports` | src/automationctl/transient.py:239-254 | a finalised run is recorded as it ended, an exception as an error with exit code 1 |
| `TransientCommands.ReportStays` | src/automationctl/transient.py:239-245 | what is reported after submission is over stays in every continuation |
| `TransientCommands.PruneFollowsAnOutcome` | src/automationctl/transient.py:443-446 | prune does nothing about an execution of which it did not read a terminal record |
| `TransientProgress.ProcessesEnd` | src/automationctl/transient.py:206-455 | over every interleaving a process is over after at most thirteen steps of its own |
| `TransientProgress.NobodyIsStuck` | src/automationctl/transient.py:206-455 | in every reachable state a process that is not over has a next step, unless submission holds the lock or it waits for its deadline |
| `TransientSafety.PruneIsJustified` | src/automationctl/transient.py:422-455 | prune removes only what it read as terminal, collected and finished at least the given age ago, and only if this prune or another reconcile found both registrations absent; `TransientPresence` says exactly when it can be another |
| `TransientOutcome.HonestRunKeepsInv` | src/automationctl/transient.py:394-419 | under honest verdicts a terminal record has no live claimant and agrees with a finalised run |
| `TransientOutcome.OutcomeIsTheRuns` | src/automationctl/transient.py:238-256 | whenever the record is terminal and the single run was finalised, status and exit code are that run's, even if the wrapper died before recording them, or the record is an error raised while an announced outcome was being announced |
| `TransientOutcome.AgreesExactlyUnannounced` | src/automationctl/wrapper.py:297-318 | over every continuation of an execution's first state, a terminal record agrees with its finalised run if and only if the task announces no outcome |
| `TransientOutcome.TerminalIsFinal` | src/automationctl/transient.py:333-341 | once submission has answered or died, a terminal status, exit code and completion time never change again |
| `TransientOutcome.FinalExactlyOnceOver` | src/automationctl/transient.py:182-193 | over every continuation, a terminal outcome is final if and only if submission has answered or died |
| `TransientOutcome.CollectedMeansTerminal` | src/automationctl/transient.py:403-415 | over a whole run, collected implies terminal in every state if and only if submission never answers for an execution a reconcile has marked collected |
| `TransientPruning.RunKeepsSound` | src/automationctl/transient.py:138-163 | in every reachable state a terminal record has a completion time, and a record submission has not answered for has its snapshot |
| `TransientPruning.NoEntryWithoutSnapshot` | src/automationctl/transient.py:230-238 | without the snapshot, and with no unsignalled wrapper past reading it that has still to start the workload, the workload is never entered, whatever later probes answer |
| `TransientPruning.EntryAfterRemoval` | src/automationctl/transient.py:230-238 | after any removal the workload can still be entered if and only if some wrapper had read the snapshot, had not started the workload, and is past the look at the cancellation or not signalled |
| `TransientPruning.BarredForGood` | src/automationctl/transient.py:206-215 | once no live wrapper holds the claim and every copy of the record is claimed, cancelled, or terminal after submission's end, the workload is never entered again |
| `TransientPruning.PrunedNeverRunsAgain` | src/automationctl/transient.py:440-455 | once prune has selected an execution, an entry after its removal is possible if and only if the record it read was neither claimed nor cancelled and submission had yet to answer |
| `TransientPresence.RemovalOfPresent` | src/automationctl/transient.py:440-455 | over every run, a prune that saw a registration present decides on removal only if another process found both absent since, or its own block found the record collected but not terminal |
| `TransientPresence.PresentRemovedUnhelped` | src/automationctl/transient.py:409-415 | with nobody finding both absent afterwards, that decision is possible if and only if its own block found the record collected but not terminal |
| `TransientPresence.PresentRemovedWithHelp` | src/automationctl/transient.py:440-455 | with another reconcile that finds both absent, the decision is possible after every such block |
| `TransientCounterexamples.CollectedButScheduled` | src/automationctl/transient.py:149-193 | a reachable state, after submission's block, that is collected and scheduled |
| `TransientCounterexamples.RemovedThoughSeenPresent` | src/automationctl/transient.py:440-455 | a reachable state in which prune is about to remove an execution its own probes found present, after another reconcile collected it |
| `TransientCounterexamples.RemovedAfterSuccess` | src/automationctl/transient.py:409-455 | a reachable state in which prune is about to remove a run that succeeded, found present, with no collection since prune's own block |
| `TransientCounterexamples.FalseVerdictUndone` | src/automationctl/transient.py:394-402 | one dishonest verdict from a reachable state leads to a terminal status that is overwritten two steps later |
| `TransientCounterexamples.EnteredAfterRemoval` | src/automationctl/transient.py:149-193 | a run with honest verdicts in which the workload is entered after prune removed the directory, because prune read the record before submission's answer |
| `TransientScheduler.TruthMakesHonest` | src/automationctl/transient.py:386-415 | above a scheduler whose objects are modelled and whose answers are true when given, every verdict is honest, as long as no reconcile finds both registrations absent before submission registers and while the record is there and not cancelled |
| `TransientScheduler.EarlyAnswerMisleads` | src/automationctl/transient.py:407-415 | after such an early answer, some continuation with true answers only has a dishonest verdict if and only if the record is there and not cancelled |
| `TransientScheduler.EarlyAnswerOccurs` | src/automationctl/transient.py:149-182 | such an early answer is possible |
| `TransientRetention.PruneDeletesExactly` | src/automationctl/transient.py:440-455 | prune alone deletes exactly the executions of its backend that are terminal, finished at least the given seconds ago and found absent |
| `TransientRetention.LongerLimitsKeepMore` | src/automationctl/transient.py:424-436 | a longer age limit never adds a candidate, and a candidate drops out exactly when the limit exceeds its age |
| `TransientRetention.DryRunForetells` | src/automationctl/transient.py:422-437 | when every probe answers absent, a dry-run candidate is deleted if and only if it belongs to the selected backend |
| `TransientRetention.Store.PruneCandidates` | src/automationctl/transient.py:422-437 | the listing is exactly the terminal, collected executions finished at least the given seconds ago, and a negative age is an error |
| `TransientRetention.Store.ReconcileTerminal` | src/automationctl/transient.py:440-450 | the first loop revises exactly the terminal executions of the backend; eligible are those whose reconcile was not refused |
| `TransientRetention.Store.Prune` | src/automationctl/transient.py:440-455 | exactly the terminal executions of the backend, old enough and found absent, are gone and counted; the others keep everything but the cleanup field of the terminal ones of the backend |
| `Schedule.PreviousOccurrence` | src/automationctl/schedule.py:290-340 | the search returns the greatest matching minute not after now, never nothing for a calendar schedule, within 8 weekly or 3 monthly probes |
| `Schedule.LatestIsGreatest` | src/automationctl/schedule.py:290-340 | the closed form of the latest occurrence is the greatest matching minute, for days 29 to 31 and leap years too |
| `Schedule.GreatestIsUnique` | src/automationctl/schedule.py:290-340 | there is one greatest matching minute |
| `Schedule.NotAfterByFields` | src/automationctl/schedule.py:300-340 | moments are compared field by field, down to the microsecond |
| `Calendar.OrdinalOrders` | src/automationctl/schedule.py:300-340 | the day count orders dates as the calendar does |
| `Calendar.PreviousDayIsOneLess` | src/automationctl/schedule.py:300-340 | stepping one day back lowers the day count by one across months, years and leap days |
| `Calendar.SundayBased` | src/automationctl/schedule.py:285-287 | the weekday index counts from Sunday |
| `Calendar.DaysBeforeYearIs` | src/automationctl/schedule.py:300-340 | the day count is the closed form of the Gregorian calendar, with its leap years |
| `Calendar.MonthLengths` | src/automationctl/schedule.py:320-340 | the twelve lengths, with the leap day |
| `Lowering.SystemdMeansTheSchedule` | src/automationctl/schedule.py:203-237 | by section "CALENDAR EVENTS" of systemd.time(7), the expression elapses exactly at the minutes the schedule means |
| `Lowering.LaunchdMeansTheSchedule` | src/automationctl/schedule.py:240-265 | by launchd.plist(5), the table fires exactly at the minutes the schedule means |
| `Lowering.IntervalsAgree` | src/automationctl/schedule.py:203-265 | the interval as written for systemd denotes the seconds given to launchd |
| `Lowering.SearchFindsLastFiring` | src/automationctl/schedule.py:203-340 | the search returns the last moment, not after now, at which either scheduler would have fired |
| `ScheduleText.ParsesWhatItSpells` | src/automationctl/schedule.py:94-183 | a text parses to a schedule if and only if its words mean that schedule, by a relation between words and meanings |
| `ScheduleText.ParseIsProduced` | src/automationctl/schedule.py:121-183 | every accepted text gives a valid schedule that carries its own canonical text |
| `ScheduleText.CanonicalParses` | src/automationctl/schedule.py:121-183 | the canonical text of every schedule a text can give parses to that schedule |
| `ScheduleText.CanonicalRoundTrip` | src/automationctl/schedule.py:104-183 | parsing the canonical text again gives the same schedule |
| `Duration.ParsesWhatAddsUp` | src/automationctl/schedule.py:50-55 | a text is a duration of n seconds if and only if it is one or more groups of digits and a unit that add up to n |
| `Duration.UnitsNest` | src/automationctl/schedule.py:47 | a day is 24 hours, an hour 60 minutes, a minute 60 seconds |
| `Duration.IgnoresSpaceAndCase` | src/automationctl/schedule.py:52 | surrounding space and letter case do not change a duration |
| `Duration.FormatDuration` | src/automationctl/schedule.py:58-71 | the list built step by step is the compact human form |
| `Duration.DurationRoundTrip` | src/automationctl/schedule.py:50-71 | parsing the human form of s seconds gives s below one hour and s rounded down to whole minutes from there on |
| `Duration.SecondsRoundTrip` | src/automationctl/config.py:131-134 | a duration printed as whole seconds parses to the same number |
| `Catchup.DueMeansMissed` | src/automationctl/catchup.py:23-77 | a qualifying task is due if and only if some scheduled minute up to now was not covered by a counting run |
| `Catchup.NeverDue` | src/automationctl/catchup.py:41-46 | disabled, unscheduled, raw and non-persistent tasks are never due |
| `Catchup.IntervalDue` | src/automationctl/catchup.py:49-62 | an interval task is due if and only if it is enabled and expressly persistent and no run covers anything, or the last one started longer ago than the interval |
| `Catchup.CalendarDue` | src/automationctl/catchup.py:65-77 | an enabled persistent calendar task names its latest occurrence, and is due if and only if no run covers it |
| `Catchup.PlanDecides` | src/automationctl/catchup.py:90-102 | the plan decides for every enabled task, in order, and for no other |
| `TaskSpec.PersistentMeans` | src/automationctl/spec.py:295-298 | a task is persistent if it says so, or says nothing and its schedule is not an interval |
| `Catchup.TruncationIsHarmless` | src/automationctl/records.py:49-54 | recording the start in whole seconds never changes the decision of a calendar task |
| `Catchup.RunSettlesTask` | src/automationctl/catchup.py:38-77 | after a counting run started at or after now, the task is not due at now |
| `Catchup.CatchUpSettles` | src/automationctl/catchup.py:90-102 | deciding again at the same instant, after every due task ran, finds nothing due |
| `UnitDirectory.SessionsStayConsistent` | src/automationctl/cli.py:128-198 | after any sequence of removals, and of installs and replacements of tasks that survive their own text, with any refusals, the managed files are exactly the union of the files of the tasks read back from the definitions, plus the catch-up files iff some enabled persistent calendar task is among them |
| `UnitDirectory.SessionsLeaveTheFiles` | src/automationctl/backends/systemd.py:45-101 | after every such session each task that is read back has its service with its text, and a timer with its text exactly if it has a schedule; or its plist |
| `UnitDirectory.ConsistentMeansCatchup` | src/automationctl/cli.py:128-135 | on every consistent disk the catch-up files are there, with their texts, if and only if an enabled, not expressly non-persistent task with a calendar schedule is installed |
| `UnitDirectory.InstalledIsThere` | src/automationctl/cli.py:184-198 | an install that takes effect leaves the task to be read back, with its files |
| `UnitDirectory.RemovedIsGone` | src/automationctl/cli.py:335-343 | a removal that is not refused leaves no file and no definition of the name |
| `UnitDirectory.DiscoveredIsInstallable` | src/automationctl/config.py:45-54 | every task read back is valid, bears the name of its file and has its input read in |
| `UnitDirectory.InstallKeepsConsistent` | src/automationctl/cli.py:138-198 | one install or replacement keeps that invariant if and only if it is refused as a whole, or the task survives its own text, or it cannot be printed and replaces a task that wants the same files |
| `UnitDirectory.SafeExactlyForSurvivors` | src/automationctl/cli.py:184-194 | installing a task keeps the invariant on every consistent disk, whatever is refused, if and only if the task can be printed and contains no U+007F |
| `UnitDirectory.DiscoveredAfterInstall` | src/automationctl/config.py:37-57 | what the next command reads back: the task as installed, nothing for it, or what was there before |
| `UnitDirectory.UnreadableTaskLosesCatchup` | src/automationctl/cli.py:184-198 | a qualifying task that is written but not read back: its install creates the catch-up files, and the next install of another task deletes them while its own files and definition stay |
| `LossExamples.BothBreakTheInvariant` | src/automationctl/config.py:86-103 | two valid tasks, one with U+007F in its description and one with a fraction in its raw schedule, that leave the invariant broken on an empty disk, whatever is refused |
| `UnitDirectory.RemoveKeepsConsistent` | src/automationctl/cli.py:322-345 | one removal keeps the invariant, whatever is refused and whether or not the definition can be read |
| `UnitRepair.InstallPutsRight` | src/automationctl/cli.py:184-194 | on any disk, exactly when an install that takes effect leaves the files of its own name right, and exactly when it leaves the catch-up files right |
| `UnitRepair.RemovalPutsRight` | src/automationctl/cli.py:335-343 | on any disk, a removal that is not refused puts right the files of its name and the catch-up files |
| `UnitRepair.OthersStay` | src/automationctl/cli.py:138-198 | on any disk, a command leaves the files of every other name right if and only if they were |
| `UnitRepair.OnlyLostNamesGoWrong` | src/automationctl/cli.py:128-198 | after any session of installs and removals, the files of a name are right if they were and no command installed a task under it that does not survive its own text |
| `UnitRepair.LostNamesCanBeRemoved` | src/automationctl/cli.py:322-345 | whatever a session installs, removing every name it lost, in any order, brings the whole invariant back |
| `UnitDirectory.CommandsAreIsolated` | src/automationctl/cli.py:138-198 | no command on one task changes another task's files or definition |
| `UnitFiles.FilesOfNamesDisjoint` | src/automationctl/backends/systemd.py:21-55 | two names never share a file, on either backend |
| `UnitFiles.SystemdFiles` | src/automationctl/backends/systemd.py:63-101 | always the service with its text, the timer with its text exactly for a task with a schedule, nothing else |
| `UnitFiles.LaunchdFiles` | src/automationctl/backends/launchd.py:76 | exactly the plist |
| `UnitFiles.CatchupIsWanted` | src/automationctl/catchup.py:80-87 | all catch-up files are wanted exactly while a task that catches up is installed, by the fields of the tasks |
| `UnitDirectory.InstallIsIdempotent` | src/automationctl/backends/__init__.py:102-119 | after an obeyed install, planning the same task again finds everything unchanged |
| `UnitFiles.PlanReconciles` | src/automationctl/backends/__init__.py:121-147 | deleting the surplus and carrying out a plan's writes leaves exactly the desired files in scope and all others untouched |
| `UnitFiles.CommandMatches` | src/automationctl/cli.py:188-193 | a command on one name leaves the files right for the tasks that follow if and only if it wanted that name's files and the catch-up files as those tasks do |
| `UnitFiles.DiscoverAll` | src/automationctl/config.py:37-57 | reading the definitions one after the other gives exactly those that can be read |
| `UnitDirectory.Installation.Plan` | src/automationctl/backends/__init__.py:102-119 | the plan lists exactly one change for every name in scope that exists or is desired |
| `UnitDirectory.Installation.Apply` | src/automationctl/backends/__init__.py:121-147 | either the directory is reconciled, or a refused deactivation left it unchanged |
| `UnitDirectory.Installation.Reconcile` | src/automationctl/backends/__init__.py:102-147 | planning and applying for one name: reconciled within its scope, or unchanged after a refused deactivation |
| `UnitDirectory.Installation.WriteInstalled` | src/automationctl/cli.py:194 | the definition text is stored, or nothing is when a value cannot be printed |
| `UnitDirectory.Installation.Install` | src/automationctl/cli.py:138-198 | the transaction on files and definition texts; it succeeds if and only if it takes effect, the text can be printed and every command is obeyed |
| `UnitDirectory.Installation.RemoveTask` | src/automationctl/cli.py:322-345 | the removal transaction on what is read back from the remaining definitions; it succeeds if and only if the name is safe and every command is obeyed |
| `LaunchdIndex.ActivateAgrees` | src/automationctl/backends/launchd.py:112-136 | activating what is on disk keeps the index truthful wherever the commands stop |
| `LaunchdIndex.ActivateLoadsTheWanted` | src/automationctl/backends/launchd.py:112-136 | an obeyed activation leaves exactly the wanted content loaded, even if it skipped the reload |
| `LaunchdIndex.ActivateSucceeds` | src/automationctl/backends/launchd.py:112-136 | activation succeeds if and only if the commands it needs are obeyed; a failure records nothing, and no other job is touched |
| `LaunchdIndex.WrittenThenActivated` | src/automationctl/backends/launchd.py:112-136 | whatever was loaded before, a plist that is written and activated with every command obeyed is what is loaded and recorded |
| `LaunchdIndex.DisagreementHidesOldContent` | src/automationctl/backends/launchd.py:112-136 | without the agreement a skipped reload can leave old content running |
| `LaunchdIndex.DeactivateAgrees` | src/automationctl/backends/launchd.py:152-170 | deactivating any list of jobs keeps the index truthful, also when it stops at a refusal |
| `LaunchdIndex.DeactivateUnloads` | src/automationctl/backends/launchd.py:152-170 | deactivation succeeds if and only if no job refuses; then none of its jobs is loaded or recorded, else none before the first refusal; all other jobs keep content and record |
| `LaunchdIndex.DeactivatedStaysOut` | src/automationctl/backends/launchd.py:152-170 | a job reported as deactivated is not loaded after any further session that does not activate or resume it |
| `LaunchdIndex.PauseUnloads` | src/automationctl/backends/launchd.py:175-184 | a pause that succeeds leaves the job unloaded, and the exact condition for it |
| `LaunchdIndex.ResumeLoads` | src/automationctl/backends/launchd.py:186-205 | a resume that succeeds leaves the job loaded, with the plist on disk unless it was loaded before, and the exact condition for it |
| `LaunchdIndex.ResumeAgreesWhenAccepted` | src/automationctl/backends/launchd.py:186-205 | resume keeps the index truthful under all truthful answers if and only if the plist on disk is the accepted one, or there is no plist or no record of it |
| `LaunchdIndex.SessionsAgree` | src/automationctl/backends/launchd.py:104-205 | over any sequence of operations with any command refused, a loaded job with a recorded hash has content of that hash |
| `LaunchdIndex.LaunchdBackend.ActivateLabel` | src/automationctl/backends/launchd.py:112-136 | the activation in place, command by command |
| `LaunchdIndex.LaunchdBackend.DeactivateAll` | src/automationctl/backends/launchd.py:152-170 | the loop that stops at the first refusal |
| `LaunchdIndex.LaunchdBackend.PauseLabel` | src/automationctl/backends/launchd.py:175-184 | pause unloads a loaded job and leaves the index alone |
| `LaunchdIndex.LaunchdBackend.ResumeLabel` | src/automationctl/backends/launchd.py:186-205 | resume loads the plist on disk unless the job is loaded |
| `Tail.TailLines` | src/automationctl/records.py:187-218 | for every byte sequence, count, limit and chunk size: the last lines of splitting the whole file, or of its last max_bytes bytes |
| `Tail.SuffixSuffices` | src/automationctl/records.py:200-216 | a suffix with more than n line feeds has the last n lines of the whole, wherever it cuts a line, a character or a CR LF pair |
| `Utf8.DecodeSplitsAtLineFeed` | src/automationctl/records.py:215-218 | decoding with replacement splits at every line feed |
| `Utf8.DecodeUndoesEncode` | src/automationctl/records.py:215-218 | text written as UTF-8 is read as it was written |
| `Utf8.FirstIsExact` | src/automationctl/records.py:215-218 | a code point is read if and only if its whole encoding is there; otherwise one replacement stands for the longest beginning of an encoding, or for one byte |
| `Utf8.LinesAreCut` | src/automationctl/records.py:215-218 | the lines are the text cut at the ten line boundaries and CR LF, with nothing lost |
| `Utf8.CutIsUnique` | src/automationctl/records.py:215-218 | there is one such cut |
| `Waiting.Poll` | src/automationctl/wrapper.py:569-587 | the polling loop ends as one timed wait does for a workload clear of the deadline, leaves by the deadline, notices a cancel within one poll, and treats a timeout of zero as none |
| `Waiting.Execute` | src/automationctl/wrapper.py:563-600 | both ways of waiting record the same status and exit code; success means the workload ended by itself with code zero, and a killed workload without a known code gets its signal's |
| `Locks.MutualExclusion` | src/automationctl/wrapper.py:163-171 | over all interleavings and crashes, two runs inside at once are not of the same task (installed, or of the same execution) and do not name the same lock, which installed and transient runs share |
| `Locks.TraceKeepsInv` | src/automationctl/locks.py:46-60 | the held locks are exactly what the live runs hold |
| `Locks.LockNamesMean` | src/automationctl/locks.py:20-43 | the lock names that are accepted, character by character |
| `Locks.RunAndNamedLocksNeverCollide` | src/automationctl/locks.py:24-43 | no lock name a task can declare is the path of a run lock |
| `Locks.PathsAreInjective` | src/automationctl/locks.py:32-43 | different tasks and different names have different lock files |
| `Locks.RunPathsAreInjective` | src/automationctl/locks.py:32-43 | runs of different executions, and installed and transient runs, never share a run lock |
| `Locks.NobodyBlocks` | src/automationctl/locks.py:46-60 | over every interleaving a run takes at most three steps of its own between its start and its end, so it never waits for a lock |
| `Locks.LiveRunsCanStep` | src/automationctl/locks.py:46-60 | and until it is over it has a next step, whatever others hold |
| `Locks.SkippedMeansContended` | src/automationctl/wrapper.py:406-433 | a run ends as skipped if and only if it is disabled or the lock it tried is held by another live run, and as failed if and only if its lock name is invalid; then it keeps no lock |
| `TomlText.ValueReads` | src/automationctl/config.py:86-103 | a printed value is read back from its text, or not at all if it contains U+007F |
| `TomlText.StringReads` | src/automationctl/config.py:80-83 | a printed string is read back if and only if it has no U+007F |
| `TomlDocument.DocumentReads` | src/automationctl/config.py:148-160 | key lines and notification tables are read back as the same table, if and only if no string contains U+007F |
| `Definition.DefinitionRoundTrip` | src/automationctl/config.py:106-160 | a valid task with materialised standard input can be printed exactly when its raw schedule holds no unsupported value, and is then read back exactly when no string in it contains U+007F |
| `Definition.ParsedIsValid` | src/automationctl/spec.py:202-279 | every accepted definition has the supported version and known fields only, and describes a valid task |
| `DefinitionMeaning.ParsesWhatItDescribes` | src/automationctl/spec.py:202-279 | a table is accepted as the definition of a task if and only if it describes that task, key by key, with its defaults and the rules that span keys |
| `Definition.MaterializedMeans` | src/automationctl/config.py:67-77 | materialising fails only without the content and changes nothing but the standard input |
| `Definition.AddedMeans` | src/automationctl/cli.py:264-318 | what the command line's options come to, option by option |
| `Definition.AddedIsValid` | src/automationctl/cli.py:264-318 | every task made from the command line's options is valid |
| `Definition.InstalledCopyIsTheTask` | src/automationctl/config.py:67-77 | any accepted definition, once materialised, has no installed copy because of an unsupported value, or is read back from it as the same task, or is rejected for U+007F |
| `Definition.TransportsBack` | src/automationctl/spec.py:202-227 | valid notification transports survive printing and the notification rules |
| `DefinitionPrinter.DumpTask` | src/automationctl/config.py:106-160 | the lines built step by step are the definition text, with an error on the first value that cannot be printed |
| `Quoting.EscapeIsPerChar` | src/automationctl/backends/systemd.py:29-32 | the chained replacements are one map over the characters |
| `Quoting.LineRoundTrip` | src/automationctl/backends/systemd.py:29-37 | by section "Quoting" of systemd.syntax(7), a line of quoted words gives back the words if and only if each has no line feed, no single quote outside double quotes, and is no lone semicolon |
| `Quoting.WordReads` | src/automationctl/backends/systemd.py:64 | a readable word is read back in front of whatever follows it |
| `Template.DoubledBracesAreLiteral` | src/automationctl/template.py:26-39 | doubling every brace of any string and substituting strictly returns the string |
| `Template.PlaceholderInContext` | src/automationctl/template.py:26-39 | a value put after protected text stays as it is, whatever braces it contains or joins up with |
| `Template.ValuesOnlyFill` | src/automationctl/template.py:26-39 | what is kept and where values go depends on the text and the known names alone: values are never rescanned |
| `Template.FailsOnUnknown` | src/automationctl/template.py:33-36 | strict substitution fails exactly on a placeholder without a value, lenient never |
| `Template.LenientLeavesText` | src/automationctl/template.py:31-35 | lenient substitution leaves a text with no known placeholder unchanged |
| `Template.TokensSpellTheText` | src/automationctl/template.py:14 | cutting a text into tokens loses and invents nothing |
| `Template.FirstMeans` | src/automationctl/template.py:14 | a text starts with a placeholder exactly if it starts with an identifier in braces, with a pair exactly if it starts with two equal braces |

## Left out

- Processes, signals, pipes and process groups: a workload is an exit time and a code, a dead process is a crash step.
- Scheduler commands: each answers obeyed, refused or unknown; a refused command has no effect, except that a refused submission may have registered.
- File modes, fsync and temporary names: every durable write is one atomic store; SHA-256 is taken to be injective.
- Time zones: all moments are naive wall-clock values of one zone, as in the code up to its last conversion.
- `TransientScheduler.TruthMakesHonest`: a service stays loaded while the timer that triggers it is; the scheduler drops a timer, and then an idle service, of its own accord at any time, and a stop command is one way for that to happen. Asking whether the service is there and then whether it is inactive is one step, at the answer that decides.
- `TransientOutcome.OutcomeIsTheRuns`: an I/O error right after the outcome is written counts as a crash, not as an exception that is recorded.
- Removal of an execution's directory in the middle of another process's locked block: removal happens between blocks.
- `Schedule.PreviousOccurrence`: moments of year 1 are excluded, where the search would leave the calendar.
- `Lowering.ToSystemd`: raw schedule tables, which are passed through as they are.
- `Lowering.ToLaunchd`: raw schedule tables, which are passed through as they are.
- `ScheduleText.ParseText`: input is ASCII; other Unicode digits, spaces and letter cases are not modelled.
- `Duration.ParseDuration`: input is ASCII.
- `Catchup.TruncationIsHarmless`: interval tasks, whose elapsed time does depend on fractions of a second.
- `UnitDirectory.Installation.Plan`: names are taken in any order, the code sorts them.
- `UnitDirectory.SessionsStayConsistent`: a crash in the middle of a command, changes of the policy between commands, and sessions that install tasks that do not survive, for which the property is false and `UnitRepair` says what holds.
- `UnitDirectory.Installation.Install`: lint, and the option that prints a diff, with which an unprintable task fails before any file is changed.
- `UnitDirectory.Readable`: surrogate code points, which the file encoding refuses.
- `LaunchdIndex.SessionsAgree`: a crash in the middle of an operation, and resume with a plist that is not the accepted one.
- `Waiting.Poll`: clock readings may be late by a bounded time, but a wait itself ends exactly at its limit; the exit of a supervisor without a result is not modelled.
- `Tail.TailLines`: the file does not change while it is read.
- `TomlText.ReadValue`: only the value forms the printer emits, so no comments, other string or number forms, dates, multi-line or trailing-comma arrays, bare inline keys, or eight-digit escapes.
- `TomlDocument.ReadDocument`: only notification headers with a quoted name.
- `Quoting.ReadWords`: numeric escapes, line continuations and executable prefixes, none of which the writer produces.
- `Template.Substitute`: the expansion of a leading tilde and the built-in values.
- Unit and plist texts beyond schedules and quoting, environment building, lint and health checks: single-branch logic and I/O.
- Run records, their pruning and run identifiers in `records.py`: would only add easy members.
- Notification delivery, log display, diffs and the command-line front end.
