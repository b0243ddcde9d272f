# RotatoPilot: verified model of the controller

RotatoPilot watches a fleet of machines and asks a provider for a new IP address when a machine
looks blocked. This project models the controller's decision logic in Dafny and proves what that
logic keeps, whatever the scheduling of its goroutines, the answers of the provider, the clock and
the administrators.

## The protocol as a step system

`Rotation.dfy` gives every goroutine inside `rotate` a program counter and its locals (`Attempt`),
and every goroutine inside `checkMachineNow` the same (`Check`). One action is one database
statement, one operation on the lock map, one reading of the clock or one provider call. The
database pool has a single connection (`backend/internal/store/store.go:23`), so a statement is
atomic; nothing else is. Between any two actions the environment may let time pass, create, edit,
synchronise or delete machines, deliver heartbeats, cancel a request or crash the process. A run
(`IsRun`) is any sequence of enabled actions from an empty database. Instants are integers in
nanoseconds and stored instants are whole seconds; `Timestamps.dfy` proves that this agrees with the
strings the code stores and compares.

- `Ledger.dfy`, `DailyCap.dfy`, `Cooldown.dfy` and `Evidence.dfy` hold the four inductive invariants
  and prove that every action keeps them.
- `Safety.dfy` draws the safety rules from them, over every run.
- `Triggers.dfy` says exactly when a check starts an automatic rotation.
- `Admission.dfy` traces every automatic ChangeIP back through the cap, the cooldown and the switches.
- `Confirmation.dfy` places the attempt's own failing check inside its critical section.
- `Outcomes.dfy` says what a rotation leaves behind: where its address came from, when its cooldown
  was stored, and what a cancelled request loses.
- `Controller.dfy` is `rotate` and `checkMachineNow` in imperative form: a class whose fields are
  the lock map, the tables and the goroutines' locals. Arbitrary actions of others happen between
  any two statements (`Interfere`, `Pause`). Each method extends a run of the step system, so the
  class is tied to the theorems: `Valid` says that the fields are the last state of a run.

Four fields are history and influence nothing: `fails` (failing checks concluded per machine),
`commits` and `detached` (which rows' cooldowns have been stored), and an attempt's `failsAt...`
annotations. `FailsCountsFailingChecks`, `CommitWasUpdate` and `NeverDetached` express them through
the actions of the run alone. The class also keeps the run itself and, in `slept`, the total of its
own timers, as ghost fields. What providers, DNS services and probes answer are parameters of its methods.

## The other cores

- `Health.dfy`, `HealthMeaning.dfy`: the counters of the weighted health check and their closed form.
- `HealthRuns.dfy`: what these mean on runs of the step system, where checks may overlap.
- `Inventory.dfy`: the machine table and the transactional provider synchronisation.
- `Lexicographic.dfy`, `Calendar.dfy`, `Decimal.dfy`, `Timestamps.dfy`: instants as strings
  (sections 5.1 and 5.6 of RFC 3339), printed through the proleptic Gregorian calendar.
- `Scheduler.dfy`: the due filter and the one check per machine and tick.
- `Tasks.dfy`: the agent task queue under interleaved polls and results.
- `Dns.dfy`: the DNS fan-out with partial failure, for a request that may be cancelled at any point.
  Cancellation is permanent, so a request is given by the number of database statements it lives
  for; `Inventory.dfy` and `Tasks.dfy` treat theirs alike.
- `ProviderList.dfy`: the search for the machine list in an arbitrary JSON value.
- `Shell.dfy`: quoting and the two commands shown to the operator against the reading rules of the
  POSIX Shell Command Language (sections 2.2.1, 2.2.2, 2.2.3 and 2.3).
- `StatusMatch.dfy`: expected-status expressions of codes and ranges, padded in any way, through
  decimal and split/join inversion; numbers are read as `strconv` reads them, overflow included.

`Options.dfy` and `Sets.dfy` hold what several modules share.

## Where the code differs from its documentation or from a natural reading

- `README.md:84` calls a machine suspect after `FAILURE_THRESHOLD` *consecutive* failing checks. A
  passing check does not clear `failure_count` until `SUCCESS_RECOVERY_THRESHOLD` of them come in a
  row. `ConsecutiveRuleIff`: the documented rule holds on every history if and only if the recovery
  threshold is at most 1 or the failure threshold is 1. The default recovery threshold is 2
  (`backend/internal/config/config.go:28`), and `InterruptedIsSuspect` gives the history that
  differs. A full run of failing checks is never missed (`ConsecutiveIsSuspect`).
- The scheduler compares a `T`-separated stamp with SQLite's space-separated one. A probe is due
  exactly when every result of it lies on an earlier UTC date than the cutoff
  (`DueMeansDateTurned`). It agrees with the interval exactly when the interval has not elapsed or no
  result lies on the cutoff's date (`FilterAgreesWithInterval`); `ElapsedButNotPicked` is a
  five-minute probe that ran at midnight and is not picked at noon.
- The machine and ledger updates at the end of `rotate` use the request's context and discard
  errors. The ledger row is completed exactly when the request is still live (`CompletesIffLive`), and
  the machine row updated exactly when, besides, the machine is still there (`StoresIffLive`).
  `CancelledRotationIsLost` is a complete run in which the address was changed and neither update
  happened.
- A status expression with a dash is split at its first dash, whatever else it holds, and a bound
  that is not a numeral is read as 0. `RangeExpressionMatches` gives the exact set for every
  expression built from padded codes and ranges: one interval, whose lower bound is the first
  range's only if nothing precedes that range and no space precedes its dash, and whose upper bound
  is its own only if nothing follows it and no space follows its dash; each is 0 otherwise. So
  "200,301-302" accepts 250 and "200 -299" accepts 100, while "301-302,200", "200- 299" and
  "200 - 299" reject every status they name. `AgreesIff` says exactly which expressions mean what
  they say; "200,1-302" is one by coincidence.
- `syncOneDNS` records the outcome of a push under the request's context and discards that error. A
  row is marked exactly if the request is live at its update (`MarkedIffLive`), so at most the last
  pushed record stays unmarked: with a nil error (`PushedButUnmarked`), or before a failing one
  (`FailsAfterUnmarked`). A request cancelled before the count at rotation.go:144 reports that DNS
  is disabled although records were pushed (`DisabledThoughPushed`).
- `syncProvider` discards the error of its commit: a success it reports has been applied exactly if
  the request was live at the commit, too (`Sync`); `ReportedButUnapplied` is one that was not.
- A poll whose request is cancelled before the update of a task it has selected leaves that task to
  the agent's next polls (`PendingAfterPollIff`); `CancelledPollRedelivers` is a run of that kind.
- With an online agent, agent probes always count as successes, whatever the agent later reports;
  with none they count as failures (`OnlyControllerProbesFail`).
- A check decides on an automatic rotation by the counters it has read, whether or not its own update
  of them takes effect (`TriggerIff`).
- An AAAA record keeps the IPv4 argument when the machine row is gone; the model keeps that.

## Model

| member | source | states |
|---|---|---|
| Safety.InvPreserved | backend/internal/api/rotation.go:44-170 | every statement of every goroutine, and every action of the environment, keeps the ledger, lock, cap, cooldown and evidence invariants together |
| Safety.RunInv | backend/internal/api/rotation.go:44-170 | the invariants hold in every state of every run |
| Safety.MutualExclusion | backend/internal/api/rotation.go:45-48 | a machine is in the lock map exactly while an attempt is between acquire and release, and there is never a second one |
| Safety.LedgerTellsTheTruth | backend/internal/api/rotation.go:88-170 | a row outlives its critical section as running only after a crash or a manual cancellation once the new address was known; completed rows have a new address, neither empty nor the old one; only attempts that left have final rows |
| Safety.OneRowPerAttempt | backend/internal/api/rotation.go:88-92 | one attempt never owns two ledger rows |
| Safety.FinalIsForever | backend/internal/api/rotation.go:158-170 | on every run a completed or failed row keeps everything but its DNS status |
| Safety.OthersWrite | backend/internal/api/machines.go:80-122 | column by column, what creation, edits, heartbeats, deletion, synchronisation, DNS retries and crashes do to machines and ledger |
| Safety.DailyCapHolds | backend/internal/api/rotation.go:62-66 | for each machine and UTC day the completed automatic rotations that started on it never exceed the cap, across manual rotations, crashes, deletions and a midnight between the count and the recorded start |
| DailyCap.FinishWithinCap | backend/internal/api/rotation.go:62-66 | the count read at the gate, kept stable by the lock, bounds the day of `started_at` even when that day is later than the one counted |
| DailyCap.CapInvOwn | backend/internal/api/rotation.go:62-158 | no statement of a rotation breaks the cap invariant |
| Safety.CooldownNeverDecreases | backend/internal/api/rotation.go:136-137 | while a machine is not deleted its stored cooldown never decreases, under edits, heartbeats, synchronisations and concurrent rotations |
| Safety.GateSpacing | backend/internal/api/rotation.go:57-61 | at the gate every recorded rotation lies more than the cooldown minus one second back |
| Safety.CooldownSpacing | backend/internal/api/rotation.go:57-61 | from any machine-row update, manual or automatic, to any later automatic passing of the gate more than the cooldown minus one second goes by, unless the machine was deleted between |
| Safety.CompletedSetsCooldown | backend/internal/api/rotation.go:136-158 | a completed row's cooldown is stored in the machine row, unless the machine was missing then or deleted since |
| Outcomes.CommitWasUpdate | backend/internal/api/rotation.go:136-137 | every recorded cooldown instant is that of an update which an attempt of that row executed on that machine |
| Outcomes.NeverDetached | backend/internal/api/machines.go:114-122 | a row loses its cooldown only by a deletion of its machine |
| Outcomes.CompletedSpacing | backend/internal/api/rotation.go:57-61 | every completed row has an executed machine-row update in the run, and every later automatic passing of the gate lies more than the cooldown minus one second after the instant of that cooldown, unless the machine has been deleted since; an update misses its machine only after a deletion |
| Outcomes.CompletedIPWasListed | backend/internal/api/rotation.go:108-131 | every completed row's new address was listed for that row's machine in a list call of its own attempt |
| Outcomes.CompletesIffLive | backend/internal/api/rotation.go:157-158 | the last statement completes the row if and only if the request is live; otherwise the ledger is unchanged and the row still running |
| Outcomes.StoresIffLive | backend/internal/api/rotation.go:136-137 | on every run the machine row takes the new address, cooldown, instant, health and zeroed counters, and keeps its other columns, if and only if the request is live and the machine there; otherwise no row changes |
| Outcomes.CancelledRotationIsLost | backend/internal/api/rotation.go:132-158 | a complete run in which a manual rotation changed the address, reported success, and left a running row, the old address and no cooldown |
| Safety.FailsCountsFailingChecks | backend/internal/api/probes.go:200-218 | the history count equals the failing checks concluded by the actions of the run |
| Safety.FailureCountIsEvidence | backend/internal/api/probes.go:200-218 | however concurrent checks lose each other's updates, the stored failure count never exceeds the failing checks concluded |
| Safety.EvidenceBeforeChangeIP | backend/internal/api/rotation.go:67-96 | no automatic ChangeIP before max(1, threshold) failing checks of the machine, plus one when confirmation is required |
| Confirmation.ConfirmedInsideTheLock | backend/internal/api/rotation.go:67-72 | with confirmation required, every automatic ChangeIP comes after a failing check of the machine that its own attempt ran, started and concluded between its taking the lock and the call |
| Evidence.EvidenceInvProbe | backend/internal/api/probes.go:200-225 | a read-then-write check keeps the evidence invariant, and a trigger fires only on enough failing checks |
| Evidence.EvidenceInvOwn | backend/internal/api/rotation.go:67-97 | a rotation's statements keep it, and the confirmation adds one failing check |
| Cooldown.CoolInvOwn | backend/internal/api/rotation.go:57-158 | a rotation's statements keep stored cooldowns at or above every recorded one and at most one cooldown ahead of the clock |
| Ledger.LockInvOwn | backend/internal/api/rotation.go:45-48 | a rotation's statements keep the lock map and the critical sections in one-to-one correspondence |
| Ledger.RowInvOwn | backend/internal/api/rotation.go:88-170 | a rotation's statements keep every row's columns and status in step with the attempt that inserted it |
| Ledger.ChangedIPIsNew | backend/internal/api/rotation.go:113-118 | an address accepted by the polling loop is not the old one |
| Controller.Controller.Rotate | backend/internal/api/rotation.go:44-164 | unless the process crashes it returns with the lock left, the recorded outcome, and its row failed on failure and completed on success under a live request; all interference included it extends a run |
| Controller.Controller.LockLeft | backend/internal/api/rotation.go:48-48 | no lock names an attempt that has returned or died |
| Controller.Controller.LoadOrStore | backend/internal/api/rotation.go:45-47 | busy exactly when the machine is in the lock map, and then nothing is stored |
| Controller.Controller.Delete | backend/internal/api/rotation.go:48-48 | the machine leaves the lock map, and nothing else changes |
| Controller.Controller.SelectMachine | backend/internal/api/rotation.go:49-56 | the row is read if and only if the request is live and the machine exists; a manual rotation then goes on to the provider, an automatic one to the gates if both switches are on, and out as disabled otherwise |
| Controller.Controller.Admit | backend/internal/api/rotation.go:49-74 | a missing machine or a cancelled request is not found, a switched-off automatic rotation disabled; a manual rotation passes no gate |
| Controller.Controller.CooldownGate | backend/internal/api/rotation.go:57-61 | an attempt leaves cooling down if and only if it has read a cooldown and the clock at the gate is before it; it goes on to the cap otherwise |
| Controller.Controller.CountSince | backend/internal/api/rotation.go:63-63 | the counting loop returns how many completed rows of the machine, manual ones included, started at or after the given instant |
| Controller.Controller.CapGate | backend/internal/api/rotation.go:62-66 | an attempt leaves with the cap reached if and only if the completed rotations of its machine since the start of the clock's UTC day number at least the cap; it goes on to the confirmation, if one is required, otherwise |
| Controller.Controller.ConfirmFailure | backend/internal/api/rotation.go:67-72 | the attempt goes on to the provider if and only if the check it owns has concluded with a failing score, and leaves unconfirmed otherwise |
| Controller.FindCurrentIP | backend/internal/api/rotation.go:79-86 | the address of the first entry with the machine's ID and a non-empty address, the stored one if no entry has both |
| Controller.FindChangedIP | backend/internal/api/rotation.go:111-119 | the address of the first entry with the machine's ID and an address that is neither empty nor the old one, empty if there is none |
| Controller.Controller.ResolveProvider | backend/internal/api/rotation.go:75-86 | the old address is the one the list gives first for the machine, the stored one without a list or an entry; a cancelled request gets no list |
| Controller.Controller.InsertRotation | backend/internal/api/rotation.go:87-92 | if and only if the request is live, one running row with the attempt's machine, old address, trigger and start is appended; the others stay |
| Controller.Controller.CallChangeIP | backend/internal/api/rotation.go:96-99 | ChangeIP succeeds if and only if the provider accepts it under a live request; failing, the attempt goes on to close its row |
| Controller.Controller.PollLoop | backend/internal/api/rotation.go:108-128 | each answer is the provider's next or a call failed under a cancelled request; the loop ends with the first new address an answer holds, or when the timeout is over or the request cancelled; ten seconds follow every other call, so there are at most ceil(timeout / 10s) |
| Controller.Controller.PollForNewIP | backend/internal/api/rotation.go:100-135 | no list call before the configured wait is over; failure means that wait and timeout are over or the request is cancelled, and that no answer had a non-empty address of the machine other than the old one; success is the first such address of the last answer, and no earlier answer had one |
| Controller.Controller.StoreMachine | backend/internal/api/rotation.go:136-137 | under a live request and if the machine is there, its row takes the new address, unknown health, zeroed counters, the instant and the cooldown, and keeps the other columns; otherwise nothing changes |
| Controller.Controller.FailRotation | backend/internal/api/rotation.go:165-170 | the row becomes failed whatever the request's context |
| Controller.Controller.CompleteRotation | backend/internal/api/rotation.go:157-158 | the row is completed under a live request and untouched under a cancelled one |
| Controller.Controller.SyncRecords | backend/internal/api/rotation.go:138-148 | the DNS status is failed if and only if the synchronisation fails, completed if and only if it does not and records are counted, disabled otherwise |
| Controller.Controller.PostCheck | backend/internal/api/rotation.go:149-156 | the status is not run if the attempt's own check was refused, passed if it scored zero and failed otherwise |
| Controller.Controller.ChangeAndCommit | backend/internal/api/rotation.go:96-164 | from ChangeIP to the end of the critical section the row ends failed or, under a live request, completed |
| Controller.Controller.ExecuteProbes | backend/internal/api/probes.go:193-199 | the score is the sum of the weights of the selected probes that fail, with interference after each |
| Controller.Controller.StoreCounters | backend/internal/api/probes.go:218-218 | health and both counters of the machine's row are written unless the request is cancelled or the row missing; nothing else changes |
| Controller.Controller.SelectCounters | backend/internal/api/probes.go:200-201 | the counters read are those of the row, zeros under a cancelled request or without a row |
| Controller.Controller.StoreVerdict | backend/internal/api/probes.go:218-225 | one live automatic attempt on the machine is started if and only if the verdict is suspect and automatic rotation is on, even if the counter update is dropped; otherwise none |
| Controller.Controller.UpdateCounters | backend/internal/api/probes.go:218-225 | the check's last statement starts an automatic rotation of its machine if and only if it scored at least 5, the failures it had read plus one reach the threshold and automatic rotation is on |
| Controller.Controller.JudgeMachine | backend/internal/api/probes.go:200-226 | the same from the reading of the counters to the end of the check |
| Controller.Controller.CheckMachineNow | backend/internal/api/probes.go:177-227 | fails if and only if the query of the enabled probes fails or yields none; it fails only under a cancelled request and yields all of them under a live one; otherwise the check concludes with their score and starts an automatic rotation under exactly the condition above |
| Health.Conclude | backend/internal/api/probes.go:202-217 | a score of at least 5 adds a failure, clears the successes and gives suspect at the threshold and healthy below it; a lower one adds a success, clears the failures at the recovery threshold and gives degraded if failures are left and healthy if none are |
| Health.ExecuteProbe | backend/internal/api/probes.go:144-168 | a controller probe succeeds if and only if it reaches its target, any other if and only if an agent is online |
| HealthMeaning.SuccessesAreTheTrailingRun | backend/internal/api/probes.go:203-217 | `success_count` is the length of the trailing run of passing checks |
| HealthMeaning.FailuresSinceRecovery | backend/internal/api/probes.go:203-217 | `failure_count` is the number of failing checks since the trailing run last reached the recovery threshold |
| HealthMeaning.SuspectMeaning | backend/internal/api/probes.go:203-217 | suspect if and only if the latest check failed and that number reaches the threshold; degraded if and only if it passed and that number is not zero; healthy otherwise |
| HealthMeaning.ConsecutiveRuleIff | README.md:84-84 | the documented consecutive rule holds on every history if and only if recovery is at most 1 or the threshold is 1 |
| HealthMeaning.InterruptedIsSuspect | README.md:84-84 | a history without a full run of failing checks that makes the machine suspect |
| HealthMeaning.ConsecutiveIsSuspect | README.md:84-84 | a full run of failing checks makes the machine suspect under every setting |
| HealthMeaning.PostRotationVerdict | backend/internal/api/rotation.go:137-150 | a check from zeroed counters makes the machine suspect if and only if it fails and the threshold is at most 1 |
| HealthRuns.CountersAreFold | backend/internal/api/probes.go:200-218 | on every run, from zeroed counters on and while the row is neither deleted nor reset, checks of one machine that do not overlap leave counters equal to the fold of their outcomes, whatever happens to its other columns and to other machines |
| HealthRuns.VerdictIsFinal | backend/internal/api/probes.go:202-225 | the health such a check stores, and the verdict it acts upon, is that of the history of outcomes so far |
| HealthRuns.PostRotationOnRuns | backend/internal/api/rotation.go:137-150 | on every run, the next check to conclude after a rotation's machine-row update, if started after it, makes the machine suspect if and only if it fails and the threshold is at most 1 |
| Triggers.TriggerIff | backend/internal/api/probes.go:219-225 | on every run, the last statement of a check starts one live automatic attempt on its machine if and only if the check scored at least 5, the failures it had read plus one reach the threshold and automatic rotation is on; otherwise none |
| Triggers.EveryAutoWasTriggered | backend/internal/api/probes.go:222-224 | on every run, each automatic attempt was started by such a check |
| Triggers.TriggerMeaning | backend/internal/api/probes.go:200-225 | where the checks of a machine do not overlap: if and only if automatic rotation is on, the check failed and as many checks as the threshold failed since the machine last recovered |
| Admission.AutomaticWasAdmitted | backend/internal/api/rotation.go:53-66 | on every run, each automatic ChangeIP follows, in order and by its own attempt, a reading of the machine's row with the switch on, a clock not before the cooldown of that row, and a count of completed rotations since the start of the UTC day below the cap |
| HealthMeaning.ScoreProbes | backend/internal/api/probes.go:193-199 | the scoring loop sums the weights of the probes that do not succeed |
| HealthMeaning.ScoreAdds | backend/internal/api/probes.go:193-199 | each probe adds its weight to the score if and only if it is the controller's and misses its target, or another and finds no agent online |
| HealthMeaning.ScoreZeroIff | backend/internal/api/rotation.go:149-156 | with the stored weights of at least 1 a check scores zero, and a post-rotation check passes, if and only if every probe succeeded |
| HealthMeaning.OnlyControllerProbesFail | backend/internal/api/probes.go:148-166 | with an online agent the score is that of the controller's probes alone; with none the weights of all others are added |
| Inventory.UpsertAllKeepsSafety | backend/internal/api/api.go:523-534 | a synchronisation changes no existing machine's automatic flag, counters, health or cooldown and creates the others with the defaults |
| Inventory.UpsertAllMeaning | backend/internal/api/api.go:523-534 | row by row and column by column: the last entry wins, the last non-empty name is kept, other machines stay |
| Inventory.LastEntryIs | backend/internal/api/api.go:523-534 | the entry that wins is the last one with the machine's ID |
| Inventory.LastNameIs | backend/internal/api/api.go:526-526 | the name kept is that of the last entry of the machine with a name, the stored one if there is none |
| Inventory.MachineTable.Sync | backend/internal/api/api.go:523-537 | success is reported if and only if the transaction begins and every upsert executes; the table is the left fold of the upserts if the request is live at the commit, too, and unchanged otherwise |
| Inventory.ReportedButUnapplied | backend/internal/api/api.go:523-537 | a request cancelled between the last upsert and the commit: success is reported and nothing stored |
| Timestamps.StringOrderIsTimeOrder | backend/internal/store/store.go:37-37 | for years 0000 to 9999 the printed instants are ordered, and equal, exactly as the instants are |
| Timestamps.ParseFormat | backend/internal/api/rotation.go:58-58 | parsing a printed instant returns it |
| Timestamps.FormatParse | backend/internal/api/rotation.go:58-58 | whatever parses is the print of what it parses to |
| Timestamps.InRangeIff | backend/internal/store/store.go:37-37 | the years 0000 to 9999 are the first 3652425 days |
| Decimal.DigitsAre | backend/internal/store/store.go:37-37 | the ten digits print as themselves |
| Timestamps.EpochPrints | backend/internal/store/store.go:37-37 | day 719528 prints as the first second of 1970 |
| Timestamps.LeapDayPrints | backend/internal/store/store.go:37-37 | an instant on 29 February 2024 prints with its date and time |
| Timestamps.BlocksIff | backend/internal/api/rotation.go:57-60 | a stored string blocks if and only if it is the print of an instant ahead of the clock; an empty or unreadable one does not |
| Timestamps.SqliteForm | backend/internal/api/scheduler.go:25-25 | SQLite's form is the other with a space for the separator and no zone |
| Timestamps.NowReads | backend/internal/store/store.go:37-37 | a stored instant reads back as the second it fell in |
| Timestamps.NowOrder | backend/internal/store/store.go:37-37 | stored instants never compare against the order of the instants, are equal exactly within one second, and are strictly ordered from one second on |
| Timestamps.CooldownOnStrings | backend/internal/api/rotation.go:57-61 | the gate on the stored string is the gate on the truncated instant |
| Timestamps.CapQueryOnStrings | backend/internal/api/rotation.go:63-63 | the query's string comparison with the start of the UTC day is the comparison of instants, and that start prints as midnight of the same date |
| Timestamps.MixedOrder | backend/internal/api/scheduler.go:25-25 | across the two formats only the dates decide, and equal dates count as later |
| Calendar.CivilIsDate | backend/internal/store/store.go:37-37 | every day number is the number of the valid date it prints as |
| Calendar.CivilIs | backend/internal/store/store.go:37-37 | the same in closed form: month and day within the lengths of the Gregorian calendar, and the number as a polynomial of year, month table and leap day |
| Calendar.DaysBeforeYearIs | backend/internal/store/store.go:37-37 | the days before a year are 365 for each earlier one and one for each leap year among them |
| Calendar.DaysBeforeMonthIs | backend/internal/store/store.go:37-37 | the days before a month are those of the common table, plus the leap day from March on |
| Calendar.NumberIsDate | backend/internal/api/rotation.go:58-58 | every valid date is recovered from its day number |
| Calendar.DateOrder | backend/internal/store/store.go:37-37 | dates compare field by field as their day numbers do |
| Lexicographic.LexLessIff | backend/internal/api/rotation.go:63-63 | text is less if and only if it is a proper prefix or has the lesser character at the first difference |
| Scheduler.DueMeansDateTurned | backend/internal/api/scheduler.go:25-25 | a probe is due if and only if it is an enabled controller probe and all its results lie on dates before the cutoff's |
| Scheduler.DueIsElapsed | backend/internal/api/scheduler.go:25-25 | a due probe never has a result younger than its interval |
| Scheduler.FilterAgreesWithInterval | backend/internal/api/scheduler.go:25-25 | filter and interval agree if and only if the interval has not elapsed or no result lies on the cutoff's date |
| Scheduler.ElapsedButNotPicked | backend/internal/api/scheduler.go:25-25 | a concrete probe whose interval has elapsed and which the filter rejects |
| Scheduler.StartChecks | backend/internal/api/scheduler.go:37-48 | the machines of the due probes are started, each once, in the order of their first occurrence |
| Scheduler.Tick | backend/internal/api/scheduler.go:24-49 | a check is started, once, of exactly the machines with an enabled controller probe whose results all lie on dates before its cutoff's |
| Tasks.StepForward | backend/internal/api/agents.go:83-136 | no action moves a task back, and only requests of its own agent change it |
| Tasks.RankNeverDecreases | backend/internal/api/agents.go:83-136 | over every run of interleaved polls and results a task's rank never falls |
| Tasks.NeverReopened | backend/internal/api/agents.go:107-124 | a delivered or closed task is never pending again, is not selected again, and a stale poll's update does not touch it |
| Tasks.StatusIsLastResult | backend/internal/api/agents.go:83-136 | over every run a task is completed or failed exactly as its own agent last reported; while it has not, running if a poll has updated it and pending otherwise |
| Tasks.TaskTable.CloseTask | backend/internal/api/agents.go:112-133 | if and only if the posting agent owns the task, its status, and nothing else, becomes the reported one |
| Tasks.TaskTable.SelectPending | backend/internal/api/agents.go:85-85 | the query returns at most ten pending tasks of the agent, oldest first and each once; one is left out only if ten no younger ones are returned |
| Tasks.TaskTable.PollOnce | backend/internal/api/agents.go:83-111 | the query returns a selection, or its beginning under a request cancelled at once; the returned tasks become running and leave the pending ones as long as the request lives, the others stay |
| Tasks.PassedOver | backend/internal/api/agents.go:85-110 | a poll that passes a waiting task over takes ten tasks ahead of it |
| Tasks.NoStarvation | backend/internal/api/agents.go:85-110 | on every run of interleaved polls and results with one uncancelled poller, a waiting task with k tasks ahead of it is delivered within floor(k / 10) + 1 polls |
| Tasks.CancelledPollRedelivers | backend/internal/api/agents.go:107-109 | a run in which a cancelled poll's task is delivered again |
| Tasks.PendingAfterPollIff | backend/internal/api/agents.go:85-110 | until the agent polls again, a task its poll has selected is pending if and only if the poll has not updated it, which for a finished poll means that it was cut before that task's own update, and no result has been posted |
| Tasks.LeftPendingWaits | backend/internal/api/agents.go:85-110 | a selected task without a result waits for the agent's later polls if and only if the finished poll was cut before its update |
| Tasks.DeliveredOnce | backend/internal/api/agents.go:107-109 | on every run two polls of one poller deliver the same task only if the first was cut before that task's own update |
| Dns.DnsTable.SyncOne | backend/internal/api/dns.go:307-329 | a push happens if and only if the provider is there, enabled, decryptable and looked up under a live request, each failure with its own text; the row takes address, status, error and time if and only if the request is live at the update, and other rows and columns stay |
| Dns.DnsTable.SyncAll | backend/internal/api/dns.go:293-305 | for a request of any lifetime: without an error every turn was taken, with one there is one stopping index; the turns that end under the live request are pushed and marked, at most one more is pushed, and nothing after; every push but the last was accepted, and the last one's error is returned |
| Dns.DnsTable.SyncMachine | backend/internal/api/dns.go:276-306 | the same for the whole function: a cancelled query fails with nothing done, and a request cancelled right after it works on the rows read by then |
| Dns.PushesInOrder | backend/internal/api/dns.go:293-305 | without an error the pushes are those of the first records with an address, in order |
| Dns.StopsInOrder | backend/internal/api/dns.go:293-305 | with an error all records before the failing one were pushed, in order, the failing one at most, and none after it |
| Dns.MarkedIffLive | backend/internal/api/dns.go:319-326 | without an error a record is pushed if and only if the request is live at its provider query, and its row marked if and only if the request is live at its update |
| Dns.MarkedBeforeStopIffLive | backend/internal/api/dns.go:293-326 | every record before a failing one was pushed, and its row marked if and only if the request was live at its update |
| Dns.StoppedRowIffLive | backend/internal/api/dns.go:307-328 | the failing record was pushed if and only if its provider was usable and looked up live; its row takes address, failed status, error and time if and only if the request was live at the update, too, and is unchanged otherwise |
| Dns.WholeIffLive | backend/internal/api/dns.go:276-306 | without an error some record with an address is left unmarked if and only if the request does not live through the updates of all such records; if it does, everything is pushed and marked; if not and there is an IPv4 address, everything is pushed and only the last row is left |
| Dns.PushedButUnmarked | backend/internal/api/dns.go:319-328 | a request cancelled after its only push: a nil error and an unmarked row |
| Dns.FailsAfterUnmarked | backend/internal/api/dns.go:308-328 | a request cancelled one record earlier: the failing record is preceded by a pushed, unmarked one |
| Dns.DisabledThoughPushed | backend/internal/api/rotation.go:139-148 | all records pushed and marked, and no statement left for the count |
| Dns.DnsTable.SyncAfterRotation | backend/internal/api/rotation.go:138-148 | the status is failed if and only if there is an error, completed if and only if records are selected and the request lives through the count, disabled if and only if none are or it does not; pushes go only to enabled records of the machine for synchronisation after rotations, with an enabled provider whose token decrypts |
| Dns.SyncedMeaning | backend/internal/api/dns.go:293-303 | an enabled record of the machine with an address is marked completed with it: A records the argument, AAAA records the stored IPv6 address, or the argument when the machine row is gone; every other record keeps its row |
| Dns.SelectionStays | backend/internal/api/dns.go:276-306 | a synchronisation does not change what a later one selects |
| Dns.RepeatChangesOnlyTime | backend/internal/api/dns.go:276-329 | repeating a synchronisation that marked everything, in any order of rows, changes only timestamps |
| ProviderList.FindListIsLeast | backend/internal/provider/client.go:95-109 | a list is found if and only if some path over the five keys reaches an array, and it is the array at the least such path |
| ProviderList.LeastListIsUnique | backend/internal/provider/client.go:95-109 | the least path and its list are unique |
| ProviderList.FindListSearches | backend/internal/provider/client.go:95-109 | the search yields the least path itself, or no path reaches an array |
| ProviderList.FindListByKeys | backend/internal/provider/client.go:100-106 | of the keys list, records, items, data and result, in this order, the first that leads to a list decides |
| ProviderList.FirstKeyDecides | backend/internal/provider/client.go:110-126 | the first key that is present decides alone, even with an empty value; without one the text is empty |
| ProviderList.MachineColumns | backend/internal/provider/client.go:80-88 | an object with an identifier becomes a machine, each column from its own keys |
| ProviderList.ListMachines | backend/internal/provider/client.go:72-90 | fails exactly when no path reaches an array; otherwise every element with an identifier becomes a machine, in order and with multiplicity |
| Shell.QuoteRoundTrip | backend/internal/api/machines.go:148-148 | every string, quoted, is read as one word equal to it |
| Shell.QuoteReads | backend/internal/api/machines.go:148-148 | the same inside any word and before any further text |
| Shell.EscapeIs | backend/internal/api/machines.go:148-148 | character by character: a single quote becomes the five characters that leave and re-enter the quotes, any other stays |
| Shell.CommandReads | backend/internal/api/machines.go:142-148 | every command printed from plain text and quoted values splits into exactly its words, at the end of a text and before a closing parenthesis |
| Shell.DockerCommandReads | backend/internal/api/machines.go:143-143 | the docker command splits into this argument vector around the URL, the token and the machine ID, whatever these are |
| Shell.InstallCommandReads | backend/internal/api/machines.go:142-142 | the install command substitutes one download from the controller's URL and passes one fixed argument vector around the URL, the token and the machine ID, whatever these are |
| StatusMatch.StatusMatches | backend/internal/probe/probe.go:90-105 | the parser returns whether the specification of the expression holds |
| StatusMatch.AtoiIs | backend/internal/probe/probe.go:93-94 | a printed number reads as itself with or without a plus, negated after a minus, and as the nearest 64-bit integer when out of range |
| StatusMatch.AtoiOther | backend/internal/probe/probe.go:93-94 | text that begins with neither a sign nor a digit reads as 0 |
| StatusMatch.RangeMatches | backend/internal/probe/probe.go:92-97 | a printed range matches exactly the codes between its bounds |
| StatusMatch.RangeExpressionMatches | backend/internal/probe/probe.go:90-97 | every expression with a range, wherever it stands and however it is spaced, matches exactly one interval, each bound of which is the first range's own or 0 |
| StatusMatch.AgreesIff | backend/internal/probe/probe.go:90-105 | an expression of padded codes and ranges matches the statuses it names, and no others, if and only if it has no range, is a single range with a readable bound on each side, lists only codes within a last range and all below it, or names nothing and its upper bound is not read |
| StatusMatch.ListThenRange | backend/internal/probe/probe.go:92-97 | a list and then a range matches everything from 0 to the range's end |
| StatusMatch.RangeThenList | backend/internal/probe/probe.go:92-97 | a range and then anything matches at most 0 |
| StatusMatch.SpacedRange | backend/internal/probe/probe.go:92-97 | a space before the dash of a range makes its lower bound 0, a space after it the upper bound |
| StatusMatch.ListThenRangeFailsOpen | backend/internal/probe/probe.go:92-97 | "200,301-302" accepts 250 |
| StatusMatch.RangeThenListFailsClosed | backend/internal/probe/probe.go:92-97 | "301-302,200" rejects 301, 302 and 200 |
| StatusMatch.SpaceLeftFailsOpen | backend/internal/probe/probe.go:92-97 | "200 -299" accepts 100 |
| StatusMatch.SpaceRightFailsClosed | backend/internal/probe/probe.go:92-97 | "200- 299" rejects 250 |
| StatusMatch.SpaceBothFailsClosed | backend/internal/probe/probe.go:92-97 | "200 - 299" rejects 250 |
| StatusMatch.Coincidence | backend/internal/probe/probe.go:92-97 | "200,1-302" means what it says for every status |
| StatusMatch.ListMatches | backend/internal/probe/probe.go:98-104 | a printed list, spaced in any way, matches exactly its members |

## Left out

- Safety.EvidenceBeforeChangeIP: counts a failing check as concluded when it reaches its update
  statement, even if a cancelled request then drops the update.
- Controller.Controller.PollLoop: bounds list calls by the clock as the loop reads it; time inside a
  list call is not advanced, which can only raise the number of calls. In the step system itself
  polling may go on for any time.
- Timestamps.ParseFormat: parsing is modelled on strings of the shape the controller prints; the other
  RFC 3339 forms the library accepts never reach the column.
- Scheduler.DueMeansDateTurned: the instants compared lie in years 0000 to 9999.
- Tasks.NoStarvation: assumes one poller per agent whose polls are not cancelled, later timestamps for
  later tasks, and no result for a task that has not been delivered, without which it is false.
- Dns.DnsTable.SyncAll: the fan-out is modelled without other writers of its tables; in the step system
  it is one action with an arbitrary result. The machine's IPv6 address is the same in every turn.
- StatusMatch.AgreesIff: numbers up to the largest 64-bit integer, without leading zeros or signs;
  agreement is stated on statuses, which are at least 1.
- Shell.CommandReads: expansions, patterns, comments and operators are rejected by the reader, not
  interpreted. The two commands use none but the one process substitution, which `BashWords` reads.
- Health.ExecuteProbe: the task it queues is a `Create` of `Tasks.dfy`, which agent gets it is not modelled;
  the result row a controller run inserts is one of the results `Scheduler.dfy` is given.
- ProviderList.ListMachines: numbers and other non-string values are printed by a parameter.
- Database failures other than those caused by a cancelled request; a refused upsert is modelled.
- The configuration changes only with a restart, and the model keeps one configuration through a crash.
- `validateProbe` (`backend/internal/api/probes.go:42-70`): field defaults and membership tests; of its
  result only the positive weight is used.
- The HTTP handlers, login, the WebSocket hub, Telegram and the logs: plumbing.
- The reasons and error texts of rotations and the `updated_at`, `last_check_at` columns: nothing the
  model states reads them.
- Network calls of probes, providers and DNS services: arbitrary answers. The rows of a machine's
  enabled probes are a parameter of `CheckMachineNow`, too.
- Cryptography, token generation, the agent binary, installers and the frontend.
- Agent registration, revocation and the online display; whether an agent is online is a parameter.
- JSON task payloads and number formats of the standard library.
