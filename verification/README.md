# bazUSOP verification model

bazUSOP is a hub with agents on managed hosts. This project models the parts of it that must survive crashes, lost and
repeated requests, and out-of-order arrival, and proves what they keep over whole runs:

- **Remote jobs.** The hub's job store (queue, claim lease, sequenced idempotent log), the agent's executor with its
  durable cell, and a network that loses, delays, duplicates and reorders (`Jobs`, `JobLife`, `JobStore`,
  `JobExecution`, `JobTrust`, `JobProtocol`, `JobSafety`, `JobProgress`, `JobFairness`, `JobExecutor`).
- **Log pipeline.** Collector with a durable cursor, deterministic IDs, the two greedy packers, and the bounded,
  de-duplicating hub store, end to end (`Packer`, `LogStore`, `LogRecord`, `LogProtocol`, `LogSafety`,
  `LogProgress`, `LogAgent`), and what the Linux source makes of a window (`LogSource`).
- **Alerts and telemetry.** The incident automaton with maintenance windows, and the "newest sample only" gate over a
  sorted sample list, with any number of reports in progress (`Alerting`, `AlertService`, `AlertOutcome`, `Telemetry`,
  `TelemetryReport`, `TelemetryRuns`).
- **Rate limiter.** In-place pruning against the full call history (`RateLimiter`).
- **Enrollment.** The shared authority and the one-time token registry over any number of hubs (`Enrollment`,
  `EnrollmentAuthority`).

`Text` (Go strings as bytes), `Unicode` (the runes they encode), `Sorting` (Go's sorts), `Runs` (paths of a step system), `Order`, `Tenancy`, `Clock`, `Sets`
and `Wrappers` hold what several of these share.

Stateful Go types are classes whose methods keep the source's branches and loops. Each method is proved against a function
on values, and the theorems are about runs of those functions. Where several processes take part, a step system
(`JobProtocol`, `LogProtocol`, `TelemetryRuns`) gives the runs; in it the others may move between any two steps of a process.
The classes `JobExecutor.JobExecutor`, `LogAgent.Runner` and `TelemetryRuns.Handler` are proved to be paths of it: the
executor lets the others move before and after every durable write, request and action, the log runner around each of its
requests; the four parts of the handler are each a step from any state, so that parts of other reports may come between.

The two protocols are stated for any text transport, digest and executor texts (`JobExecution.Behaviour`,
`LogRecord.Format`); what they need of the job side is `JobProtocol.Lawful`. The ones in use, `JobExecution.Actual` and
`LogRecord.Actual`, are shown to be such, and to be what the hub's services do.

Check everything with `dafny verify dfyconfig.toml`.

## What is assumed

- Hashes do not collide on the texts that occur, signatures are ideal, IDs drawn at random are new. The log theorems carry
  collision freedom as a precondition on the texts of the run (`LogRecord.CollisionFree`), which is satisfiable.
- There is one agent process per state directory, with an unchanged agent ID. Replacing a file is atomic
  and durable; a failed save may nevertheless have happened. Every hub transaction is one step.
- Of the log source nothing is assumed but that what it returns are records of the source. Windows it does not answer in
  full are counted (`gaps`), and the records a commit passes over for that reason are recorded (`lost`); the delivery
  theorems are about all other records. Source IDs of log records (journal cursors, Windows record IDs) and the agent ID
  hold no NUL.
- Text fields that operators type into jobs are well-formed UTF-8 (they arrive as JSON).
- Time is in nanoseconds as an unbounded integer, 0 being Go's zero time. Metrics are reals.

## Where the code falls short of a property

Each of these is proved: that it happens, at a reachable state or a concrete input, and exactly when.

- **A job result the hub refuses blocks the agent for good.** A held result can ever be cleared exactly if the hub takes all
  its pending messages (`JobProgress.ClearableExactlyWhen`); if it refuses one, the job stays on the agent's disk and runs
  for ever (`JobProgress.RefusedMessageBlocks`). A reboot that prints eleven thousand bytes which are not UTF-8 leads there
  (`JobProgress.RefusedOutputBlocks`). Which outputs and error texts do is
  told exactly by their bytes (`JobExecution.ResultIsAcceptable`, `JobProgress.ComposableExactlyWhen`): the ill-formed ones,
  tripled by JSON, exceed the limit, or the text is too long and no well-formed rune stands first within the limit after
  its white space. An error text is cut before it is trimmed, so 32 KiB of blanks before it suffice
  (`JobExecution.LateErrorIsRefused`). Platform actions whose outputs are well-formed, and error texts well-formed
  and not blank at the start, never lead there: every state they reach drains (`JobProgress.WellFormedDrains`), and
  in every fair run without further faults it does (`JobFairness.WellFormedFairRunDrains`).
- **The hub creates jobs its agent refuses**: exactly the restarts of the agent's own service
  (`JobExecution.AgentAcceptsWhatHubCreates`), and there are such in every scope (`JobExecution.OwnServiceIsRefused`).
- **A log record the hub refuses stops the agent's log pipeline.** The end of a batch in hand can become the checkpoint
  without a restart exactly if the hub takes all its records (`LogProgress.BatchCommitsExactlyWhen`), and no restart gets the
  checkpoint past such a record unless the record is not collected (`LogSafety.RefusedRecordBlocks`,
  `LogProgress.RefusedRecordStops`). Which records these are: `LogRecord.ParsedIsAcceptable`; thirty thousand bytes that are
  not UTF-8 are one: `LogRecord.RefusedRecord`.
- **On Linux each commit loses up to a second of log records.** `journalctl` is asked for whole seconds: a window is answered
  in full exactly if none of its records lies in the last, unfinished second and those before it fit the 1000 lines
  (`LogSource.InFullExactlyWhen`). The next window starts at the checkpoint, so what a commit passes over is never
  delivered, whatever happens later (`LogSource.PassedOverIsLost`, `LogSafety.LostForEver`,
  `LogSource.UnfinishedSecondIsLost`). While every window is answered in full nothing is lost (`LogSafety.NothingLost`).
- **A window with more than 1000 records loses the oldest**: `LogSafety.WindowKeepsTheLatest`, and
  `LogSafety.OversizeWindowLoses` is one. The two log sources are themselves asked for at most 1000 records, so with them
  the loss occurs before the window (`LogSource.InFullExactlyWhen`).
- **IDs of log records are ambiguous** for exactly those records whose text "source NUL severity NUL message" holds a
  severity between NULs at a second place (`LogRecord.SharedExactlyWhen`), such as any whose message starts with a severity
  and a NUL (`LogRecord.AmbiguousMessage`). With no NUL in the source this cannot matter:
  records with clean sources have distinct texts (`LogRecord.PreimageIsInjective`).
- **An ID shared by two agents of a scope loses an entry.** The second agent's list is then right exactly if it is full of
  later entries (`LogStore.SharedKeyIsLost`); two requests to an empty store do it (`LogStore.SharedKeyInstance`). Digests of the agent exclude it (`LogSafety.IdsTellAgents`); a client that
  sends IDs of its own choice can do it.
- **Both packers check only the first item of the input on its own.** Every payload is within the limit exactly when every
  single item is: `Packer.AllFitIffItemsFit`. A second item that is too long goes out in a payload beyond the limit
  (`Packer.SecondItemOverruns`). Truncation provides that for log requests: `LogRecord.RequestsFit`.
- **Alerts can see an older sample after a newer one.** With samples stamped at most a second ahead of their own report's
  reading of a clock that does not go back, this happens exactly if, at the moment a later-stamped sample of the agent was
  evaluated, the older one's report had already asked whether it is the newest, or had read the clock and was yet to ask
  up to a bound before that stamp (`TelemetryRuns.Blind`, `TelemetryRuns.OutOfOrderExactlyWhen`,
  `TelemetryRuns.EvaluationGoesForwardExactlyWhen`). Two handlers at once do the first
  (`TelemetryRuns.OvertakingIsReachable`) and the second (`TelemetryRuns.StaleReadingIsReachable`); reports handled one by
  one never do (`TelemetryRuns.SerialGoesForward`). The allowance of a second is tight: one microsecond further ahead and it
  happens with one report after the other (`TelemetryRuns.FutureStampGoesBack`).
- **With a clock that goes back the rate limiter can allow what its full history forbids**: exactly if the window holds at
  least `max` granted calls of which fewer have survived the cutoffs in between (`RateLimiter.DiffersExactlyWhen`);
  `RateLimiter.ClockGoingBackShows` is an input, and `RateLimiter.ClockGoingBackOverfills` one that puts three granted
  calls into a window that allows two.
- **A lost acknowledgement uses up an enrollment token.** An enrollment fails and yet consumes its token exactly if the
  request, the ID and the token are in order and only the answer to the commit is lost
  (`EnrollmentAuthority.TokenUsedUpExactlyWhen`); a newly registered token is one it can happen to
  (`EnrollmentAuthority.LostAnswerInstance`). No certificate is ever issued for that token afterwards, at any hub: each later
  attempt in order is told that it has been consumed (`EnrollmentAuthority.UsedUpForEver`).

## Model

| member | source | states |
|---|---|---|
| `Text.TruncateUTF8` | internal/agent/log_collector.go:259-268 | the truncation loop returns the value itself or the longest well-formed prefix within the limit |
| `Text.ValidPrefixIsLongest` | internal/agent/log_collector.go:263-266 | no well-formed prefix within the limit is longer, for any bytes |
| `Text.TruncatedOfValid` | internal/agent/log_collector.go:259-268 | for well-formed text: longest well-formed prefix, at most 3 bytes short of the limit, not empty once the limit holds a rune |
| `Text.TruncatedIsCarried` | internal/agent/log_collector.go:259-268 | exactly which texts, any bytes and any limit, pass a hub's check for the limit once truncated to it and sent as JSON |
| `Text.TrimOfWire` | internal/agent/job_state.go:53-68 | trimming and the JSON transport commute, for any bytes |
| `Text.ValidSurvives` | internal/agent/log_collector.go:259-268 | well-formed text that does not start with white space always passes, if the limit holds a rune |
| `Text.WireIdempotent` | internal/agent/job_state.go:53-68 | writing text as JSON and reading it back a second time changes nothing more |
| `Unicode.ValidExactlyWhen` | internal/agent/log_collector.go:263-266 | the strings called well-formed are exactly the UTF-8 encodings of sequences of Unicode scalar values |
| `Unicode.TrimmedExactly` | internal/jobs/jobs.go:153-156 | trimming well-formed text drops the white-space runes at both ends, and nothing else |
| `Tenancy.ValidExactlyWhen` | internal/tenancy/tenancy.go:28-66 | agent, organization and site each have an ID that is not blank, at most 128 bytes long and without NUL |
| `Jobs.LeastIsUnique` | internal/jobs/jobs.go:333-342 | two selections over the same map agree: map order cannot matter |
| `Jobs.ClaimIsExact` | internal/jobs/jobs.go:327-369 | a claim yields the least queued job exactly when none runs; a running one only as resumed, only when its one claim is a lease old, and then nothing changes |
| `Jobs.RecordIsExact` | internal/jobs/jobs.go:371-404 | a stored event is acknowledged again without effect, the next in sequence is appended while the job runs, all else is refused without effect |
| `Jobs.ReportChanges` | internal/jobs/jobs.go:199-210 | a report can change only the reporter's own running job, by its next event |
| `Jobs.ApplyExtends` | internal/jobs/jobs.go:314-404 | each operation keeps the store invariant, only extends logs and leaves finished jobs alone |
| `Jobs.ReachableStore` | internal/jobs/jobs.go:314-404 | every reachable store: sequences 0..LastSequence, approved, claimed, output*, terminal?, status a function of the log, one running job per agent; against any earlier point of the run logs only grew and finished jobs did not change |
| `Jobs.DraftIsDrafted` | internal/jobs/jobs.go:152-189 | a created job is queued with its one approval event, in its scope, signed over its own payload |
| `JobLife.CreatedExactly` | internal/jobs/jobs.go:152-189 | which requests are refused, in which order and with which error; of any other every field of the job, its signature and its approval, from the arguments |
| `JobLife.CreatedIsClaimed` | internal/jobs/jobs.go:152-197 | round trip: a job created for an agent without open jobs is what that agent's next claim returns, as ordered and signed, whatever other agents, other operators and reports do in between |
| `JobLife.NobodyElseGetsIt` | internal/jobs/jobs.go:327-369 | in no later state of a run does a claim of any other agent return it |
| `JobLife.FirstComesFirst` | internal/jobs/jobs.go:357-366 | of an agent's queued jobs the one requested first is handed out, of two at one time the one whose ID comes first |
| `JobLife.LeaseHolds` | internal/jobs/jobs.go:191-197 | after a claim at t has handed out a job, and any operations, the agent's claims answer nothing before t + lease while it runs, and from then on this job, resumed |
| `JobLife.RunKeeps` | internal/jobs/jobs.go:314-404 | over any run only status and last sequence of a stored job change, and logs only grow |
| `JobLife.ReportedExactly` | internal/jobs/jobs.go:199-210 | which reports are refused, in which order and with which error, repeated without effect or taken; of a taken one the whole event and record |
| `JobLife.EventsComeFromOperations` | internal/jobs/jobs.go:314-404 | every event of a reachable store was written by an operation of the run: actor, text and time are those of the creation, of a claim by the job's own agent, or of its report |
| `JobStore.MemoryStore.CreateJob` | internal/jobs/jobs.go:314-325 | refuses an invalid or mismatched scope, otherwise adds the job with its first event |
| `JobStore.MemoryStore.SelectLeast` | internal/jobs/jobs.go:333-342 | the selection loop finds the (RequestedAt, ID)-least job of a status, if there is one |
| `JobStore.MemoryStore.ClaimNextJob` | internal/jobs/jobs.go:327-369 | takes exactly the claim step, or refuses an invalid agent without effect |
| `JobStore.MemoryStore.RecordJobEvent` | internal/jobs/jobs.go:371-404 | takes exactly the record step, or refuses an invalid agent without effect |
| `JobStore.Service.Create` | internal/jobs/jobs.go:152-189 | creates exactly the drafted job, or returns its error, the host checker's or the random source's, and changes nothing |
| `JobStore.Service.ClaimNext` | internal/jobs/jobs.go:191-197 | claims with the lease as resume bound |
| `JobStore.Service.Report` | internal/jobs/jobs.go:199-210 | trims, validates and records a report |
| `JobExecution.AgentAcceptsWhatHubCreates` | internal/agent/job_executor.go:126-154 | an agent with the pinned key refuses a job its hub created and handed out exactly if it restarts the agent's own service |
| `JobExecution.OwnServiceIsRefused` | internal/agent/job_executor.go:142-146 | in every valid scope the hub creates a restart of bazusop-agent, and the agent refuses it |
| `JobExecution.RefusedOutput` | internal/agent/job_executor.go:64-71 | eleven thousand bytes that are not UTF-8 are an output the hub does not take |
| `JobExecution.OutputIsAcceptable` | internal/agent/job_executor.go:64-71 | exactly which outputs of the platform action become an acceptable event |
| `JobExecution.ResultIsAcceptable` | internal/agent/job_executor.go:64-78 | both events of a finished job are acceptable exactly if its output, trimmed, and its error text, as it is, survive truncation and transport |
| `JobExecution.WellFormedIsReportable` | internal/agent/job_executor.go:64-78 | a well-formed output with a well-formed error text that does not start blank always gives acceptable events, however long they are |
| `JobExecution.LateErrorIsRefused` | internal/agent/job_executor.go:71-75 | an error text behind 32 KiB of blanks is cut to nothing and refused, whatever it says |
| `JobTrust.RunsExactlyWhen` | internal/agent/job_executor.go:52-60 | a claimed job is run if and only if it is this agent's, running, signed by the pinned key over its own fields, permitted, not the agent's own service, and not handed out again |
| `JobTrust.DeclinedExactly` | internal/agent/job_executor.go:55-60 | any other is reported as failed, next in sequence, with the first reason that applies |
| `JobTrust.ReportedResult` | internal/agent/job_executor.go:64-78 | of a job that has run: the trimmed output or a text in its place, then success or the error, each cut to 32 KiB |
| `JobProtocol.ActualIsLawful` | internal/agent/job_executor.go:39-108 | the executor's reports for declined, interrupted and finished jobs, JSON transport and trimming are as the protocol theorems require |
| `JobSafety.StepKeeps` | internal/agent/job_executor.go:39-124 | every step of agent, hub, network, operators and other agents keeps the invariant joining hub, disk, program point and messages in flight |
| `JobSafety.LogIsPrefixOfTheOneList` | internal/agent/job_executor.go:61-124 | over all runs at most one event list is saved per job, and the hub's log is approved, claimed and a prefix of it, all of it once the agent has let go |
| `JobSafety.HistoryOnlyGrows` | internal/agent/job_executor.go:61-124 | lists ever saved and actions ever started are never taken back, so the counts above are over the whole run |
| `JobSafety.ActionRunsAtMostOnce` | internal/agent/job_executor.go:45-79 | the action of a job starts at most once over all restarts; a job the hub records as succeeded ran exactly once without error |
| `JobSafety.SentNeverConflicts` | internal/jobs/jobs.go:382-392 | whatever duplicates arrived before, the hub takes anything ever sent exactly if its message passes validation, and otherwise changes nothing |
| `JobSafety.PendingNeverConflicts` | internal/jobs/jobs.go:382-392 | so the event being posted in a reachable state never conflicts |
| `JobTrust.OnlyFreshTrustedJobsStart` | internal/agent/job_executor.go:48-64 | in every run, whenever an action starts, its job was handed out unresumed, is trusted, and is the hub's own record |
| `JobTrust.StartedIsTrusted` | internal/agent/job_executor.go:126-154 | in every reachable state the hub's record of each job ever started carries the pinned key's signature over its own fields |
| `JobTrust.LogTellsTheTruth` | internal/agent/job_executor.go:55-100 | in every reachable state a job's log reads, after the claim, as a first part of what the executor composes of that job: why it was declined, that it was interrupted, or the result of its one run |
| `JobProgress.AgentStepIsGood` | internal/agent/job_executor.go:39-124 | no state is stuck: a fault-free agent has a next step, and it lowers (open jobs, stage, pending events) |
| `JobProgress.ComposableExactlyWhen` | internal/agent/job_executor.go:55-78 | all the executor composes is acceptable if and only if the bytes of every output and error text of its platform actions are as `JobExecution.Reportable` says; its own texts, certificate errors included, never stand in the way |
| `JobProgress.WellFormedIsTaken` | internal/agent/job_executor.go:55-100 | in every run whose platform actions give well-formed texts, everything on disk and in hand passes the hub's validation |
| `JobProgress.WellFormedDrains` | internal/agent/job_executor.go:39-124 | from every state of such a run a fault-free agent brings all its jobs to a terminal status and clears its disk, with no condition on messages |
| `JobFairness.OthersOnlyDelay` | internal/jobs/jobs.go:327-404 | a hub that has grown by no job of the agent, and a clock that has gone on, leave the agent no farther from being done |
| `JobFairness.FairRunDrains` | internal/agent/job_executor.go:39-124 | every endless fair run without further faults or jobs, with late duplicates, late claims, other agents, their operators and the clock moving without bound between the agent's steps, is drained with all jobs finished from some point on for ever, if what is pending is acceptable |
| `JobFairness.WellFormedFairRunDrains` | internal/agent/job_executor.go:39-124 | with well-formed texts every such run from any reached state is, with no condition on messages |
| `JobFairness.FairRunExists` | internal/agent/job_executor.go:39-124 | there is such a run from every state that can progress |
| `JobProgress.EveryReachableStateDrains` | internal/agent/job_executor.go:39-124 | from every reachable state a fault-free agent brings all its jobs to a terminal status and clears its disk, if what is pending is acceptable |
| `JobProgress.RefusedMessageBlocks` | internal/agent/job_executor.go:110-117 | a list with a message the hub refuses blocks in every continuation: same job on disk, never finished on the hub |
| `JobProgress.ClearableExactlyWhen` | internal/agent/job_executor.go:81-124 | in a reachable state a held result can ever be cleared if and only if the hub takes all its messages |
| `JobProgress.BlockedIsReachable` | internal/agent/job_executor.go:45-79 | for every accepted job and outcome with a message the hub refuses, a run of a new system leads to such a state |
| `JobProgress.RefusedOutputBlocks` | internal/agent/job_executor.go:64-78 | and there is such a job and output, with the executor as it is |
| `JobExecutor.JobExecutor.Save` | internal/agent/job_state.go:53-68 | a save replaces the whole cell by the step it completes; if it fails, or the process dies after it, the call ends |
| `JobExecutor.JobExecutor.FlushState` | internal/agent/job_executor.go:110-124 | a path of the step system; on success the cell is empty and the hub has the job finished; a calm flush of acceptable messages succeeds |
| `JobExecutor.JobExecutor.ReportEvents` | internal/agent/job_executor.go:102-108 | a path that saves the result and then flushes it; on success the cell is empty and the hub has the job finished |
| `JobExecutor.JobExecutor.RecoverState` | internal/agent/job_executor.go:81-100 | a path that turns an interrupted execution into a durable failure and flushes what is held; on success the cell is empty and the hub has that job finished |
| `JobExecutor.JobExecutor.ProcessNext` | internal/agent/job_executor.go:39-79 | a call is a path of the step system, with the others moving around every write, request and action; success leaves an empty cell and the found or claimed job finished on the hub; a calm call with acceptable messages succeeds |
| `Packer.SplitLogBatch` | internal/agent/client.go:183-216 | exact error conditions, and a greedy packing of the entries by JSON size |
| `Packer.EncodeLogNotificationBatches` | internal/storage/postgres/logstream.go:66-98 | exact error conditions, and a greedy packing below PostgreSQL's payload limit |
| `Packer.TextOfAppend` | internal/agent/client.go:199-213 | the packer's byte accounting is the JSON length: an item costs its text and a comma unless first |
| `Packer.AllFitIffItemsFit` | internal/agent/client.go:203-213 | all payloads are within the limit exactly when each single item is |
| `Packer.SecondItemOverruns` | internal/agent/client.go:194-213 | every greedy packing of a short item and one that is too long passes the check of the first and has a payload beyond the limit |
| `Packer.GreedyStaysAhead` | internal/agent/client.go:198-215 | after any number of payloads the greedy packing has placed at least as many items as any other |
| `Packer.GreedyIsMinimal` | internal/agent/client.go:183-216 | no order-keeping packing within the limit uses fewer payloads |
| `LogStore.AppendKeeps` | internal/logstream/logstream.go:254-300 | one call keeps every agent's list at the greatest keys of everything submitted for it |
| `LogStore.TopOfMerge` | internal/logstream/logstream.go:286-297 | merging new keys and cutting again still gives the greatest keys of all, evicted ones included |
| `LogStore.StoreHoldsTheLatest` | internal/logstream/logstream.go:254-300 | after any calls each list is in order of time and ID and holds the latest min(n, 10000) distinct keys ever submitted, evictions and re-submissions included |
| `LogStore.TopIsUnique` | internal/logstream/logstream.go:286-297 | that description fixes the keys |
| `LogStore.ReturnedExactly` | internal/logstream/logstream.go:274-285 | a call returns exactly the entries whose key was neither stored nor earlier in the batch, in their order |
| `LogStore.EntriesStay` | internal/logstream/logstream.go:274-300 | a stored entry is never altered: while its key is listed it stays as first taken, and whatever else is listed is new |
| `LogStore.IngestedExactly` | internal/logstream/logstream.go:102-125 | why an entry is refused, if it is, and every field of what is stored otherwise |
| `LogStore.SharedKeyIsLost` | internal/logstream/logstream.go:267-285 | an entry whose time and ID another agent of the scope holds is dropped; its own agent's list is then right exactly if it is full of later keys |
| `LogStore.SharedKeyInstance` | internal/logstream/logstream.go:267-285 | two requests to an empty store after which the second agent's only entry is missing |
| `LogStore.SearchFindsTheNewest` | internal/logstream/logstream.go:302-337 | a search returns the newest `limit` stored entries that match, in strictly increasing order |
| `LogStore.MemoryStore.ExistingKeys` | internal/logstream/logstream.go:267-272 | the index holds exactly the stored keys |
| `LogStore.MemoryStore.Settle` | internal/logstream/logstream.go:286-298 | the lists that grew are sorted and cut, the others kept |
| `LogStore.MemoryStore.AppendLogs` | internal/logstream/logstream.go:254-300 | refuses the whole batch if one agent is invalid; otherwise stores what is new and returns it |
| `LogStore.MemoryStore.SearchLogs` | internal/logstream/logstream.go:302-337 | the filtered, sorted, cut list of the agent, or an invalid scope |
| `LogStore.Service.Ingest` | internal/logstream/logstream.go:93-136 | a batch is stored whole, and what was new is published, exactly if the agent is valid and none of 1 to 1000 entries is refused for what it says or for want of an ID; otherwise the first refusal is returned and nothing changes |
| `LogRecord.PreimageIsInjective` | internal/agent/client.go:157-161 | the digested text determines agent and record when only the message may hold NUL |
| `LogRecord.PreimageNamesAgent` | internal/agent/client.go:157-161 | it determines the agent for any record |
| `LogRecord.PreimageReads` | internal/agent/client.go:157-161 | the digested text is agent, source ID, time, collector, source, severity and message, with NUL between |
| `LogRecord.SharedExactlyWhen` | internal/agent/client.go:157-161 | another record has the same digested text and time exactly if the text from the source on holds a severity between NULs at a second place |
| `LogRecord.AmbiguousMessage` | internal/agent/client.go:157-161 | a record without NULs but for one after a severity at the start of its message shares its text and time with another |
| `LogRecord.HubTakes` | internal/logstream/logstream.go:103-127 | the hub takes a record's entry exactly if the record is acceptable, and files it under the agent's digest with trimmed texts |
| `LogRecord.NamesArrive` | internal/logstream/logstream.go:209-237 | the hub's normalising functions read back the collector and severity the agent has written |
| `LogRecord.DigestsTell` | internal/agent/client.go:157-161 | without collisions digests tell the agents of a run, and clean records of one agent, apart |
| `LogRecord.ParsedIsAcceptable` | internal/agent/log_collector.go:151-157 | exactly which parsed records the hub takes; all well-formed ones with a time |
| `LogRecord.RefusedRecord` | internal/agent/log_collector.go:151-157 | a journal message of thirty thousand bytes that are not UTF-8 is not taken |
| `LogRecord.RequestsFit` | internal/agent/client.go:194-216 | with parsed records every request body is within 1 MiB, whatever JSON escaping does |
| `LogRecord.NotificationsFit` | internal/storage/postgres/logstream.go:66-98 | with valid tenant names every notification is below 8000 bytes |
| `LogRecord.BoundedIsSendable` | internal/agent/client.go:194-216 | a record within the parsers' bounds fits a request alone |
| `LogSafety.WindowKeepsTheLatest` | internal/agent/log_collector.go:66-78 | a window keeps all records exactly if at most 1000, otherwise drops the oldest; sorted by time |
| `LogSafety.CollectsExactly` | internal/agent/log_collector.go:43-125 | for every state, checkpoint and answer of the platform what `Collect` returns and leaves behind, and which records a new batch holds |
| `LogSafety.CommitsExactly` | internal/agent/log_collector.go:83-101 | for every state and outcome of saving what `Commit` leaves behind |
| `LogSafety.OversizeWindowLoses` | internal/agent/log_collector.go:66-78 | a window of 1001 records, all within its bounds, of which 1000 are kept |
| `LogSafety.StepKeeps` | internal/agent/runner.go:109-126 | every step of collector, sender, hub, network and other agents keeps the invariant joining checkpoint, batch in hand and accepted entries |
| `LogSafety.IdsTellAgents` | internal/agent/client.go:139-161 | without collisions the store's assumption holds of every run: an ID tells its agent |
| `LogSafety.ListIsExact` | internal/logstream/logstream.go:254-300 | in every run the agent's list is the greatest min(n, 10000) accepted keys, each entry the stored form of one of its records |
| `LogSafety.CoveredIsDelivered` | internal/agent/runner.go:109-126 | every record between the first commit's cursor and the checkpoint that no commit passed over has been accepted |
| `LogSafety.DeliveredExactlyOnce` | internal/agent/log_collector.go:43-101 | end to end: such a record is in the hub's list exactly once with its own content, or the list is full of later entries |
| `LogSafety.ActualDigestsTell` | internal/agent/client.go:157-161 | in the format in use the assumption on digests follows from collision freedom and records without NUL in source and source ID |
| `LogSafety.NothingLost` | internal/agent/log_collector.go:63-78 | no commit passes anything over while every window is answered in full and fits one batch |
| `LogSafety.LostForEver` | internal/agent/log_collector.go:66-101 | a record behind the checkpoint that is in no request is never delivered in any continuation |
| `LogSafety.RefusedRecordBlocks` | internal/agent/runner.go:113-120 | the checkpoint never passes a record the hub refuses, unless a commit passed it over uncollected |
| `LogProgress.SplitExists` | internal/agent/client.go:183-216 | a batch of at most 1000 records, each of which fits a request alone, can always be split into requests the hub may take |
| `LogProgress.NextReportCommits` | internal/agent/runner.go:109-126 | from every reachable state the next report in which nothing fails moves the checkpoint to the end of the batch in hand or of the new window, if the hub takes that batch |
| `LogProgress.BatchCommitsExactlyWhen` | internal/agent/runner.go:109-126 | the end of a batch in hand can become the checkpoint without a restart if and only if the hub takes all records of the batch |
| `LogProgress.RefusedRecordStops` | internal/agent/runner.go:113-120 | for any refused record there is a reachable state from which the checkpoint never gets past it |
| `LogSource.InFullExactlyWhen` | internal/agent/log_collector_linux.go:16-28 | a window is answered in full exactly if no record of it lies in the unfinished second and those after the cursor fit the lines |
| `LogSource.PassedOverIsLost` | internal/agent/log_collector.go:66-101 | what a commit passes over, if it is in no request by then, is never delivered in any continuation |
| `LogSource.UnfinishedSecondIsLost` | internal/agent/log_collector_linux.go:19-20 | a record written in the second in which the collector asks is such a one |
| `LogAgent.LogCollector.Load` | internal/agent/log_collector.go:103-125 | initialization takes the checkpoint, or fails and leaves the collector uninitialized |
| `LogAgent.LogCollector.Collect` | internal/agent/log_collector.go:43-81 | pending batch again, empty, error, or a new window; exactly the collector's step |
| `LogAgent.LogCollector.Commit` | internal/agent/log_collector.go:83-101 | the cursor moves only after the checkpoint is durable |
| `LogAgent.Runner.Prepare` | internal/agent/client.go:139-149 | IDs are assigned and the batch split; this never fails if each record fits a request alone |
| `LogAgent.Runner.Send` | internal/agent/client.go:150-154 | pieces are sent in order up to the first failure; with acceptable records and no loss all are acknowledged |
| `LogAgent.Runner.Report` | internal/agent/runner.go:109-126 | a path of the step system; the checkpoint moves only after every piece was acknowledged, and does move if nothing fails |
| `Alerting.ApplyKeeps` | internal/alerting/alerting.go:422-488 | every step keeps one unresolved incident per subject and events that spell each incident's story, times and status |
| `Alerting.RunKeeps` | internal/alerting/alerting.go:422-488 | so does every run |
| `Alerting.OneUnresolvedPerSubject` | internal/alerting/alerting.go:431-461 | in every reachable store a subject has at most one unresolved incident, so resolution does not depend on map order |
| `Alerting.EventsSpellTheStatus` | internal/alerting/alerting.go:422-488 | in every reachable store an incident's events spell opened, perhaps acknowledged, perhaps resolved, and its status is the last of them |
| `Alerting.StepAtSubject` | internal/alerting/alerting.go:251-277 | what one step does to one subject: raised unless suppressed, lowered by recovery, untouched otherwise; one more incident exactly on a rise |
| `Alerting.IncidentsAreEdges` | internal/alerting/alerting.go:251-277 | over any run an incident is active exactly if the signal is up, and as many were opened as the signal rose |
| `AlertService.RoundDecides` | internal/alerting/alerting.go:207-249 | after a round of evaluations each rule that applied is active exactly if breached and active before or not suppressed; no other subject changes |
| `AlertService.RoundIsFresh` | internal/alerting/alerting.go:251-272 | IDs drawn in a round are new at the time they are used |
| `AlertOutcome.RuleDecides` | internal/alerting/alerting.go:207-277 | a metric rule compares its own field with its threshold, a reachability rule the seconds since last seen; after a round, complete or not, its subject is unresolved if and only if that exceeds the limit and it was before or no window is open; what was opened or resolved has that value, rule, time and event; rules disabled, of the other kind or not reached change nothing |
| `AlertOutcome.FailsExactly` | internal/alerting/alerting.go:251-272 | where a round breaks off: at a blank agent, or at a breach whose windows cannot be listed, or which no window silences and which gets no ID |
| `AlertOutcome.OthersStay` | internal/alerting/alerting.go:207-277 | no other subject's incidents or events change |
| `AlertOutcome.AcknowledgedExactly` | internal/alerting/alerting.go:465-488 | which acknowledgements are refused, and every field of the incident and the event otherwise |
| `AlertService.MemoryStore.ListAlertRules` | internal/alerting/alerting.go:378-392 | the scope's rules, each exactly once, oldest first |
| `AlertService.MemoryStore.EnsureIncident` | internal/alerting/alerting.go:422-440 | adds the incident with its first event exactly if none is active, otherwise returns an active one |
| `AlertService.MemoryStore.ResolveIncident` | internal/alerting/alerting.go:441-464 | resolves the active incident and appends its event, or changes nothing |
| `AlertService.MemoryStore.AcknowledgeIncident` | internal/alerting/alerting.go:465-488 | acknowledges an open incident of the scope, else not found or conflict without effect |
| `AlertService.Service.EvaluateRule` | internal/alerting/alerting.go:251-277 | one evaluation is the step, or fails without effect: exactly for a blank agent, or for a breach whose windows cannot be listed or which, not suppressed, gets no ID |
| `AlertService.Service.EvaluateAll` | internal/alerting/alerting.go:207-249 | one step per enabled rule of the probe's kind, measured and evaluated at the two clock readings of each, up to the first that fails, whose error is returned; a blank agent is refused by the first of them without effect |
| `AlertService.Service.Acknowledge` | internal/alerting/alerting.go:279-289 | validation errors, store errors without effect, or the acknowledge step |
| `Telemetry.AppendWritesTheMap` | internal/telemetry/telemetry.go:96-121 | replace-or-insert and sort writes one entry of a map from time to sample and keeps the list strictly increasing |
| `Telemetry.ListIsDetermined` | internal/telemetry/telemetry.go:96-121 | the map fixes the list |
| `Telemetry.HistoryIsTheLatest` | internal/telemetry/telemetry.go:123-142 | the result is exactly the latest `limit` map entries in range, in order |
| `TelemetryReport.NewestIsExact` | internal/server/telemetry.go:41-50 | the gate opens exactly if no stored sample lies after this one, up to the bound |
| `TelemetryReport.TakenExactly` | internal/telemetry/telemetry.go:52-63 | which samples are taken, and every field of what is stored |
| `TelemetryRuns.ListsStandForBooks` | internal/telemetry/telemetry.go:96-121 | over any run of reports each list represents the samples last stored per time |
| `TelemetryRuns.NewestExactlyWhen` | internal/server/telemetry.go:41-50 | at any moment a report is found the newest exactly if no stored sample of its agent has a later time within the bound |
| `TelemetryRuns.OutOfOrderExactlyWhen` | internal/server/telemetry.go:32-56 | an older report is evaluated after a later-stamped one exactly if, when that one was evaluated, it had asked already or was to ask up to a bound before that stamp, with the clock read and used at different times |
| `TelemetryRuns.EvaluationGoesForwardExactlyWhen` | internal/server/telemetry.go:32-56 | the times evaluated for an agent never decrease exactly if no report evaluated was overtaken in one of these two ways |
| `TelemetryRuns.SerialGoesForward` | internal/server/telemetry.go:32-56 | reports handled one after the other are evaluated in the order of their times |
| `TelemetryRuns.OvertakingIsReachable` | internal/server/telemetry.go:32-56 | two handlers at once, both samples on time, can evaluate the older one last, if it asked before the newer one was stored |
| `TelemetryRuns.StaleReadingIsReachable` | internal/server/telemetry.go:41-50 | and so they can if it asks after the newer one was evaluated, but with a clock reading from before |
| `TelemetryRuns.FutureStampGoesBack` | internal/server/telemetry.go:41-44 | one microsecond beyond the allowance and an older one, handled after the other, is evaluated last with no overtaking |
| `TelemetryReport.MemoryStore.Append` | internal/telemetry/telemetry.go:96-121 | the replace, append and sort of the list, or an invalid agent |
| `TelemetryReport.MemoryStore.History` | internal/telemetry/telemetry.go:123-142 | the range loop and cut |
| `TelemetryReport.Service.Report` | internal/telemetry/telemetry.go:52-63 | which samples are refused; a taken one is stored truncated under its agent |
| `TelemetryReport.Service.History` | internal/telemetry/telemetry.go:65-74 | which queries are refused |
| `TelemetryRuns.Handler.Receive` | internal/server/telemetry.go:32-39 | the step Store from any state, exactly if the sample is taken |
| `TelemetryRuns.Handler.Bound` | internal/server/telemetry.go:41-44 | the step ReadClock from any state in which the report waits, and the bound that follows |
| `TelemetryRuns.Handler.Compare` | internal/server/telemetry.go:45-50 | the step Query from any state in which the report has read the clock, with the handler's answer |
| `TelemetryRuns.Handler.Alert` | internal/server/telemetry.go:51-54 | the step Evaluate from any state in which the report is due, as one round of the rules |
| `TelemetryRuns.Handler.HandleReport` | internal/server/telemetry.go:32-56 | a report by itself is the path Store, ReadClock, Query and, if newest, Evaluate; only a taken sample with none newer reaches the alerts, as one round; otherwise no incident changes |
| `TelemetryRuns.HandledIsSerial` | internal/server/telemetry.go:32-56 | from an idle server that path is one of the runs `SerialGoesForward` is about, and ends idle |
| `RateLimiter.RefusedExactlyWhen` | internal/ratelimit/ratelimit.go:38-55 | for any clock: a call is refused exactly if `max` granted calls of the key lie after every cutoff used for it since they were granted |
| `RateLimiter.DiffersExactlyWhen` | internal/ratelimit/ratelimit.go:38-55 | for any clock: the answer differs from that of the full history exactly if the window holds `max` granted calls of which fewer survived |
| `RateLimiter.PruningNeverShows` | internal/ratelimit/ratelimit.go:38-55 | with a clock that does not go back a call is refused exactly if the full history has `max` granted calls in the last window |
| `RateLimiter.LetThroughExactlyWhen` | internal/ratelimit/ratelimit.go:38-55 | with such a clock a call is let through if and only if fewer than `max` earlier calls of its key were let through less than a window before it |
| `RateLimiter.AtMostMaxPerWindow` | internal/ratelimit/ratelimit.go:38-55 | every half-open interval of the window's length holds at most `max` granted calls of a key |
| `RateLimiter.ClockGoingBackShows` | internal/ratelimit/ratelimit.go:42-54 | with a clock that goes back the answers differ |
| `RateLimiter.ClockGoingBackOverfills` | internal/ratelimit/ratelimit.go:42-54 | and an interval of the window's length can hold more than `max` granted calls |
| `RateLimiter.Limiter.Compact` | internal/ratelimit/ratelimit.go:43-48 | compaction within the slice's own array leaves exactly the attempts after the cutoff, in order |
| `RateLimiter.Limiter.Allow` | internal/ratelimit/ratelimit.go:38-55 | prunes the key, answers, records an allowed attempt; other keys keep theirs |
| `Enrollment.ApplyKeeps` | internal/storage/postgres/enrollment_state.go:14-136 | every transaction keeps the registry invariant and undoes no earlier decision |
| `Enrollment.RunKeeps` | internal/storage/postgres/enrollment_state.go:14-136 | so does every serial run of any number of hubs |
| `Enrollment.HubsShareOneAuthority` | internal/storage/postgres/enrollment_state.go:14-37 | any two loads in a run give the same authority, the first stored, which is the first candidate if there was none |
| `Enrollment.TokenYieldsOneAgent` | internal/storage/postgres/enrollment_state.go:83-121 | after a consumption every later attempt is told so, and the agent always resolves to the token's scope |
| `Enrollment.RevokedForEver` | internal/storage/postgres/enrollment_state.go:93-100 | a revoked token is never consumed |
| `Enrollment.RegisterIsExact` | internal/storage/postgres/enrollment_state.go:48-77 | a new token becomes the one live token of its scope and touches nothing else; a known one changes nothing |
| `Enrollment.AgentsComeFromTokens` | internal/storage/postgres/enrollment_state.go:83-136 | an agent enrolled in a run has consumed exactly one token and resolves to its scope |
| `Enrollment.ConsumeIsExact` | internal/storage/postgres/enrollment_state.go:83-121 | when a consumption is refused, with which error, and all it writes otherwise |
| `Enrollment.Store.LoadOrCreateEnrollmentAuthority` | internal/storage/postgres/enrollment_state.go:14-37 | the load step; an error does the whole step exactly if only the answer to the commit is lost, and nothing otherwise |
| `Enrollment.Store.RegisterEnrollmentToken` | internal/storage/postgres/enrollment_state.go:48-77 | insert and revoke row by row: the register step; a known token needs no commit; an error does the whole step exactly if only the answer to the commit is lost |
| `Enrollment.Store.ConsumeEnrollmentToken` | internal/storage/postgres/enrollment_state.go:83-121 | the consume step with its errors in order; an error does the whole step exactly if only the answer to the commit is lost |
| `Enrollment.Store.ResolveAgent` | internal/storage/postgres/enrollment_state.go:127-136 | the agent's row, not found, or a failed query |
| `EnrollmentAuthority.EnrolledIsKnownEverywhere` | internal/enrollment/authority.go:135-153 | the certificate an enrollment returns names the drawn agent, the request's key and its system in lower case, and holds for a day; at every hub and in every later state it is accepted, exactly while it and the authority's own hold, as that agent in the token's scope |
| `EnrollmentAuthority.AuthenticatedExactly` | internal/enrollment/authority.go:272-303 | which agent a certificate authenticates: one of this authority, while both hold, whose agent is registered |
| `EnrollmentAuthority.RenewedExactly` | internal/enrollment/authority.go:159-174 | a renewal is granted exactly to whom the old certificate authenticates, for the new key, the same agent and system, and a day |
| `EnrollmentAuthority.TokenUsedUpExactlyWhen` | internal/enrollment/authority.go:135-153 | a certificate is handed out if and only if all is in order and nothing fails; an error uses the token up, or changes anything, if and only if all is in order and the answer to the commit is lost |
| `EnrollmentAuthority.UsedUpForEver` | internal/enrollment/authority.go:135-153 | after that, whatever happens in between, no attempt with the token gets a certificate or changes anything, and each one in order is told the token is consumed |
| `EnrollmentAuthority.LostAnswerInstance` | internal/storage/postgres/enrollment_state.go:83-121 | it happens to a newly registered token |
| `EnrollmentAuthority.RenewalKeepsTheAgent` | internal/enrollment/authority.go:159-174 | over any number of renewals, with the registry changing meanwhile, an agent stays the agent it was enrolled as |
| `EnrollmentAuthority.Authority.EnrollContext` | internal/enrollment/authority.go:135-153 | the enrollment of `TokenUsedUpExactlyWhen`: result and registry for every request, drawn ID, outcome of making the certificate, which comes first, and outcome of the transaction |
| `EnrollmentAuthority.Authority.AuthenticateContext` | internal/enrollment/authority.go:272-303 | the registered agent of a certificate that holds under an authority certificate that does, otherwise an invalid identity; also if the registry cannot be read |
| `EnrollmentAuthority.Authority.RenewContext` | internal/enrollment/authority.go:159-174 | a certificate for the authenticated agent with its operating system, or an invalid identity, or the error of making the certificate |
| `EnrollmentAuthority.NewPersistentAuthority` | internal/enrollment/authority.go:86-109 | a hub starts with the shared authority and its token registered; which errors there are, and what is stored after each |
| `EnrollmentAuthority.MemoryTokenStore.ConsumeEnrollmentToken` | internal/enrollment/authority.go:183-197 | the in-memory store behaves as a registry holding one token |
| `EnrollmentAuthority.MemoryTokenStore.ResolveAgent` | internal/enrollment/authority.go:199-207 | likewise for resolving |

## Left out

- HTTP, TLS, X.509, PEM and SQL text: a request is a value, a certificate names its issuer, a transaction is one step.
- Platform actions, log sources and metric collectors: their results are nondeterministic values.
- Live log streams after publication (subscribe, notify and listen): buffers drop entries when full, so nothing exact holds.
- Lists for display (jobs, events, incidents, audit), fleet averages, RBAC, sessions, inventory, cloud accounts: single-branch filters and sorts.
- Validation of alert rules and maintenance requests before they are stored, and seeding of the host directory: single conditions.
- A log collector without a checkpoint store: the agent always has one.
- The Windows log source: it truncates both ends of a window to milliseconds and keeps the first 1000 records, so what
  `LogSource` says of seconds and of the oldest holds of milliseconds and of the newest there.
- Message texts formatted from floating-point numbers: they are parameters of the alert evaluation; metrics are reals.
- `LogRecord.Stamp`: decimal nanoseconds stand for the RFC 3339 text, which is likewise free of NUL and unique per instant.
- Subject alternative names: the agent ID of a certificate is a field rather than the parsed path of a SPIFFE URL.
- AlertService.Service.EvaluateAll: one method stands for the two evaluation loops of the source, which differ only in the rules they take and the value they compare.
- AlertService.Service.EvaluateRule: reading rules and writing incidents do not fail, as they do not in the in-memory store.
- TelemetryRuns.Handler.HandleReport: a handler without an alert service, which stores the sample and stops.
- JobExecutor.JobExecutor.ProcessNext: the platform action is a function of the job, chosen anew for each call; as an action runs at most once per job, that is every outcome there can be.
- RateLimiter.AtMostMaxPerWindow: requires a clock that does not go back, since without it the bound is false: `ClockGoingBackOverfills`.
- JobProgress.EveryReachableStateDrains: requires acceptable pending messages, for the reason `RefusedMessageBlocks` gives, and a non-empty lease; with well-formed texts `WellFormedDrains` does without the first.
- JobFairness.FairRunDrains: requires the same, and that no job is created for the agent during the run, since each puts the drained state off; `Reachable` allows any number before it.
- TelemetryRuns.OutOfOrderExactlyWhen: a round of rules is one step; what is said of its order holds of each rule by itself.
- Alerting.ApplyKeeps: listing the windows and writing the incident are one step; a window created between the two, with what other reports do before the incident is written, is not captured.
