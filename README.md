# gosynq job queue — a Dafny model

gosynq is a job queue. A Go server stores jobs in PostgreSQL. A dispatcher
enqueues jobs, and a pool of workers picks them up, runs a handler and
records each attempt. On a failure the worker computes a retry time but
never stores it. Lifecycle events (`created`, `started`,
`succeeded`, `failed`) go out over a WebSocket to an Angular dashboard, whose
job list shows the jobs, filters them and patches their status when an event
arrives.

This project models that core and proves properties of the model:

- `models.dfy` (`Models`) covers the job, attempt and event records, the
  status, priority and event constants, and the retry predicates.
- `effects.dfy` (`Effects`) is the trace of repository calls and event sends
  that one server operation makes. "Persisted before announced" means
  "comes earlier in the trace".
- `worker.dfy` (`Worker`) covers the retry delay and everything `processJob`,
  `handleJobFailure` and `pickAndProcessJob` do, including every error path.
  Each repository call and the job handler are inputs, given as the answer
  they return.
- `dispatcher.dfy` (`Dispatcher`) is `EnqueueJob`: the defaulting, the
  insert, and then the `created` event.
- `repository.dfy` (`Repository`) holds the `jobs` and `job_attempts` tables
  in memory as the class `JobsTable`. Each SQL statement becomes a method
  with that statement's effect on the rows. `ORDER BY … LIMIT` is a selection
  loop with its sortedness proved, and `GROUP BY status` is proved to count
  each status present.
- `websocket.dfy` (`WebsocketChannel`) models the client's socket service as
  a state machine of sockets and pending reconnect timers.
- `jobs_view.dfy` (`JobsView`) models the job list component as the class
  `JobsComponent`, plus the pure filter, status patch and status display
  functions.

Time is an integer count of nanoseconds on the server and of milliseconds in
the browser. `time.Now()` and SQL `NOW()` become a parameter `now`. The sort
order of the priority column is an abstract ranking `rank`.

Behaviour of the code worth knowing:

- A load replaces the job list wholesale; nothing merges by id.
- The event list only grows: every event is put at its front and none is
  ever removed.
- `close` only completes the current socket. Its completion schedules a
  reconnect like any other, as `CloseDoesNotStopReconnect` shows.
- After a status patch the component shows every job unfiltered. It does not
  re-apply the filters.
- `handleJobFailure` computes a retry time but never writes it back with
  `UpdateJobForRetry`, so a failed job stays `failed` in the table.
- The attempt number is always 1, and the attempt's completion time is Go's
  zero time.

## Model

| member | source | states |
|---|---|---|
| Models.ConstantsDistinct | internal/models/job.go:10-24 | the five statuses are pairwise distinct strings, and so are the three priorities |
| Models.ShouldRetryDownwardClosed | internal/models/job.go:81-83 | if a job may be retried after `a` attempts, it may be retried after any fewer |
| Models.ShouldRetryImpliesRetryable | internal/models/job.go:77-83 | for a non-negative attempt count, ShouldRetry implies IsRetryable, and a non-retryable job is never retried |
| Models.NoRetriesMeansNeverRetry | internal/models/job.go:77-83 | a job with `max_retries <= 0` is neither retryable nor retried |
| Worker.Pow2Monotone | internal/worker/worker.go:209-210 | the power of two is at least 1 and monotone in the exponent |
| Worker.Pow2OfMaxExponent | internal/worker/worker.go:209 | the capped exponent 10 gives the factor 1024 |
| Worker.ExponentialDelayFormula | internal/worker/worker.go:208-210 | exponential delay is 2^attempt intervals up to attempt 10, and 2^10 intervals from there on |
| Worker.ExponentialDelayCapped | internal/worker/worker.go:209-210 | from attempt 10 on, the delay is exactly 1024 intervals |
| Worker.ExponentialDelayMonotone | internal/worker/worker.go:208-210 | the first delay is one interval, and the delay never decreases as attempts grow |
| Worker.NegativeAttemptNoDelay | internal/worker/worker.go:209-210 | a negative attempt truncates the fractional power to a zero delay |
| Worker.FixedAndUnknownAgree | internal/worker/worker.go:211-214 | "fixed" and every unrecognised strategy give one interval, whatever the attempt |
| Worker.DefaultStrategyDelays | internal/config/config.go:62-67 | the default policy (exponential, 5 s) waits 5, 10, 20, 40 and 80 s for attempts 0 to 4 |
| Worker.HandleJobFailure | internal/worker/worker.go:163-204 | result, error and effect trace equal its functional form FailureOutcome in every branch |
| Worker.FailurePersistsBeforeEvent | internal/worker/worker.go:164-178 | `failed` is written first; if the write fails, the wrapped error is returned and no event is sent; otherwise exactly the `failed` event with the handler's error is sent |
| Worker.RetryBranch | internal/worker/worker.go:180-203 | the retry is taken iff `max_retries > 0` and fewer attempts exist; it only sets the in-memory job to pending with run time now + delay, writes nothing and returns no error |
| Worker.ProcessJob | internal/worker/worker.go:103-161 | result, error and trace equal its functional form ProcessOutcome, including the three wrapped error paths |
| Worker.SuccessPersistsBeforeEvent | internal/worker/worker.go:138-160 | on handler success, `completed` is written before the only event, `succeeded`; a failed write returns the wrapped error and sends nothing; the job is unchanged |
| Worker.ProcessSendsAtMostOneEvent | internal/worker/worker.go:103-161 | processing sends at most one event, and it is `failed` or `succeeded` |
| Worker.PickAndProcessJob | internal/worker/worker.go:74-101 | result, error and trace equal its functional form PickOutcome: pick error wrapped, no job means no work, processing error wrapped |
| Worker.StartedComesFirst | internal/worker/worker.go:74-101 | a picked job's first event is `started`, followed by at most one `failed`/`succeeded`; without a picked job nothing is sent and no job is returned |
| Dispatcher.WithDefaults | internal/dispatcher/dispatcher.go:118-127 | each empty status, priority and queue becomes pending, normal and "default"; non-empty values and every other field are kept |
| Dispatcher.DefaultsIdempotent | internal/dispatcher/dispatcher.go:118-127 | defaulting twice is defaulting once |
| Dispatcher.EnqueueJob | internal/dispatcher/dispatcher.go:117-145 | result, error and trace equal its functional form EnqueueOutcome |
| Dispatcher.CreatedOnlyAfterInsert | internal/dispatcher/dispatcher.go:129-144 | the defaulted job is inserted first; a failed insert returns the wrapped error and sends nothing; a successful one sends one `created` event with the job's id and defaulted queue |
| Repository.ScanLosesOnlyNullOwner | internal/repository/postgres.go:62-68 | scanning two rows gives equal jobs iff the rows are equal or differ only in a NULL versus empty lock owner |
| Repository.EmptyFiltersMatchAll | internal/repository/postgres.go:164-165 | with both filters empty, every row matches |
| Repository.TopByKey | internal/repository/postgres.go:166-167 | the first min(limit, n) keys in sorted order: distinct, ordered, and no key left out sorts before one taken |
| Repository.CountsSumToTotal | internal/repository/postgres.go:243-247 | the counts of a GROUP BY over some rows add up to the number of those rows |
| Repository.CountsMeaning | internal/repository/postgres.go:243-247 | grouping all rows gives one entry per status present, holding its row count (at least 1), and no entry for an absent status |
| Repository.JobsTable.GetJobByID | internal/repository/postgres.go:37-71 | no job (and no error) iff the id is unknown; otherwise the scanned row |
| Repository.JobsTable.UpdateJobStatus | internal/repository/postgres.go:122-131 | only the named row changes (status set, lock cleared, updated_at now); an unknown id changes nothing; the lock invariant is kept |
| Repository.JobsTable.UpdateJobForRetry | internal/repository/postgres.go:133-142 | only the named row changes (pending, new run_at, lock cleared); the lock invariant is kept |
| Repository.JobsTable.PickJob | internal/repository/postgres.go:73-120 | no job iff no due pending row; otherwise the picked row is due, pending, first by priority then age, returned as read, and is the only row changed, now locked by the worker |
| Repository.JobsTable.CreateJobAttempt | internal/repository/postgres.go:144-157 | the attempt is appended to the attempts table |
| Repository.JobsTable.ListJobs | internal/repository/postgres.go:159-203 | min(limit, matches) distinct matching rows, newest first, no unlisted match newer than a listed one, each scanned from its row |
| Repository.JobsTable.GetJobAttempts | internal/repository/postgres.go:205-240 | exactly the job's attempts, each once, in ascending attempt number |
| Repository.JobsTable.GetJobStats | internal/repository/postgres.go:242-266 | keys are the statuses present, each value is that status's row count, and the values sum to the number of rows |
| WebsocketChannel.WebsocketService.constructor | frontend/src/app/services/websocket.service.ts:22-24 | the service starts with one live socket and no timer |
| WebsocketChannel.WebsocketService.Connect | frontend/src/app/services/websocket.service.ts:26-45 | a new socket becomes the current one; nothing else changes |
| WebsocketChannel.WebsocketService.Reconnect | frontend/src/app/services/websocket.service.ts:47-52 | one timer due 3000 ms from now is added |
| WebsocketChannel.WebsocketService.OnMessage | frontend/src/app/services/websocket.service.ts:32-35 | a message of the current socket is emitted unchanged, after all earlier ones |
| WebsocketChannel.WebsocketService.OnError | frontend/src/app/services/websocket.service.ts:36-39 | the current socket ends and exactly one reconnect is pending |
| WebsocketChannel.WebsocketService.OnComplete | frontend/src/app/services/websocket.service.ts:40-43 | the current socket ends and exactly one reconnect is pending |
| WebsocketChannel.WebsocketService.FireTimer | frontend/src/app/services/websocket.service.ts:49-51 | a due timer connects once and leaves no timer pending |
| WebsocketChannel.WebsocketService.SendMessage | frontend/src/app/services/websocket.service.ts:54-60 | the message is forwarded to the current socket iff it is open; otherwise nothing changes |
| WebsocketChannel.WebsocketService.Close | frontend/src/app/services/websocket.service.ts:62-66 | only a complete() on the current socket is recorded; pending timers and sockets stay |
| WebsocketChannel.CloseDoesNotStopReconnect | frontend/src/app/services/websocket.service.ts:62-66 | three errors give three reconnects due at 3000, 6000 and 9000 ms; `close` stops neither the pending reconnect nor the one its completion triggers, due at 12000 ms: 5 connects |
| JobsView.FilterMembership | frontend/src/app/components/jobs/jobs.component.ts:88-94 | a job is in the view iff it is among the jobs and passes both filters |
| JobsView.FilterAppend | frontend/src/app/components/jobs/jobs.component.ts:89-93 | filtering splits over concatenation, so the view keeps the jobs' order |
| JobsView.FilterIdempotent | frontend/src/app/components/jobs/jobs.component.ts:88-94 | filtering a filtered view changes nothing |
| JobsView.FilterWithoutFilters | frontend/src/app/components/jobs/jobs.component.ts:90-91 | with both filters empty, the view is every job |
| JobsView.FindJobIndex | frontend/src/app/components/jobs/jobs.component.ts:77 | -1 iff no job has the id; otherwise the index of the first job that has it |
| JobsView.PatchStatusAt | frontend/src/app/components/jobs/jobs.component.ts:77-81 | patching is replacing the status of the first job with the id, and only that |
| JobsView.PatchWithoutMatch | frontend/src/app/components/jobs/jobs.component.ts:77-84 | without a job with that id, patching changes nothing |
| JobsView.StatusDisplayTotal | frontend/src/app/components/jobs/jobs.component.ts:124-144 | the five statuses get five distinct colours and badges, none of them the fallback; any other string gets purple and is shown as is |
| JobsView.ServerEventTypesFallThrough | frontend/src/app/components/jobs/jobs.component.ts:135-144 | `created`, `started` and `succeeded` copied into a status are no status and fall through to purple and the raw word; only `failed` is a status |
| JobsView.JobsComponent.constructor | frontend/src/app/components/jobs/jobs.component.ts:22-30 | everything starts empty, not loading, with no error |
| JobsView.JobsComponent.SetFilters | frontend/src/app/components/jobs/jobs.component.ts:24-25 | the two filter fields take the bound values |
| JobsView.JobsComponent.BeginLoad | frontend/src/app/components/jobs/jobs.component.ts:51-55 | loading is set, the error cleared, and one fetch with the current filters is issued |
| JobsView.JobsComponent.LoadSucceeded | frontend/src/app/components/jobs/jobs.component.ts:57-61 | the fetched list replaces the jobs and the view wholesale, and loading ends |
| JobsView.JobsComponent.LoadFailed | frontend/src/app/components/jobs/jobs.component.ts:62-66 | the error is the prefixed message, or "Unknown error" for an empty one; loading ends; jobs and view are kept |
| JobsView.JobsComponent.HandleJobEvent | frontend/src/app/components/jobs/jobs.component.ts:70-86 | the event goes to the front of the log; a known id patches the first such job and shows all jobs unfiltered; an unknown id changes no job and starts a reload |
| JobsView.JobsComponent.ApplyFilters | frontend/src/app/components/jobs/jobs.component.ts:88-94 | the view becomes the jobs passing both filters |

## Left out

- Database errors inside the table methods (connection, scan, commit) are not modelled. The worker and dispatcher instead take every repository answer, error included, as an input.
- Transactions, serializable isolation and `FOR UPDATE SKIP LOCKED` are left out, because concurrent workers are not modelled; PickJob is one atomic step.
- CreateJob (the INSERT with its column defaults) is not a table method. EnqueueJob takes its answer, the timestamps the database returns, as an input.
- Repository.JobsTable.ListJobs: the limit is a `nat`. A negative LIMIT, which PostgreSQL rejects, is not modelled.
- Worker.RetryDelay: integers are unbounded, so the int64 overflow of `time.Duration` for huge intervals is not modelled. The float `math.Pow` is modelled exactly as a power of two, which it is for exponents up to 10.
- The visibility-timeout context and cancellation in processJob are left out, because timeouts and goroutines are not modelled.
- The worker's polling loop, its sleeps and jitter, metrics, logging and `ToJSON` are I/O or timing and are left out.
- JSON encoding and decoding between server and client are left out. Each side has its own event record.
- The attempt id in processJob comes from the clock. It is an input here, and the same id is used for both attempt inserts, as in the code.
- Each server call takes one `now`, although the code reads the clock separately at each step.
- JobsView.JobsComponent.HandleJobEvent: jobs are values. In the code, `filteredJobs` shares job objects with `jobs`, so a status patch also shows through an older filtered view. The model replaces the view right after the patch, so only the moment between the two lines is lost.
- The component's subscription, `ngOnInit`, `ngOnDestroy`, and `cancelJob`/`retryJob` (which need `confirm` and HTTP) are left out. A load is BeginLoad followed by LoadSucceeded or LoadFailed.
- WebsocketChannel.WebsocketService: an rxjs socket's `closed` flag is abstracted as Ended once its error or completion is delivered. The URL and the console output are left out.
