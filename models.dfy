/** The job records, attempts and lifecycle events shared by the server's
    components (internal/models/job.go), and the two retry predicates. */
module Models {
  import opened Wrappers

  /** Instants are nanoseconds since an arbitrary epoch; durations are nanoseconds. */
  type Time = int

  const Second: int := 1_000_000_000

  /** The zero `time.Time{}`, written into an attempt's completion time by the worker. */
  const ZeroTime: Time := 0

  // Job statuses. The Go type is a string, so any other string is representable.
  const StatusPending    := "pending"
  const StatusProcessing := "processing"
  const StatusCompleted  := "completed"
  const StatusFailed     := "failed"
  const StatusCancelled  := "cancelled"

  const AllStatuses: seq<string> :=
    [StatusPending, StatusProcessing, StatusCompleted, StatusFailed, StatusCancelled]

  // Job priorities.
  const PriorityLow    := "low"
  const PriorityNormal := "normal"
  const PriorityHigh   := "high"

  const AllPriorities: seq<string> := [PriorityLow, PriorityNormal, PriorityHigh]

  // Event types the server emits (dispatcher.go and worker.go).
  const EventCreated   := "created"
  const EventStarted   := "started"
  const EventSucceeded := "succeeded"
  const EventFailed    := "failed"

  /** The opaque JSON payload of a job. */
  type Payload = string

  datatype Job = Job(
    id: string,
    queue: string,
    payload: Payload,
    maxRetries: int,
    runAt: Time,
    createdAt: Time,
    updatedAt: Time,
    status: string,
    priority: string,
    idempotencyKey: string,
    lockedBy: string,
    lockedAt: Option<Time>)

  datatype JobAttempt = JobAttempt(
    id: string,
    jobId: string,
    attemptNumber: int,
    startedAt: Time,
    completedAt: Option<Time>,
    status: string,
    errorMessage: string)

  /** A lifecycle event; `payload` and `error` are omitted from the JSON when empty. */
  datatype JobEvent = JobEvent(
    kind: string,
    jobId: string,
    queue: string,
    timestamp: Time,
    payload: Payload,
    error: string)

  function Min(a: int, b: int): int {
    if a <= b then a else b
  }

  predicate IsRetryable(j: Job) {
    j.maxRetries > 0
  }

  predicate ShouldRetry(j: Job, attempts: int) {
    attempts < j.maxRetries
  }

  /** `ShouldRetry` is downward closed in the number of attempts. */
  lemma ShouldRetryDownwardClosed(j: Job, a: int, b: int)
    requires ShouldRetry(j, a) && b <= a
    ensures ShouldRetry(j, b)
  {
  }

  /** A non-negative attempt count that may be retried implies the job is retryable. */
  lemma ShouldRetryImpliesRetryable(j: Job, a: int)
    requires 0 <= a
    ensures ShouldRetry(j, a) ==> IsRetryable(j)
    ensures !IsRetryable(j) ==> !ShouldRetry(j, a)
  {
  }

  /** A job that allows no retries is never retried, for any non-negative count. */
  lemma NoRetriesMeansNeverRetry(j: Job, a: int)
    requires j.maxRetries <= 0 && a >= 0
    ensures !IsRetryable(j) && !ShouldRetry(j, a)
  {
  }

  /** The status constants are exactly five pairwise distinct strings, the
      priorities exactly three. */
  lemma ConstantsDistinct()
    ensures |AllStatuses| == 5 && |AllPriorities| == 3
    ensures forall i, k :: 0 <= i < k < |AllStatuses| ==> AllStatuses[i] != AllStatuses[k]
    ensures forall i, k :: 0 <= i < k < |AllPriorities| ==> AllPriorities[i] != AllPriorities[k]
  {
  }
}
