/** The worker's retry policy and the ordering of its repository writes and
    event sends (internal/worker/worker.go). Repository calls and the job
    handler are inputs: each is given as the response it returns. */
module Worker {
  import opened Wrappers
  import opened Models
  import opened Effects

  datatype RetryStrategy = RetryStrategy(kind: string, interval: int, maxAttempts: int)

  datatype WorkerConfig = WorkerConfig(visibilityTimeout: Time, retryStrategy: RetryStrategy)

  /** What the repository answers to each call one job run can make. */
  datatype Responses = Responses(
    createAttempt: Outcome<string>,   // first CreateJobAttempt
    updateAttempt: Outcome<string>,   // second CreateJobAttempt, after the handler ran
    updateStatus: Outcome<string>,    // UpdateJobStatus
    attempts: Result<seq<JobAttempt>, string>)  // GetJobAttempts

  /** The updated job (the Go code mutates it in place), the returned
      error and the effects, in order. */
  datatype StepResult = StepResult(job: Job, err: Option<string>, trace: seq<Effect>)

  const MaxExponent: int := 10

  // ---------------------------------------------------------------- retry delay

  function Pow2(n: nat): nat {
    if n == 0 then 1 else 2 * Pow2(n - 1)
  }

  /** `time.Duration(math.Pow(2, e))`: for a negative exponent the power is a
      fraction below one, which the conversion truncates to zero. */
  function TruncatedPow2(e: int): nat {
    if e < 0 then 0 else Pow2(e)
  }

  /** calculateRetryDelay, in nanoseconds. */
  function RetryDelay(s: RetryStrategy, attempt: int): Time {
    if s.kind == "exponential" then
      TruncatedPow2(Min(attempt, MaxExponent)) * Second * s.interval
    else if s.kind == "fixed" then
      s.interval * Second
    else
      s.interval * Second
  }

  lemma {:induction false} Pow2Monotone(a: nat, b: nat)
    requires a <= b
    ensures 1 <= Pow2(a) <= Pow2(b)
    decreases b
  {
    if a < b {
      Pow2Monotone(a, b - 1);
    } else if a > 0 {
      Pow2Monotone(a - 1, a - 1);
    }
  }

  lemma Pow2OfMaxExponent()
    ensures Pow2(MaxExponent) == 1024
  {
    assert Pow2(2) == 4;
    assert Pow2(4) == 16;
    assert Pow2(6) == 64;
    assert Pow2(8) == 256;
  }

  lemma MulMonotone(x: int, y: int, c: int)
    requires x <= y && 0 <= c
    ensures x * c <= y * c
  {
  }

  /** With the exponential strategy and a non-negative attempt the delay is
      2^min(attempt, 10) times the interval, in seconds. */
  lemma ExponentialDelayFormula(s: RetryStrategy, attempt: int)
    requires s.kind == "exponential" && 0 <= attempt
    ensures attempt <= MaxExponent ==> RetryDelay(s, attempt) == Pow2(attempt) * s.interval * Second
    ensures attempt >= MaxExponent ==> RetryDelay(s, attempt) == Pow2(MaxExponent) * s.interval * Second
  {
  }

  /** From the tenth attempt on, the exponential delay stays at 1024 intervals. */
  lemma ExponentialDelayCapped(s: RetryStrategy, attempt: int)
    requires s.kind == "exponential" && attempt >= MaxExponent
    ensures RetryDelay(s, attempt) == 1024 * s.interval * Second
  {
    Pow2OfMaxExponent();
  }

  /** The exponential delay starts at one interval and never decreases. */
  lemma ExponentialDelayMonotone(s: RetryStrategy, a: int, b: int)
    requires s.kind == "exponential" && 0 <= s.interval && 0 <= a <= b
    ensures RetryDelay(s, 0) == s.interval * Second
    ensures RetryDelay(s, a) <= RetryDelay(s, b)
  {
    var pa, pb := Pow2(Min(a, MaxExponent)), Pow2(Min(b, MaxExponent));
    Pow2Monotone(Min(a, MaxExponent), Min(b, MaxExponent));
    MulMonotone(pa, pb, Second);
    MulMonotone(pa * Second, pb * Second, s.interval);
  }

  /** A negative attempt count gives no delay at all under the exponential strategy. */
  lemma NegativeAttemptNoDelay(s: RetryStrategy, attempt: int)
    requires s.kind == "exponential" && attempt < 0
    ensures RetryDelay(s, attempt) == 0
  {
  }

  /** "fixed" and every unrecognised strategy give one interval, whatever the attempt. */
  lemma FixedAndUnknownAgree(s: RetryStrategy, t: RetryStrategy, a: int, b: int)
    requires s.kind == "fixed" && t.kind != "exponential" && s.interval == t.interval
    ensures RetryDelay(s, a) == RetryDelay(t, b) == s.interval * Second
  {
  }

  /** The server's default policy (exponential, interval 5 s, 5 attempts). */
  const DefaultStrategy := RetryStrategy("exponential", 5, 5)

  lemma DefaultStrategyDelays()
    ensures RetryDelay(DefaultStrategy, 0) == 5 * Second
    ensures RetryDelay(DefaultStrategy, 1) == 10 * Second
    ensures RetryDelay(DefaultStrategy, 2) == 20 * Second
    ensures RetryDelay(DefaultStrategy, 3) == 40 * Second
    ensures RetryDelay(DefaultStrategy, 4) == 80 * Second
  {
    assert Pow2(4) == 16;
  }

  // ------------------------------------------------------------ job failure

  function FailedEvent(job: Job, handlerError: string, now: Time): JobEvent {
    JobEvent(EventFailed, job.id, job.queue, now, job.payload, handlerError)
  }

  /** Whether handleJobFailure takes its retry branch. */
  predicate RetryTaken(job: Job, r: Responses) {
    r.updateStatus.Pass? && IsRetryable(job) && r.attempts.Ok? && ShouldRetry(job, |r.attempts.value|)
  }

  /** What handleJobFailure does, as a value. */
  function FailureOutcome(config: WorkerConfig, job: Job, handlerError: string, now: Time, r: Responses): StepResult {
    var persist := Call(UpdateJobStatusCall(job.id, StatusFailed), r.updateStatus.Pass?);
    if r.updateStatus.Fail? then
      StepResult(job, Some("failed to update job status: " + r.updateStatus.error), [persist])
    else
      var sent := [persist, Send(FailedEvent(job, handlerError, now))];
      if !IsRetryable(job) then
        StepResult(job, None, sent)
      else
        var trace := sent + [Call(GetJobAttemptsCall(job.id), r.attempts.Ok?)];
        if r.attempts.Err? then
          StepResult(job, Some("failed to get job attempts: " + r.attempts.error), trace)
        else if ShouldRetry(job, |r.attempts.value|) then
          var delay := RetryDelay(config.retryStrategy, |r.attempts.value|);
          StepResult(job.(status := StatusPending, runAt := now + delay), None, trace)
        else
          StepResult(job, None, trace)
  }

  method HandleJobFailure(config: WorkerConfig, job: Job, handlerError: string, now: Time, r: Responses)
    returns (updated: Job, err: Option<string>, trace: seq<Effect>)
    ensures StepResult(updated, err, trace) == FailureOutcome(config, job, handlerError, now, r)
  {
    updated := job;
    trace := [Call(UpdateJobStatusCall(job.id, StatusFailed), r.updateStatus.Pass?)];
    if r.updateStatus.Fail? {
      return updated, Some("failed to update job status: " + r.updateStatus.error), trace;
    }
    trace := trace + [Send(FailedEvent(job, handlerError, now))];
    if IsRetryable(updated) {
      trace := trace + [Call(GetJobAttemptsCall(job.id), r.attempts.Ok?)];
      if r.attempts.Err? {
        return updated, Some("failed to get job attempts: " + r.attempts.error), trace;
      }
      var currentAttempts := |r.attempts.value|;
      if ShouldRetry(updated, currentAttempts) {
        var delay := RetryDelay(config.retryStrategy, currentAttempts);
        updated := updated.(status := StatusPending);
        updated := updated.(runAt := now + delay);
        return updated, None, trace;
      }
    }
    return updated, None, trace;
  }

  /** `failed` is persisted first; the `failed` event, carrying the handler's
      error text, follows only if that write succeeded. */
  lemma FailurePersistsBeforeEvent(config: WorkerConfig, job: Job, handlerError: string, now: Time, r: Responses)
    ensures var o := FailureOutcome(config, job, handlerError, now, r);
      && |o.trace| >= 1
      && o.trace[0] == Call(UpdateJobStatusCall(job.id, StatusFailed), r.updateStatus.Pass?)
      && (r.updateStatus.Fail? ==>
            o.err == Some("failed to update job status: " + r.updateStatus.error) && Sent(o.trace) == [] && o.job == job)
      && (r.updateStatus.Pass? ==> |o.trace| >= 2 && Sent(o.trace) == [FailedEvent(job, handlerError, now)])
  {
    var o := FailureOutcome(config, job, handlerError, now, r);
    var persist := Call(UpdateJobStatusCall(job.id, StatusFailed), r.updateStatus.Pass?);
    if r.updateStatus.Fail? {
      assert Sent(o.trace) == Sent([persist]);
      assert Sent([persist]) == [] + Sent([]);
    } else {
      var sent := [persist, Send(FailedEvent(job, handlerError, now))];
      assert Sent(sent) == [FailedEvent(job, handlerError, now)] by {
        assert sent[1..] == [Send(FailedEvent(job, handlerError, now))];
        assert sent[1..][1..] == [];
      }
      if IsRetryable(job) {
        var tail := [Call(GetJobAttemptsCall(job.id), r.attempts.Ok?)];
        SentAppend(sent, tail);
        assert Sent(tail) == [] + Sent([]) by { assert tail[1..] == []; }
        assert o.trace == sent + tail;
      }
    }
  }

  /** The retry branch is taken exactly when the job allows retries and fewer
      attempts than that are recorded; it only changes the job in memory, to
      `pending` and a later run time, writes nothing to the repository and
      returns no error. */
  lemma RetryBranch(config: WorkerConfig, job: Job, handlerError: string, now: Time, r: Responses)
    requires r.updateStatus.Pass? && r.attempts.Ok?
    ensures var o := FailureOutcome(config, job, handlerError, now, r);
      && (RetryTaken(job, r) <==> job.maxRetries > 0 && |r.attempts.value| < job.maxRetries)
      && o.err == None
      && (RetryTaken(job, r) ==>
            o.job == job.(status := StatusPending,
                          runAt := now + RetryDelay(config.retryStrategy, |r.attempts.value|)))
      && (!RetryTaken(job, r) ==> o.job == job)
      && (forall i :: 0 <= i < |o.trace| && o.trace[i].Call? && i != 0 ==> o.trace[i].call.GetJobAttemptsCall?)
  {
  }

  // ------------------------------------------------------------ processing a job

  function InitialAttempt(job: Job, attemptId: string, now: Time): JobAttempt {
    // The attempt number is always 1 (the source leaves counting as a TODO).
    JobAttempt(attemptId, job.id, 1, now, None, StatusProcessing, "")
  }

  function FinishedAttempt(a: JobAttempt, handler: Outcome<string>): JobAttempt {
    match handler
    case Fail(e) => a.(status := StatusFailed, errorMessage := e, completedAt := Some(ZeroTime))
    case Pass => a.(status := StatusCompleted, completedAt := Some(ZeroTime))
  }

  function SucceededEvent(job: Job, now: Time): JobEvent {
    JobEvent(EventSucceeded, job.id, job.queue, now, job.payload, "")
  }

  /** What processJob does, as a value. */
  function ProcessOutcome(config: WorkerConfig, job: Job, attemptId: string, now: Time,
                          handler: Outcome<string>, r: Responses): StepResult
  {
    var first := InitialAttempt(job, attemptId, now);
    var create := Call(CreateJobAttemptCall(first), r.createAttempt.Pass?);
    if r.createAttempt.Fail? then
      StepResult(job, Some("failed to create job attempt: " + r.createAttempt.error), [create])
    else
      var record := Call(CreateJobAttemptCall(FinishedAttempt(first, handler)), r.updateAttempt.Pass?);
      if r.updateAttempt.Fail? then
        StepResult(job, Some("failed to update job attempt: " + r.updateAttempt.error), [create, record])
      else if handler.Fail? then
        var f := FailureOutcome(config, job, handler.error, now, r);
        StepResult(f.job, f.err, [create, record] + f.trace)
      else
        var persist := Call(UpdateJobStatusCall(job.id, StatusCompleted), r.updateStatus.Pass?);
        if r.updateStatus.Fail? then
          StepResult(job, Some("failed to update job status: " + r.updateStatus.error), [create, record, persist])
        else
          StepResult(job, None, [create, record, persist, Send(SucceededEvent(job, now))])
  }

  method ProcessJob(config: WorkerConfig, job: Job, attemptId: string, now: Time,
                    handler: Outcome<string>, r: Responses)
    returns (updated: Job, err: Option<string>, trace: seq<Effect>)
    ensures StepResult(updated, err, trace) == ProcessOutcome(config, job, attemptId, now, handler, r)
  {
    var attempt := InitialAttempt(job, attemptId, now);
    trace := [Call(CreateJobAttemptCall(attempt), r.createAttempt.Pass?)];
    if r.createAttempt.Fail? {
      return job, Some("failed to create job attempt: " + r.createAttempt.error), trace;
    }
    if handler.Fail? {
      attempt := attempt.(status := StatusFailed);
      attempt := attempt.(errorMessage := handler.error);
      attempt := attempt.(completedAt := Some(ZeroTime));
      trace := trace + [Call(CreateJobAttemptCall(attempt), r.updateAttempt.Pass?)];
      if r.updateAttempt.Fail? {
        return job, Some("failed to update job attempt: " + r.updateAttempt.error), trace;
      }
      var failureTrace;
      updated, err, failureTrace := HandleJobFailure(config, job, handler.error, now, r);
      trace := trace + failureTrace;
      return;
    }
    attempt := attempt.(status := StatusCompleted);
    attempt := attempt.(completedAt := Some(ZeroTime));
    trace := trace + [Call(CreateJobAttemptCall(attempt), r.updateAttempt.Pass?)];
    if r.updateAttempt.Fail? {
      return job, Some("failed to update job attempt: " + r.updateAttempt.error), trace;
    }
    trace := trace + [Call(UpdateJobStatusCall(job.id, StatusCompleted), r.updateStatus.Pass?)];
    if r.updateStatus.Fail? {
      return job, Some("failed to update job status: " + r.updateStatus.error), trace;
    }
    trace := trace + [Send(SucceededEvent(job, now))];
    return job, None, trace;
  }

  /** On handler success `completed` is persisted, and only then is the
      `succeeded` event sent; a failed status write returns an error and sends
      nothing. The job itself is left as it was. */
  lemma SuccessPersistsBeforeEvent(config: WorkerConfig, job: Job, attemptId: string, now: Time, r: Responses)
    requires r.createAttempt.Pass? && r.updateAttempt.Pass?
    ensures var o := ProcessOutcome(config, job, attemptId, now, Pass, r);
      && |o.trace| >= 3
      && o.trace[2] == Call(UpdateJobStatusCall(job.id, StatusCompleted), r.updateStatus.Pass?)
      && o.job == job
      && (r.updateStatus.Pass? ==> o.err == None && Sent(o.trace) == [SucceededEvent(job, now)]
                                   && o.trace[|o.trace| - 1] == Send(SucceededEvent(job, now)))
      && (r.updateStatus.Fail? ==> o.err == Some("failed to update job status: " + r.updateStatus.error)
                                   && Sent(o.trace) == [])
  {
    var o := ProcessOutcome(config, job, attemptId, now, Pass, r);
    var first := InitialAttempt(job, attemptId, now);
    var calls := [Call(CreateJobAttemptCall(first), true),
                  Call(CreateJobAttemptCall(FinishedAttempt(first, Pass)), true),
                  Call(UpdateJobStatusCall(job.id, StatusCompleted), r.updateStatus.Pass?)];
    SentOnlyCalls(calls);
    if r.updateStatus.Pass? {
      assert o.trace == calls + [Send(SucceededEvent(job, now))];
      SentAppend(calls, [Send(SucceededEvent(job, now))]);
      assert [Send(SucceededEvent(job, now))][1..] == [];
    } else {
      assert o.trace == calls;
    }
  }

  /** Every event the worker sends while processing a job is `failed` or
      `succeeded`, and at most one is sent. */
  lemma ProcessSendsAtMostOneEvent(config: WorkerConfig, job: Job, attemptId: string, now: Time,
                                   handler: Outcome<string>, r: Responses)
    ensures var ev := Sent(ProcessOutcome(config, job, attemptId, now, handler, r).trace);
      && |ev| <= 1
      && (forall e :: e in ev ==> e.kind == EventFailed || e.kind == EventSucceeded)
  {
    var o := ProcessOutcome(config, job, attemptId, now, handler, r);
    var first := InitialAttempt(job, attemptId, now);
    var create := Call(CreateJobAttemptCall(first), r.createAttempt.Pass?);
    var record := Call(CreateJobAttemptCall(FinishedAttempt(first, handler)), r.updateAttempt.Pass?);
    assert Sent([create, record]) == [] by {
      assert [create, record][1..][1..] == [];
    }
    if r.createAttempt.Fail? {
      assert [create][1..] == [];
    } else if r.updateAttempt.Fail? {
    } else if handler.Fail? {
      var f := FailureOutcome(config, job, handler.error, now, r);
      FailurePersistsBeforeEvent(config, job, handler.error, now, r);
      SentAppend([create, record], f.trace);
    } else {
      SuccessPersistsBeforeEvent(config, job, attemptId, now, r);
    }
  }

  // ------------------------------------------------------------ pick and process

  function StartedEvent(job: Job, now: Time): JobEvent {
    JobEvent(EventStarted, job.id, job.queue, now, job.payload, "")
  }

  datatype PickResult = PickResult(job: Option<Job>, err: Option<string>, trace: seq<Effect>)

  /** What pickAndProcessJob does, as a value; `picked` is PickJob's answer. */
  function PickOutcome(workerId: string, config: WorkerConfig, picked: Result<Option<Job>, string>,
                       attemptId: string, now: Time, handler: Outcome<string>, r: Responses): PickResult
  {
    var pick := Call(PickJobCall(workerId), picked.Ok?);
    if picked.Err? then
      PickResult(None, Some("failed to pick job: " + picked.error), [pick])
    else if picked.value.None? then
      PickResult(None, None, [pick])
    else
      var job := picked.value.value;
      var p := ProcessOutcome(config, job, attemptId, now, handler, r);
      var err := if p.err.Some? then Some("job processing failed: " + p.err.value) else None;
      PickResult(Some(p.job), err, [pick, Send(StartedEvent(job, now))] + p.trace)
  }

  method PickAndProcessJob(workerId: string, config: WorkerConfig, picked: Result<Option<Job>, string>,
                           attemptId: string, now: Time, handler: Outcome<string>, r: Responses)
    returns (job: Option<Job>, err: Option<string>, trace: seq<Effect>)
    ensures PickResult(job, err, trace) == PickOutcome(workerId, config, picked, attemptId, now, handler, r)
  {
    trace := [Call(PickJobCall(workerId), picked.Ok?)];
    if picked.Err? {
      return None, Some("failed to pick job: " + picked.error), trace;
    }
    if picked.value.None? {
      return None, None, trace;
    }
    var j := picked.value.value;
    trace := trace + [Send(StartedEvent(j, now))];
    var updated, processErr, processTrace := ProcessJob(config, j, attemptId, now, handler, r);
    trace := trace + processTrace;
    if processErr.Some? {
      return Some(updated), Some("job processing failed: " + processErr.value), trace;
    }
    return Some(updated), None, trace;
  }

  /** A picked job is announced with `started` before anything else is sent,
      and at most one further event (`failed` or `succeeded`) follows; when no
      job is picked nothing is sent. */
  lemma StartedComesFirst(workerId: string, config: WorkerConfig, picked: Result<Option<Job>, string>,
                          attemptId: string, now: Time, handler: Outcome<string>, r: Responses)
    ensures var o := PickOutcome(workerId, config, picked, attemptId, now, handler, r);
      var ev := Sent(o.trace);
      && (picked.Ok? && picked.value.Some? ==>
            && 1 <= |ev| <= 2
            && ev[0] == StartedEvent(picked.value.value, now)
            && (forall i :: 1 <= i < |ev| ==> ev[i].kind == EventFailed || ev[i].kind == EventSucceeded))
      && (!(picked.Ok? && picked.value.Some?) ==> ev == [] && o.job == None)
  {
    var pick := Call(PickJobCall(workerId), picked.Ok?);
    SentOnlyCalls([pick]);
    if picked.Ok? && picked.value.Some? {
      var job := picked.value.value;
      var tail := ProcessOutcome(config, job, attemptId, now, handler, r).trace;
      assert PickOutcome(workerId, config, picked, attemptId, now, handler, r).trace
        == [pick, Send(StartedEvent(job, now))] + tail;
      ProcessSendsAtMostOneEvent(config, job, attemptId, now, handler, r);
      StartedThen(pick, StartedEvent(job, now), tail);
    }
  }

  lemma StartedThen(pick: Effect, started: JobEvent, tail: seq<Effect>)
    requires pick.Call? && started.kind == EventStarted
    requires |Sent(tail)| <= 1
    requires forall e :: e in Sent(tail) ==> e.kind == EventFailed || e.kind == EventSucceeded
    ensures var ev := Sent([pick, Send(started)] + tail);
      && 1 <= |ev| <= 2
      && ev[0] == started
      && (forall i :: 1 <= i < |ev| ==> ev[i].kind == EventFailed || ev[i].kind == EventSucceeded)
  {
    SentSingle(pick);
    SentSingle(Send(started));
    SentAppend([pick], [Send(started)]);
    assert [pick] + [Send(started)] == [pick, Send(started)];
    SentAppend([pick, Send(started)], tail);
    var rest := Sent(tail);
    assert Sent([pick, Send(started)] + tail) == [started] + rest;
  }
}
