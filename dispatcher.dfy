/** Enqueueing a job (EnqueueJob in internal/dispatcher/dispatcher.go): fill in
    the defaults, insert the job, and only then announce it. The insert is an
    input: CreateJob's answer is the pair (created_at, updated_at) that the
    database returns, or an error. */
module Dispatcher {
  import opened Wrappers
  import opened Models
  import opened Effects

  const DefaultQueue := "default"

  /** The defaulting of EnqueueJob: an empty status, priority or queue is
      filled in; nothing else is touched. */
  function WithDefaults(job: Job): (d: Job)
    ensures d.status != "" && d.priority != "" && d.queue != ""
    ensures job.status == "" ==> d.status == StatusPending
    ensures job.status != "" ==> d.status == job.status
    ensures job.priority == "" ==> d.priority == PriorityNormal
    ensures job.priority != "" ==> d.priority == job.priority
    ensures job.queue == "" ==> d.queue == DefaultQueue
    ensures job.queue != "" ==> d.queue == job.queue
    ensures d.(status := job.status, priority := job.priority, queue := job.queue) == job
  {
    var j1 := if job.status == "" then job.(status := StatusPending) else job;
    var j2 := if j1.priority == "" then j1.(priority := PriorityNormal) else j1;
    if j2.queue == "" then j2.(queue := DefaultQueue) else j2
  }

  /** Defaulting twice is defaulting once. */
  lemma DefaultsIdempotent(job: Job)
    ensures WithDefaults(WithDefaults(job)) == WithDefaults(job)
  {
  }

  function CreatedEvent(job: Job, now: Time): JobEvent {
    JobEvent(EventCreated, job.id, job.queue, now, job.payload, "")
  }

  datatype EnqueueResult = EnqueueResult(job: Job, err: Option<string>, trace: seq<Effect>)

  /** What EnqueueJob does, as a value. */
  function EnqueueOutcome(job: Job, inserted: Result<(Time, Time), string>, now: Time): EnqueueResult {
    var d := WithDefaults(job);
    var insert := Call(CreateJobCall(d), inserted.Ok?);
    match inserted
    case Err(e) =>
      EnqueueResult(d, Some("failed to create job: " + e), [insert])
    case Ok((createdAt, updatedAt)) =>
      var stored := d.(createdAt := createdAt, updatedAt := updatedAt);
      EnqueueResult(stored, None, [insert, Send(CreatedEvent(stored, now))])
  }

  method EnqueueJob(job: Job, inserted: Result<(Time, Time), string>, now: Time)
    returns (updated: Job, err: Option<string>, trace: seq<Effect>)
    ensures EnqueueResult(updated, err, trace) == EnqueueOutcome(job, inserted, now)
  {
    updated := job;
    if updated.status == "" {
      updated := updated.(status := StatusPending);
    }
    if updated.priority == "" {
      updated := updated.(priority := PriorityNormal);
    }
    if updated.queue == "" {
      updated := updated.(queue := DefaultQueue);
    }
    trace := [Call(CreateJobCall(updated), inserted.Ok?)];
    if inserted.Err? {
      return updated, Some("failed to create job: " + inserted.error), trace;
    }
    updated := updated.(createdAt := inserted.value.0, updatedAt := inserted.value.1);
    trace := trace + [Send(CreatedEvent(updated, now))];
    err := None;
  }

  /** The defaulted job is inserted first. A failed insert returns the wrapped
      error and sends nothing; a successful one sends exactly one `created`
      event, carrying the job's id and its defaulted queue. Either way the
      caller's job carries the defaults afterwards. */
  lemma CreatedOnlyAfterInsert(job: Job, inserted: Result<(Time, Time), string>, now: Time)
    ensures var o := EnqueueOutcome(job, inserted, now);
      && |o.trace| >= 1
      && o.trace[0] == Call(CreateJobCall(WithDefaults(job)), inserted.Ok?)
      && o.job.(createdAt := job.createdAt, updatedAt := job.updatedAt)
         == WithDefaults(job).(createdAt := job.createdAt, updatedAt := job.updatedAt)
      && (inserted.Err? ==> o.err == Some("failed to create job: " + inserted.error) && Sent(o.trace) == [])
      && (inserted.Ok? ==>
            && o.err == None
            && |Sent(o.trace)| == 1
            && Sent(o.trace)[0].kind == EventCreated
            && Sent(o.trace)[0].jobId == job.id
            && Sent(o.trace)[0].queue == WithDefaults(job).queue
            && o.trace[|o.trace| - 1].Send?)
  {
    var o := EnqueueOutcome(job, inserted, now);
    var insert := Call(CreateJobCall(WithDefaults(job)), inserted.Ok?);
    SentSingle(insert);
    if inserted.Ok? {
      var ev := Send(CreatedEvent(o.job, now));
      SentSingle(ev);
      SentAppend([insert], [ev]);
      assert o.trace == [insert] + [ev];
    }
  }
}
