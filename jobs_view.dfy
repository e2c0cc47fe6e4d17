/** The operator's job list (frontend/src/app/components/jobs/jobs.component.ts):
    the fetched jobs, the view shown after filtering, the newest-first event
    log, and the loading and error flags. `loadJobs` is asynchronous: it is
    modelled as `BeginLoad`, which issues the fetch, and a later `LoadSucceeded`
    or `LoadFailed`, which is its completion. */
module JobsView {
  import opened Wrappers
  import opened WebsocketChannel
  import Models

  /** A job as the client holds it; every field is JSON text or number. */
  datatype Job = Job(
    id: string,
    queue: string,
    payload: string,
    maxRetries: int,
    runAt: string,
    createdAt: string,
    updatedAt: string,
    status: string,
    priority: string,
    idempotencyKey: string,
    lockedBy: string,
    lockedAt: Option<string>)

  /** The filters sent with one `getJobs` call. */
  datatype LoadRequest = LoadRequest(status: string, queue: string)

  const LoadErrorPrefix := "Failed to load jobs: "

  // ------------------------------------------------------------ filtering

  /** An empty filter matches everything, otherwise the match is exact. */
  predicate Matches(job: Job, statusFilter: string, queueFilter: string) {
    (statusFilter == "" || job.status == statusFilter) && (queueFilter == "" || job.queue == queueFilter)
  }

  function Filter(jobs: seq<Job>, statusFilter: string, queueFilter: string): seq<Job> {
    if jobs == [] then []
    else (if Matches(jobs[0], statusFilter, queueFilter) then [jobs[0]] else [])
         + Filter(jobs[1..], statusFilter, queueFilter)
  }

  /** A job is shown exactly when it is among the jobs and passes both filters. */
  lemma {:induction false} FilterMembership(jobs: seq<Job>, statusFilter: string, queueFilter: string, j: Job)
    ensures j in Filter(jobs, statusFilter, queueFilter) <==> j in jobs && Matches(j, statusFilter, queueFilter)
  {
    if jobs != [] {
      FilterMembership(jobs[1..], statusFilter, queueFilter, j);
      assert jobs == [jobs[0]] + jobs[1..];
    }
  }

  /** Filtering an already filtered list changes nothing. */
  lemma {:induction false} FilterIdempotent(jobs: seq<Job>, statusFilter: string, queueFilter: string)
    ensures Filter(Filter(jobs, statusFilter, queueFilter), statusFilter, queueFilter)
         == Filter(jobs, statusFilter, queueFilter)
  {
    if jobs != [] {
      var head := if Matches(jobs[0], statusFilter, queueFilter) then [jobs[0]] else [];
      var rest := Filter(jobs[1..], statusFilter, queueFilter);
      FilterIdempotent(jobs[1..], statusFilter, queueFilter);
      FilterAppend(head, rest, statusFilter, queueFilter);
      if head != [] {
        assert head[1..] == [];
      }
    }
  }

  /** Filtering splits over concatenation, so the view keeps the jobs' order. */
  lemma {:induction false} FilterAppend(a: seq<Job>, b: seq<Job>, statusFilter: string, queueFilter: string)
    ensures Filter(a + b, statusFilter, queueFilter) == Filter(a, statusFilter, queueFilter) + Filter(b, statusFilter, queueFilter)
  {
    if a == [] {
      assert a + b == b;
    } else {
      var head := if Matches(a[0], statusFilter, queueFilter) then [a[0]] else [];
      assert (a + b)[0] == a[0];
      assert (a + b)[1..] == a[1..] + b;
      FilterAppend(a[1..], b, statusFilter, queueFilter);
      assert Filter(a + b, statusFilter, queueFilter)
          == head + (Filter(a[1..], statusFilter, queueFilter) + Filter(b, statusFilter, queueFilter));
    }
  }

  /** With both filters empty the view is every job. */
  lemma {:induction false} FilterWithoutFilters(jobs: seq<Job>)
    ensures Filter(jobs, "", "") == jobs
  {
    if jobs != [] {
      FilterWithoutFilters(jobs[1..]);
      assert jobs == [jobs[0]] + jobs[1..];
    }
  }

  // ------------------------------------------------------------ status patch

  predicate HasJob(jobs: seq<Job>, id: string) {
    exists k :: 0 <= k < |jobs| && jobs[k].id == id
  }

  /** The first job with the given id gets the new status. */
  function PatchStatus(jobs: seq<Job>, id: string, status: string): seq<Job> {
    if jobs == [] then []
    else if jobs[0].id == id then [jobs[0].(status := status)] + jobs[1..]
    else [jobs[0]] + PatchStatus(jobs[1..], id, status)
  }

  /** Patching at the first match is replacing that one job's status, nothing else. */
  lemma {:induction false} PatchStatusAt(jobs: seq<Job>, id: string, status: string, i: nat)
    requires i < |jobs| && jobs[i].id == id
    requires forall k :: 0 <= k < i ==> jobs[k].id != id
    ensures PatchStatus(jobs, id, status) == jobs[i := jobs[i].(status := status)]
  {
    if i > 0 {
      PatchStatusAt(jobs[1..], id, status, i - 1);
      assert jobs[1..][i - 1 := jobs[i].(status := status)] == jobs[i := jobs[i].(status := status)][1..];
    }
  }

  /** Without a job with that id, patching changes nothing. */
  lemma {:induction false} PatchWithoutMatch(jobs: seq<Job>, id: string, status: string)
    requires !HasJob(jobs, id)
    ensures PatchStatus(jobs, id, status) == jobs
  {
    if jobs != [] {
      assert !HasJob(jobs[1..], id) by {
        forall k | 0 <= k < |jobs[1..]| ensures jobs[1..][k].id != id {
          assert jobs[1..][k] == jobs[k + 1];
        }
      }
      PatchWithoutMatch(jobs[1..], id, status);
      assert jobs == [jobs[0]] + jobs[1..];
    }
  }

  /** findIndex: the index of the first job with the id, or -1. */
  method FindJobIndex(jobs: seq<Job>, id: string) returns (idx: int)
    ensures -1 <= idx < |jobs|
    ensures idx == -1 <==> !HasJob(jobs, id)
    ensures idx >= 0 ==> jobs[idx].id == id && forall k :: 0 <= k < idx ==> jobs[k].id != id
  {
    var i := 0;
    while i < |jobs|
      invariant 0 <= i <= |jobs|
      invariant forall k :: 0 <= k < i ==> jobs[k].id != id
    {
      if jobs[i].id == id {
        return i;
      }
      i := i + 1;
    }
    return -1;
  }

  // ------------------------------------------------------------ status display

  const ColorCompleted  := "bg-green-100 text-green-800"
  const ColorFailed     := "bg-red-100 text-red-800"
  const ColorCancelled  := "bg-gray-100 text-gray-800"
  const ColorProcessing := "bg-blue-100 text-blue-800"
  const ColorPending    := "bg-yellow-100 text-yellow-800"
  const ColorOther      := "bg-purple-100 text-purple-800"

  function StatusColor(status: string): string {
    if status == Models.StatusCompleted then ColorCompleted
    else if status == Models.StatusFailed then ColorFailed
    else if status == Models.StatusCancelled then ColorCancelled
    else if status == Models.StatusProcessing then ColorProcessing
    else if status == Models.StatusPending then ColorPending
    else ColorOther
  }

  function StatusBadge(status: string): string {
    if status == Models.StatusCompleted then "✅ Completed"
    else if status == Models.StatusFailed then "❌ Failed"
    else if status == Models.StatusCancelled then "🚫 Cancelled"
    else if status == Models.StatusProcessing then "🔄 Processing"
    else if status == Models.StatusPending then "⏳ Pending"
    else status
  }

  /** The five statuses get five different colours and badges, none of them the
      fallback; any other string gets the purple class and is shown as it is. */
  lemma StatusDisplayTotal(status: string)
    ensures status in Models.AllStatuses ==>
      StatusColor(status) != ColorOther && StatusBadge(status) != status
    ensures status !in Models.AllStatuses ==>
      StatusColor(status) == ColorOther && StatusBadge(status) == status
    ensures forall i, k :: 0 <= i < k < |Models.AllStatuses| ==>
      StatusColor(Models.AllStatuses[i]) != StatusColor(Models.AllStatuses[k]) &&
      StatusBadge(Models.AllStatuses[i]) != StatusBadge(Models.AllStatuses[k])
  {
  }

  /** Of the event types the server sends, only `failed` is a status: an
      event `created`, `started` or `succeeded` copied into a job's status
      falls through to the purple class and is shown as the raw word. */
  lemma ServerEventTypesFallThrough()
    ensures forall t :: t in [Models.EventCreated, Models.EventStarted, Models.EventSucceeded] ==>
      t !in Models.AllStatuses && StatusColor(t) == ColorOther && StatusBadge(t) == t
    ensures Models.EventFailed in Models.AllStatuses && StatusBadge(Models.EventFailed) == "❌ Failed"
  {
  }

  // ------------------------------------------------------------ the component

  class JobsComponent {
    var jobs: seq<Job>
    var filteredJobs: seq<Job>
    var statusFilter: string
    var queueFilter: string
    var isLoading: bool
    var error: Option<string>
    /** Received events, newest first; never trimmed. */
    var jobEvents: seq<JobEvent>
    /** Every `getJobs` call made, in order. */
    var requests: seq<LoadRequest>
    /** Fetches whose answer has not arrived yet. */
    var inFlight: nat

    constructor ()
      ensures jobs == [] && filteredJobs == [] && statusFilter == "" && queueFilter == ""
      ensures !isLoading && error == None && jobEvents == [] && requests == [] && inFlight == 0
    {
      jobs := [];
      filteredJobs := [];
      statusFilter := "";
      queueFilter := "";
      isLoading := false;
      error := None;
      jobEvents := [];
      requests := [];
      inFlight := 0;
    }

    /** The template's two-way binding writes the filter fields. */
    method SetFilters(status: string, queue: string)
      modifies this`statusFilter, this`queueFilter
      ensures statusFilter == status && queueFilter == queue
    {
      statusFilter := status;
      queueFilter := queue;
    }

    /** loadJobs, first half: set the flags and issue the fetch with the current filters. */
    method BeginLoad()
      modifies this`isLoading, this`error, this`requests, this`inFlight
      ensures isLoading && error == None
      ensures requests == old(requests) + [LoadRequest(statusFilter, queueFilter)]
      ensures inFlight == old(inFlight) + 1
    {
      isLoading := true;
      error := None;
      requests := requests + [LoadRequest(statusFilter, queueFilter)];
      inFlight := inFlight + 1;
    }

    /** A fetch answered: the list replaces the jobs wholesale and is shown unfiltered. */
    method LoadSucceeded(fetched: seq<Job>)
      requires inFlight > 0
      modifies this`jobs, this`filteredJobs, this`isLoading, this`inFlight
      ensures jobs == fetched && filteredJobs == fetched && !isLoading
      ensures inFlight == old(inFlight) - 1
      ensures forall j :: j in old(jobs) && j !in fetched ==> j !in jobs
    {
      jobs := fetched;
      filteredJobs := jobs;
      isLoading := false;
      inFlight := inFlight - 1;
    }

    /** A fetch failed: an error message, the jobs and the view untouched. An
        empty error message counts as missing. */
    method LoadFailed(message: string)
      requires inFlight > 0
      modifies this`error, this`isLoading, this`inFlight
      ensures error == Some(LoadErrorPrefix + (if message == "" then "Unknown error" else message))
      ensures !isLoading && inFlight == old(inFlight) - 1
    {
      error := Some(LoadErrorPrefix + (if message == "" then "Unknown error" else message));
      isLoading := false;
      inFlight := inFlight - 1;
    }

    /** handleJobEvent: log the event first; then patch the status of the first
        job with its id and show all jobs unfiltered, or, for an unknown id,
        start a reload instead of inventing a job. */
    method HandleJobEvent(event: JobEvent)
      modifies this
      ensures jobEvents == [event] + old(jobEvents)
      ensures statusFilter == old(statusFilter) && queueFilter == old(queueFilter)
      ensures HasJob(old(jobs), event.jobId) ==>
        && jobs == PatchStatus(old(jobs), event.jobId, event.kind)
        && filteredJobs == jobs
        && isLoading == old(isLoading) && error == old(error)
        && requests == old(requests) && inFlight == old(inFlight)
      ensures !HasJob(old(jobs), event.jobId) ==>
        && jobs == old(jobs) && filteredJobs == old(filteredJobs)
        && isLoading && error == None
        && requests == old(requests) + [LoadRequest(statusFilter, queueFilter)]
        && inFlight == old(inFlight) + 1
    {
      jobEvents := [event] + jobEvents;
      var jobIndex := FindJobIndex(jobs, event.jobId);
      if jobIndex != -1 {
        PatchStatusAt(jobs, event.jobId, event.kind, jobIndex);
        jobs := jobs[jobIndex := jobs[jobIndex].(status := event.kind)];
        filteredJobs := jobs;
      } else {
        BeginLoad();
      }
    }

    /** applyFilters: the view becomes the jobs that pass both filters. */
    method ApplyFilters()
      modifies this`filteredJobs
      ensures filteredJobs == Filter(jobs, statusFilter, queueFilter)
    {
      filteredJobs := Filter(jobs, statusFilter, queueFilter);
    }
  }
}
