/** What a server-side operation does to the outside world, in order: the
    repository calls it issues (with whether each one succeeded) and the events
    it sends on the dispatcher's event channel. */
module Effects {
  import opened Models

  datatype RepoCall =
    | CreateJobCall(job: Job)
    | CreateJobAttemptCall(attempt: JobAttempt)
    | UpdateJobStatusCall(jobId: string, status: string)
    | GetJobAttemptsCall(jobId: string)
    | PickJobCall(workerId: string)

  datatype Effect =
    | Call(call: RepoCall, succeeded: bool)
    | Send(event: JobEvent)

  /** The events, in order, that a trace sends. */
  function Sent(trace: seq<Effect>): (events: seq<JobEvent>)
    ensures |events| <= |trace|
  {
    if trace == [] then []
    else (if trace[0].Send? then [trace[0].event] else []) + Sent(trace[1..])
  }

  lemma {:induction false} SentAppend(a: seq<Effect>, b: seq<Effect>)
    ensures Sent(a + b) == Sent(a) + Sent(b)
  {
    if a == [] {
      assert a + b == b;
    } else {
      var head := if a[0].Send? then [a[0].event] else [];
      assert (a + b)[0] == a[0];
      assert (a + b)[1..] == a[1..] + b;
      SentAppend(a[1..], b);
      assert Sent(a + b) == head + (Sent(a[1..]) + Sent(b));
      assert Sent(a) == head + Sent(a[1..]);
    }
  }

  /** A trace made only of repository calls sends nothing. */
  lemma {:induction false} SentOnlyCalls(trace: seq<Effect>)
    requires forall i :: 0 <= i < |trace| ==> trace[i].Call?
    ensures Sent(trace) == []
  {
    if trace != [] {
      SentOnlyCalls(trace[1..]);
    }
  }

  lemma SentSingle(e: Effect)
    ensures Sent([e]) == if e.Send? then [e.event] else []
  {
    assert [e][1..] == [];
  }
}
