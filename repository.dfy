/** The jobs and job_attempts tables of internal/repository/postgres.go, held
    in memory: each SQL statement becomes a method of JobsTable that has the
    statement's effect on the rows. `NOW()` is the parameter `now`; the sort
    order of the priority column is the abstract ranking `rank`. */
module Repository {
  import opened Wrappers
  import opened Models

  /** A row of the jobs table; `locked_by` and `locked_at` may be NULL. */
  datatype Row = Row(
    id: string,
    queue: string,
    payload: Payload,
    maxRetries: int,
    runAt: Time,
    createdAt: Time,
    updatedAt: Time,
    status: string,
    priority: string,
    idempotencyKey: string,
    lockedBy: Option<string>,
    lockedAt: Option<Time>)

  /** Scanning all twelve columns into a Job: a NULL lock owner becomes the
      empty string, a NULL lock time an absent one. */
  function ToJob(row: Row): Job {
    Job(row.id, row.queue, row.payload, row.maxRetries, row.runAt, row.createdAt, row.updatedAt,
        row.status, row.priority, row.idempotencyKey,
        if row.lockedBy.Some? then row.lockedBy.value else "",
        row.lockedAt)
  }

  /** Scanning loses exactly one distinction: a NULL lock owner and an empty one. */
  lemma ScanLosesOnlyNullOwner(r1: Row, r2: Row)
    ensures ToJob(r1) == ToJob(r2) <==>
      (r1 == r2 || (r1 == r2.(lockedBy := r1.lockedBy) && {r1.lockedBy, r2.lockedBy} == {None, Some("")}))
    ensures r1.lockedBy.None? ==> ToJob(r1).lockedBy == ""
    ensures r1.lockedAt.None? ==> ToJob(r1).lockedAt.None?
  {
    if ToJob(r1) == ToJob(r2) && r1 != r2 {
      assert r1 == r2.(lockedBy := r1.lockedBy);
      assert r1.lockedBy != r2.lockedBy;
    }
  }

  // ------------------------------------------------------------ row updates

  /** The lock columns are set only on a row that is `processing`, and always together. */
  predicate LockInvariant(rows: map<string, Row>) {
    forall id :: id in rows ==>
      (rows[id].lockedBy.Some? ==> rows[id].status == StatusProcessing) &&
      (rows[id].lockedBy.Some? <==> rows[id].lockedAt.Some?)
  }

  function StatusUpdated(row: Row, status: string, now: Time): Row {
    row.(status := status, lockedBy := None, lockedAt := None, updatedAt := now)
  }

  function RetryReset(row: Row, runAt: Time, now: Time): Row {
    row.(status := StatusPending, runAt := runAt, lockedBy := None, lockedAt := None, updatedAt := now)
  }

  function Locked(row: Row, workerId: string, now: Time): Row {
    row.(status := StatusProcessing, lockedBy := Some(workerId), lockedAt := Some(now), updatedAt := now)
  }

  /** The rows PickJob may take: `pending` and due. */
  function Eligible(rows: map<string, Row>, now: Time): set<string> {
    set id | id in rows && rows[id].status == StatusPending && rows[id].runAt <= now
  }

  /** `ORDER BY priority DESC, created_at ASC`: a may be taken before b. */
  predicate PickFirst(rank: string -> int, a: Row, b: Row) {
    rank(a.priority) > rank(b.priority) ||
    (rank(a.priority) == rank(b.priority) && a.createdAt <= b.createdAt)
  }

  /** The columns PickJob's query reads: the lock columns are not selected. */
  function PickedSnapshot(row: Row): Job {
    ToJob(row).(lockedBy := "", lockedAt := None)
  }

  predicate MatchesFilter(row: Row, statusFilter: string, queueFilter: string) {
    (statusFilter == "" || row.status == statusFilter) && (queueFilter == "" || row.queue == queueFilter)
  }

  function Matching(rows: map<string, Row>, statusFilter: string, queueFilter: string): set<string> {
    set id | id in rows && MatchesFilter(rows[id], statusFilter, queueFilter)
  }

  /** Without filters every row is listed (up to the limit). */
  lemma EmptyFiltersMatchAll(rows: map<string, Row>)
    ensures Matching(rows, "", "") == rows.Keys
  {
  }

  function WithStatus(rows: map<string, Row>, ids: set<string>, status: string): set<string> {
    set id | id in ids && id in rows && rows[id].status == status
  }

  function StatusesPresent(rows: map<string, Row>): set<string> {
    set id | id in rows :: rows[id].status
  }

  // ------------------------------------------------------------ sums of counts

  ghost function SumOver(m: map<string, nat>, ks: set<string>): nat
    requires ks <= m.Keys
    decreases ks
  {
    if ks == {} then 0 else var k :| k in ks; m[k] + SumOver(m, ks - {k})
  }

  lemma {:induction false} SumOverRemove(m: map<string, nat>, ks: set<string>, k: string)
    requires ks <= m.Keys && k in ks
    ensures SumOver(m, ks) == m[k] + SumOver(m, ks - {k})
    decreases ks
  {
    var j :| j in ks && SumOver(m, ks) == m[j] + SumOver(m, ks - {j});
    if j != k {
      SumOverRemove(m, ks - {j}, k);
      SumOverRemove(m, ks - {k}, j);
      assert ks - {j} - {k} == ks - {k} - {j};
    }
  }

  lemma {:induction false} SumOverFrame(m1: map<string, nat>, m2: map<string, nat>, ks: set<string>)
    requires ks <= m1.Keys && ks <= m2.Keys
    requires forall k :: k in ks ==> m1[k] == m2[k]
    ensures SumOver(m1, ks) == SumOver(m2, ks)
    decreases ks
  {
    if ks != {} {
      var k :| k in ks;
      SumOverRemove(m1, ks, k);
      SumOverRemove(m2, ks, k);
      SumOverFrame(m1, m2, ks - {k});
    }
  }

  /** One more row counted under `k`. */
  function Bump(m: map<string, nat>, k: string): map<string, nat> {
    m[k := if k in m then m[k] + 1 else 1]
  }

  /** Adding one to a key's count (creating it at one) adds one to the sum. */
  lemma SumOverIncrement(m: map<string, nat>, k: string)
    ensures SumOver(Bump(m, k), Bump(m, k).Keys) == SumOver(m, m.Keys) + 1
  {
    var m' := Bump(m, k);
    SumOverRemove(m', m'.Keys, k);
    if k in m {
      assert m'.Keys == m.Keys;
      SumOverRemove(m, m.Keys, k);
      SumOverFrame(m, m', m.Keys - {k});
    } else {
      assert m'.Keys - {k} == m.Keys;
      SumOverFrame(m, m', m.Keys);
    }
  }

  // ------------------------------------------------------------ ORDER BY ... LIMIT

  predicate InOrder(x: int, y: int, ascending: bool) {
    if ascending then x <= y else x >= y
  }

  /** A key of `candidates` that may come first in the given order. */
  method FirstByKey<K(==)>(keys: map<K, int>, candidates: set<K>, ascending: bool) returns (b: K)
    requires candidates != {} && candidates <= keys.Keys
    ensures b in candidates
    ensures forall k :: k in candidates ==> InOrder(keys[b], keys[k], ascending)
  {
    b :| b in candidates;
    var rest := candidates - {b};
    while rest != {}
      invariant rest <= candidates && b in candidates
      invariant forall k :: k in candidates && k !in rest ==> InOrder(keys[b], keys[k], ascending)
      decreases |rest|
    {
      var k :| k in rest;
      if !InOrder(keys[b], keys[k], ascending) {
        b := k;
      }
      rest := rest - {k};
    }
  }

  /** The keys of `keys` sorted by their values (ties in any order), at most `limit` of them. */
  method TopByKey<K(==)>(keys: map<K, int>, limit: nat, ascending: bool) returns (r: seq<K>)
    ensures |r| == Min(limit, |keys|)
    ensures forall i :: 0 <= i < |r| ==> r[i] in keys
    ensures forall i, j :: 0 <= i < j < |r| ==> r[i] != r[j] && InOrder(keys[r[i]], keys[r[j]], ascending)
    ensures forall k :: k in keys && k !in r ==>
              forall i :: 0 <= i < |r| ==> InOrder(keys[r[i]], keys[k], ascending)
  {
    r := [];
    var remaining := keys.Keys;
    while |r| < limit && remaining != {}
      invariant remaining <= keys.Keys
      invariant |r| + |remaining| == |keys.Keys| && |r| <= limit
      invariant forall k :: k in keys ==> (k in remaining <==> k !in r)
      invariant forall i :: 0 <= i < |r| ==> r[i] in keys
      invariant forall i, j :: 0 <= i < j < |r| ==> r[i] != r[j] && InOrder(keys[r[i]], keys[r[j]], ascending)
      invariant forall k :: k in remaining ==>
                  forall i :: 0 <= i < |r| ==> InOrder(keys[r[i]], keys[k], ascending)
      decreases |remaining|
    {
      var b := FirstByKey(keys, remaining, ascending);
      r := r + [b];
      remaining := remaining - {b};
    }
    assert |keys| == |keys.Keys|;
  }

  // ------------------------------------------------------------ the table

  class JobsTable {
    var rows: map<string, Row>
    var attempts: seq<JobAttempt>
    const rank: string -> int

    /** Each row is stored under its own id. */
    ghost predicate Valid()
      reads this
    {
      forall id :: id in rows ==> rows[id].id == id
    }

    constructor (initial: map<string, Row>, attemptRows: seq<JobAttempt>, priorityRank: string -> int)
      requires forall id :: id in initial ==> initial[id].id == id
      ensures Valid()
      ensures rows == initial && attempts == attemptRows && rank == priorityRank
    {
      rows := initial;
      attempts := attemptRows;
      rank := priorityRank;
    }

    /** GetJobByID: no job (and no error) for an unknown id. */
    function GetJobByID(id: string): (r: Option<Job>)
      reads this
      ensures r.None? <==> id !in rows
      ensures r.Some? ==> r.value == ToJob(rows[id])
    {
      if id in rows then Some(ToJob(rows[id])) else None
    }

    /** UPDATE jobs SET status, locked_by = NULL, locked_at = NULL, updated_at = NOW(). */
    method UpdateJobStatus(jobId: string, status: string, now: Time)
      requires Valid()
      modifies this`rows
      ensures Valid()
      ensures rows == if jobId in old(rows) then old(rows)[jobId := StatusUpdated(old(rows)[jobId], status, now)]
                      else old(rows)
      ensures LockInvariant(old(rows)) ==> LockInvariant(rows)
      ensures jobId in rows ==> GetJobByID(jobId).value.lockedBy == "" && GetJobByID(jobId).value.status == status
    {
      if jobId in rows {
        rows := rows[jobId := StatusUpdated(rows[jobId], status, now)];
      }
    }

    /** UPDATE jobs SET status = 'pending', run_at, clear the lock, updated_at = NOW(). */
    method UpdateJobForRetry(jobId: string, runAt: Time, now: Time)
      requires Valid()
      modifies this`rows
      ensures Valid()
      ensures rows == if jobId in old(rows) then old(rows)[jobId := RetryReset(old(rows)[jobId], runAt, now)]
                      else old(rows)
      ensures LockInvariant(old(rows)) ==> LockInvariant(rows)
    {
      if jobId in rows {
        rows := rows[jobId := RetryReset(rows[jobId], runAt, now)];
      }
    }

    /** PickJob: take the due `pending` row of highest priority, oldest first,
        and lock it for `workerId`. The job returned is the row as it was read,
        before the update. */
    method PickJob(workerId: string, now: Time) returns (job: Option<Job>)
      requires Valid()
      modifies this`rows
      ensures Valid()
      ensures job.None? <==> Eligible(old(rows), now) == {}
      ensures job.None? ==> rows == old(rows)
      ensures job.Some? ==>
        var id := job.value.id;
        && id in Eligible(old(rows), now)
        && (forall o :: o in Eligible(old(rows), now) ==> PickFirst(rank, old(rows)[id], old(rows)[o]))
        && job.value == PickedSnapshot(old(rows)[id])
        && job.value.status == StatusPending
        && rows == old(rows)[id := Locked(old(rows)[id], workerId, now)]
      ensures LockInvariant(old(rows)) ==> LockInvariant(rows)
    {
      var eligible := Eligible(rows, now);
      if eligible == {} {
        return None;
      }
      var best :| best in eligible;
      var rest := eligible - {best};
      while rest != {}
        invariant rest <= eligible && best in eligible
        invariant forall o :: o in eligible && o !in rest ==> PickFirst(rank, rows[best], rows[o])
        decreases |rest|
      {
        var o :| o in rest;
        if !PickFirst(rank, rows[best], rows[o]) {
          best := o;
        }
        rest := rest - {o};
      }
      job := Some(PickedSnapshot(rows[best]));
      rows := rows[best := Locked(rows[best], workerId, now)];
    }

    /** INSERT INTO job_attempts. */
    method CreateJobAttempt(attempt: JobAttempt)
      modifies this`attempts
      ensures attempts == old(attempts) + [attempt]
    {
      attempts := attempts + [attempt];
    }

    /** ListJobs: the rows passing both filters (an empty filter passes
        everything), newest first, at most `limit` of them. */
    method ListJobs(statusFilter: string, queueFilter: string, limit: nat) returns (jobs: seq<Job>)
      requires Valid()
      ensures |jobs| == Min(limit, |Matching(rows, statusFilter, queueFilter)|)
      ensures forall i :: 0 <= i < |jobs| ==>
                jobs[i].id in Matching(rows, statusFilter, queueFilter) && jobs[i] == ToJob(rows[jobs[i].id])
      ensures forall i, j :: 0 <= i < j < |jobs| ==>
                jobs[i].id != jobs[j].id && jobs[i].createdAt >= jobs[j].createdAt
      ensures forall id :: id in Matching(rows, statusFilter, queueFilter) && id !in Ids(jobs) ==>
                forall i :: 0 <= i < |jobs| ==> rows[id].createdAt <= jobs[i].createdAt
    {
      var keys := map id | id in rows && MatchesFilter(rows[id], statusFilter, queueFilter) :: rows[id].createdAt;
      assert keys.Keys == Matching(rows, statusFilter, queueFilter);
      var order := TopByKey(keys, limit, false);
      jobs := [];
      var i := 0;
      while i < |order|
        invariant 0 <= i <= |order|
        invariant |jobs| == i
        invariant forall k :: 0 <= k < i ==> jobs[k] == ToJob(rows[order[k]])
      {
        jobs := jobs + [ToJob(rows[order[i]])];
        i := i + 1;
      }
    }

    /** GetJobAttempts: the job's attempts ordered by attempt number. The ghost
        `positions` says where in the table each one was found. */
    method GetJobAttempts(jobId: string) returns (list: seq<JobAttempt>, ghost positions: seq<nat>)
      ensures |list| == |positions| == |AttemptsOf(attempts, jobId)|
      ensures forall i :: 0 <= i < |list| ==> positions[i] in AttemptsOf(attempts, jobId) && list[i] == attempts[positions[i]]
      ensures forall i, j :: 0 <= i < j < |list| ==> positions[i] != positions[j]
      ensures forall i, j :: 0 <= i < j < |list| ==> list[i].attemptNumber <= list[j].attemptNumber
    {
      var keys := map p | 0 <= p < |attempts| && attempts[p].jobId == jobId :: attempts[p].attemptNumber;
      assert keys.Keys == AttemptsOf(attempts, jobId);
      var order := TopByKey(keys, |keys|, true);
      list := [];
      var i := 0;
      while i < |order|
        invariant 0 <= i <= |order|
        invariant |list| == i
        invariant forall k :: 0 <= k < i ==> list[k] == attempts[order[k]]
      {
        list := list + [attempts[order[i]]];
        i := i + 1;
      }
      positions := order;
    }

    /** GetJobStats: each status present mapped to its number of rows; absent
        statuses are omitted, so the counts add up to the number of rows. */
    method GetJobStats() returns (stats: map<string, nat>)
      ensures stats.Keys == StatusesPresent(rows)
      ensures forall s :: s in stats ==> stats[s] == |WithStatus(rows, rows.Keys, s)| && stats[s] >= 1
      ensures SumOver(stats, stats.Keys) == |rows|
    {
      var table := rows;
      stats := map[];
      var remaining := table.Keys;
      ghost var visited: set<string> := {};
      assert Counts(table, visited) == map[];
      while remaining != {}
        invariant remaining + visited == table.Keys && remaining !! visited
        invariant stats == Counts(table, visited)
        decreases |remaining|
      {
        var id :| id in remaining;
        CountsStep(table, visited, id);
        stats := Bump(stats, table[id].status);
        remaining := remaining - {id};
        visited := visited + {id};
      }
      CountsSumToTotal(table, table.Keys);
      CountsMeaning(table);
      assert |table| == |table.Keys|;
    }
  }

  function StatusesOf(rows: map<string, Row>, ids: set<string>): set<string> {
    set id | id in ids && id in rows :: rows[id].status
  }

  /** The GROUP BY status of the rows `ids`. */
  function Counts(rows: map<string, Row>, ids: set<string>): map<string, nat> {
    map s | s in StatusesOf(rows, ids) :: |WithStatus(rows, ids, s)|
  }

  lemma CountsStep(rows: map<string, Row>, ids: set<string>, id: string)
    requires id in rows && id !in ids
    ensures Counts(rows, ids + {id}) == Bump(Counts(rows, ids), rows[id].status)
  {
    var c := Counts(rows, ids);
    var st := rows[id].status;
    var c' := Counts(rows, ids + {id});
    var b := Bump(c, st);
    assert StatusesOf(rows, ids + {id}) == StatusesOf(rows, ids) + {st};
    assert b.Keys == c'.Keys;
    var before := WithStatus(rows, ids, st);
    assert WithStatus(rows, ids + {id}, st) == before + {id};
    assert id !in before;
    if st in c {
      assert b[st] == |before| + 1;
    } else {
      assert before == {};
      assert b[st] == 1;
    }
    assert c'[st] == b[st];
    forall s | s in c' && s != st
      ensures c'[s] == b[s]
    {
      assert WithStatus(rows, ids + {id}, s) == WithStatus(rows, ids, s);
    }
    assert c' == b;
  }

  /** The counts of a GROUP BY add up to the number of rows grouped. */
  lemma {:induction false} CountsSumToTotal(rows: map<string, Row>, ids: set<string>)
    requires ids <= rows.Keys
    ensures SumOver(Counts(rows, ids), Counts(rows, ids).Keys) == |ids|
    decreases ids
  {
    if ids == {} {
      assert Counts(rows, ids) == map[];
    } else {
      var id :| id in ids;
      var smaller := ids - {id};
      assert smaller + {id} == ids;
      CountsStep(rows, smaller, id);
      CountsSumToTotal(rows, smaller);
      SumOverIncrement(Counts(rows, smaller), rows[id].status);
    }
  }

  /** Grouping all rows: one entry per status present, holding its number of
      rows; a status no row has gets no entry. */
  lemma CountsMeaning(rows: map<string, Row>)
    ensures Counts(rows, rows.Keys).Keys == StatusesPresent(rows)
    ensures forall s :: s in Counts(rows, rows.Keys) ==>
              Counts(rows, rows.Keys)[s] == |WithStatus(rows, rows.Keys, s)| >= 1
    ensures forall s :: s !in Counts(rows, rows.Keys) ==> WithStatus(rows, rows.Keys, s) == {}
  {
    var c := Counts(rows, rows.Keys);
    assert StatusesOf(rows, rows.Keys) == StatusesPresent(rows);
    forall s | s in c
      ensures c[s] >= 1
    {
      var id :| id in rows && rows[id].status == s;
      assert id in WithStatus(rows, rows.Keys, s);
    }
  }

  function Ids(jobs: seq<Job>): set<string> {
    set j | j in jobs :: j.id
  }

  function AttemptsOf(attempts: seq<JobAttempt>, jobId: string): set<nat> {
    set p | 0 <= p < |attempts| && attempts[p].jobId == jobId
  }
}
