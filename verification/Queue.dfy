/** Job rows and the statements that change them (app/jobs/queue.py, app/repositories/jobs.py, app/jobs/service.py). */
module Queue {
  import opened Text
  import opened Tables

  datatype JobStatus = Pending | Running | Completed | Failed

  datatype Job = Job(
    sourceId: nat, status: JobStatus, attempts: nat, maxAttempts: nat, createdAt: real,
    startedAt: Option<real>, finishedAt: Option<real>, heartbeatAt: Option<real>, runAfter: Option<real>,
    claimedBy: Option<string>, error: Option<string>)

  datatype ClaimedJob = ClaimedJob(id: nat, sourceId: nat, attempts: nat, maxAttempts: nat)

  const DEFAULT_MAX_ATTEMPTS := 3

  predicate Terminal(job: Job) {
    job.status == Completed || job.status == Failed
  }

  predicate Active(job: Job) {
    job.status == Pending || job.status == Running
  }

  // ---- retry delays ----

  const BASE_BACKOFF := 5.0
  const MAX_BACKOFF := 300.0

  function Pow2(k: nat): nat {
    if k == 0 then 1 else 2 * Pow2(k - 1)
  }

  /** The delay before jitter: doubling from five seconds, capped at five minutes. */
  function RawDelay(attempts: int): real {
    var doubled := BASE_BACKOFF * Pow2(if attempts - 1 > 0 then attempts - 1 else 0) as real;
    if doubled < MAX_BACKOFF then doubled else MAX_BACKOFF
  }

  function BackoffSeconds(attempts: int, jitter: real): real {
    RawDelay(attempts) * (0.5 + 0.5 * jitter)
  }

  lemma {:induction false} Pow2Grows(j: nat, k: nat)
    requires j <= k
    ensures 1 <= Pow2(j) <= Pow2(k)
  {
    if j < k {
      Pow2Grows(j, k - 1);
    } else if j > 0 {
      Pow2Grows(j - 1, k - 1);
    }
  }

  /** The cap is reached exactly from the seventh attempt on. */
  lemma CapFromSeventhAttempt(attempts: int)
    ensures RawDelay(attempts) == MAX_BACKOFF <==> attempts >= 7
    ensures BASE_BACKOFF <= RawDelay(attempts) <= MAX_BACKOFF
  {
    assert Pow2(5) == 32 && Pow2(6) == 64;
    var k: nat := if attempts - 1 > 0 then attempts - 1 else 0;
    if k >= 6 { Pow2Grows(6, k); } else { Pow2Grows(k, 5); }
  }

  lemma RawDelayGrows(a: int, b: int)
    requires a <= b
    ensures RawDelay(a) <= RawDelay(b)
  {
    Pow2Grows(if a - 1 > 0 then a - 1 else 0, if b - 1 > 0 then b - 1 else 0);
  }

  lemma ScaleMonotone(x: real, y: real, factor: real)
    requires x <= y && factor >= 0.0
    ensures x * factor <= y * factor
  {
  }

  lemma BackoffIsMonotone(a: int, b: int, jitter: real)
    requires a <= b && 0.0 <= jitter <= 1.0
    ensures BackoffSeconds(a, jitter) <= BackoffSeconds(b, jitter)
  {
    hide RawDelay;
    RawDelayGrows(a, b);
    ScaleMonotone(RawDelay(a), RawDelay(b), 0.5 + 0.5 * jitter);
  }

  lemma BackoffIsBounded(attempts: int, jitter: real)
    requires 0.0 <= jitter <= 1.0
    ensures 2.5 <= BackoffSeconds(attempts, jitter) <= RawDelay(attempts) <= 300.0
  {
    hide RawDelay;
    CapFromSeventhAttempt(attempts);
    JitterHalves(RawDelay(attempts), jitter);
  }

  lemma JitterHalves(raw: real, jitter: real)
    requires raw >= 0.0 && 0.0 <= jitter <= 1.0
    ensures raw / 2.0 <= raw * (0.5 + 0.5 * jitter) <= raw
  {
    ScaleMonotone(0.0, jitter, raw);
    ScaleMonotone(jitter, 1.0, raw);
    assert raw * (0.5 + 0.5 * jitter) == 0.5 * raw + 0.5 * (jitter * raw);
  }

  // ---- what each statement does to one row ----

  predicate Runnable(job: Job, now: real) {
    job.status == Pending && (job.runAfter.None? || job.runAfter.value <= now)
  }

  /** The order in which waiting jobs are taken: by age, then by id. */
  predicate Before(jobs: map<nat, Job>, a: nat, b: nat)
    requires a in jobs && b in jobs
  {
    jobs[a].createdAt < jobs[b].createdAt || (jobs[a].createdAt == jobs[b].createdAt && a < b)
  }

  /** Oldest runnable job below `hi` that no other transaction has locked. */
  function Oldest(jobs: map<nat, Job>, now: real, locked: set<nat>, hi: nat): (id: Option<nat>)
    ensures id.Some? ==> id.value in jobs && id.value < hi && id.value !in locked && Runnable(jobs[id.value], now)
    ensures id.Some? ==> forall j :: j in jobs && j < hi && j !in locked && Runnable(jobs[j], now) ==>
      jobs[id.value].createdAt < jobs[j].createdAt || (jobs[id.value].createdAt == jobs[j].createdAt && id.value <= j)
    ensures id.None? ==> forall j :: j in jobs && j < hi && j !in locked ==> !Runnable(jobs[j], now)
  {
    if hi == 0 then None
    else
      var best := Oldest(jobs, now, locked, hi - 1);
      var j := hi - 1;
      if j !in jobs || j in locked || !Runnable(jobs[j], now) then best
      else if best.None? || Before(jobs, j, best.value) then Some(j)
      else best
  }

  function ClaimedRow(job: Job, worker: string, now: real): Job {
    job.(status := Running, startedAt := if job.startedAt.Some? then job.startedAt else Some(now),
         heartbeatAt := Some(now), attempts := job.attempts + 1, claimedBy := Some(worker), runAfter := None)
  }

  function BeatRow(job: Job, now: real): Job {
    if job.status == Running then job.(heartbeatAt := Some(now)) else job
  }

  function Clip(error: string): string {
    if |error| <= 2000 then error else error[..2000]
  }

  /** Decided by the attempt number the worker was given, not by the row; the row is not checked at all. */
  function FailedRow(job: Job, claimed: ClaimedJob, error: string, now: real, jitter: real): Job {
    if claimed.attempts < claimed.maxAttempts then
      job.(status := Pending, error := Some(Clip(error)), claimedBy := None, finishedAt := None,
           runAfter := Some(now + BackoffSeconds(claimed.attempts, jitter)))
    else
      job.(status := Failed, error := Some(Clip(error)), claimedBy := None, finishedAt := Some(now))
  }

  /** A successful run restamps its start and marks the end; both become visible with its one commit. */
  function FinishedRow(job: Job, started: real, now: real): Job {
    job.(status := Completed, startedAt := Some(started), error := None, finishedAt := Some(now))
  }

  predicate Silent(job: Job, now: real, staleAfter: real) {
    job.status == Running && (job.heartbeatAt.None? || job.heartbeatAt.value < now - staleAfter)
  }

  predicate Exhausted(job: Job) {
    job.attempts >= job.maxAttempts
  }

  predicate Touches(job: Job, exhaustedOnly: bool) {
    exhaustedOnly ==> Exhausted(job)
  }

  function GivenUpRow(job: Job, now: real): Job {
    job.(status := Failed, error := Some("worker stopped responding"), claimedBy := None, finishedAt := Some(now))
  }

  function RequeuedRow(job: Job): Job {
    job.(status := Pending, claimedBy := None, runAfter := None)
  }

  function RecoveredRow(job: Job, now: real, staleAfter: real): Job {
    if !Silent(job, now, staleAfter) then job
    else if Exhausted(job) then GivenUpRow(job, now)
    else RequeuedRow(job)
  }

  function NewJob(sourceId: nat, now: real): Job {
    Job(sourceId, Pending, 0, DEFAULT_MAX_ATTEMPTS, now, None, None, None, None, None, None)
  }

  /** The delay before jitter starts at five seconds and doubles with every attempt until it reaches the cap. */
  lemma DelayDoublesUpToTheCap(attempts: int)
    ensures attempts <= 1 ==> RawDelay(attempts) == 5.0
    ensures attempts >= 1 ==>
      RawDelay(attempts + 1) == if 2.0 * RawDelay(attempts) < 300.0 then 2.0 * RawDelay(attempts) else 300.0
  {
    if attempts >= 1 {
      assert Pow2(attempts) == 2 * Pow2(attempts - 1);
      Pow2Grows(0, attempts - 1);
    }
  }

  /** Jitter spreads the delay evenly over its upper half. */
  lemma JitterIsLinear(attempts: int, jitter: real)
    ensures BackoffSeconds(attempts, jitter) == RawDelay(attempts) / 2.0 + jitter * (RawDelay(attempts) / 2.0)
  {
    hide RawDelay;
    var raw := RawDelay(attempts);
    assert raw * (0.5 + 0.5 * jitter) == 0.5 * raw + 0.5 * (jitter * raw);
    assert jitter * (raw / 2.0) == 0.5 * (jitter * raw);
  }

  /** A failed attempt with retries left is claimable again exactly from its backoff on, and keeps its count. */
  lemma RetryWaitsForItsBackoff(job: Job, claimed: ClaimedJob, error: string, now: real, jitter: real, later: real)
    requires claimed.attempts < claimed.maxAttempts && 0.0 <= jitter <= 1.0
    ensures var row := FailedRow(job, claimed, error, now, jitter);
      (Runnable(row, later) <==> later >= now + BackoffSeconds(claimed.attempts, jitter)) &&
      (Runnable(row, later) ==> later >= now + 2.5) && (later >= now + 300.0 ==> Runnable(row, later)) &&
      row.attempts == job.attempts && row.claimedBy == None
  {
    hide BackoffSeconds, Clip;
    BackoffIsBounded(claimed.attempts, jitter);
  }

  /**
   * The sweep changes exactly the running rows without a heartbeat or with one before the limit. A job with attempts
   * left is claimable at once with its count kept, any other has failed for good.
   */
  lemma SweptJobIsRetriedOrFailed(job: Job, now: real, staleAfter: real)
    ensures var row := RecoveredRow(job, now, staleAfter);
      if job.status == Running && (job.heartbeatAt == None || job.heartbeatAt.value < now - staleAfter) then
        row.attempts == job.attempts && row.claimedBy == None &&
        if job.attempts < job.maxAttempts then (forall t :: Runnable(row, t)) && row.error == job.error
        else row.status == Failed && row.finishedAt == Some(now) && row.error == Some("worker stopped responding")
      else row == job
  {
  }

  /** A new job has had no attempt and may be claimed from the moment it is queued. */
  lemma NewJobWaits(sourceId: nat, now: real, later: real)
    ensures var job := NewJob(sourceId, now);
      job.sourceId == sourceId && job.createdAt == now && job.attempts == 0 && job.maxAttempts == 3 &&
      Runnable(job, later) && job.finishedAt == None && job.startedAt == None && job.heartbeatAt == None &&
      job.claimedBy == None && job.error == None
  {
  }

  /** A claim starts the job only once, and stamps it with its worker and a first heartbeat. */
  lemma ClaimStamps(job: Job, worker: string, now: real)
    ensures var row := ClaimedRow(job, worker, now);
      row.status == Running && row.attempts == job.attempts + 1 && row.claimedBy == Some(worker) &&
      row.heartbeatAt == Some(now) && row.runAfter == None && row.finishedAt == job.finishedAt &&
      row.error == job.error && row.maxAttempts == job.maxAttempts && row.createdAt == job.createdAt &&
      row.sourceId == job.sourceId &&
      (job.startedAt.Some? ==> row.startedAt == job.startedAt) && (job.startedAt.None? ==> row.startedAt == Some(now))
  {
  }

  /** Through any claims, heartbeats, failures and sweeps a job keeps its first start. */
  lemma FirstStartIsKept(job: Job, worker: string, claimed: ClaimedJob, error: string, now: real, staleAfter: real,
                         jitter: real)
    requires job.startedAt.Some?
    ensures ClaimedRow(job, worker, now).startedAt == job.startedAt && BeatRow(job, now).startedAt == job.startedAt
    ensures FailedRow(job, claimed, error, now, jitter).startedAt == job.startedAt
    ensures RecoveredRow(job, now, staleAfter).startedAt == job.startedAt
  {
    hide BackoffSeconds, Clip;
  }

  /** Only a running job is stamped, and nothing but its heartbeat changes. */
  lemma BeatStampsOnlyRunning(job: Job, now: real)
    ensures BeatRow(job, now).heartbeatAt == if job.status == Running then Some(now) else job.heartbeatAt
    ensures BeatRow(job, now).(heartbeatAt := job.heartbeatAt) == job
  {
  }

  /** A report leaves its error, cut to 2000 characters, and its time; a success clears the error. */
  lemma ReportsLeaveTheirError(job: Job, claimed: ClaimedJob, error: string, started: real, now: real, jitter: real)
    ensures var row := FailedRow(job, claimed, error, now, jitter);
      row.error.Some? && row.error.value <= error && (|error| <= 2000 ==> row.error.value == error) &&
      (|error| > 2000 ==> |row.error.value| == 2000) &&
      row.heartbeatAt == job.heartbeatAt && row.attempts == job.attempts &&
      (claimed.attempts >= claimed.maxAttempts ==> row.status == Failed && row.finishedAt == Some(now))
    ensures var row := FinishedRow(job, started, now);
      row.status == Completed && row.error == None && row.startedAt == Some(started) && row.finishedAt == Some(now) &&
      row.attempts == job.attempts
  {
    hide BackoffSeconds;
  }

  // ---- the same statements over the whole table ----

  function AfterClaim(jobs: Table<Job>, worker: string, now: real, locked: set<nat>): Table<Job> {
    var id := Oldest(jobs.rows, now, locked, jobs.next);
    if id.None? then jobs
    else jobs.(rows := jobs.rows[id.value := ClaimedRow(jobs.rows[id.value], worker, now)])
  }

  function ClaimResult(jobs: Table<Job>, now: real, locked: set<nat>): Option<ClaimedJob> {
    var id := Oldest(jobs.rows, now, locked, jobs.next);
    if id.None? then None
    else
      var job := jobs.rows[id.value];
      Some(ClaimedJob(id.value, job.sourceId, job.attempts + 1, job.maxAttempts))
  }

  /** Of the waiting jobs whose time has come and that nobody has locked, the one created first is claimed. */
  lemma OldestIsClaimed(jobs: Table<Job>, now: real, locked: set<nat>)
    requires Numbered(jobs)
    ensures var claimed := ClaimResult(jobs, now, locked);
      forall j | j in jobs.rows && jobs.rows[j].status == Pending && j !in locked &&
        (jobs.rows[j].runAfter == None || jobs.rows[j].runAfter.value <= now) ::
        claimed.Some? && claimed.value.id in jobs.rows &&
        jobs.rows[claimed.value.id].createdAt <= jobs.rows[j].createdAt &&
        (jobs.rows[claimed.value.id].createdAt == jobs.rows[j].createdAt ==> claimed.value.id <= j)
    ensures var claimed := ClaimResult(jobs, now, locked);
      claimed.Some? ==>
        var id := claimed.value.id;
        id in jobs.rows && id !in locked && jobs.rows[id].status == Pending &&
        (jobs.rows[id].runAfter == None || jobs.rows[id].runAfter.value <= now) &&
        claimed.value == ClaimedJob(id, jobs.rows[id].sourceId, jobs.rows[id].attempts + 1, jobs.rows[id].maxAttempts)
  {
    hide Before;
  }

  function AfterBeat(jobs: Table<Job>, id: nat, now: real): Table<Job> {
    if id in jobs.rows then jobs.(rows := jobs.rows[id := BeatRow(jobs.rows[id], now)]) else jobs
  }

  function AfterFail(jobs: Table<Job>, claimed: ClaimedJob, error: string, now: real, jitter: real): Table<Job> {
    if claimed.id in jobs.rows
    then jobs.(rows := jobs.rows[claimed.id := FailedRow(jobs.rows[claimed.id], claimed, error, now, jitter)])
    else jobs
  }

  function AfterFinish(jobs: Table<Job>, id: nat, started: real, now: real): Table<Job> {
    if id in jobs.rows then jobs.(rows := jobs.rows[id := FinishedRow(jobs.rows[id], started, now)]) else jobs
  }

  function AfterRecover(jobs: Table<Job>, now: real, staleAfter: real): Table<Job> {
    jobs.(rows := map id | id in jobs.rows :: RecoveredRow(jobs.rows[id], now, staleAfter))
  }

  predicate HasActive(jobs: map<nat, Job>, sourceId: nat) {
    exists id :: id in jobs && jobs[id].sourceId == sourceId && Active(jobs[id])
  }

  function AfterCreate(jobs: Table<Job>, sourceId: nat, now: real): Table<Job> {
    Table(jobs.rows[jobs.next := NewJob(sourceId, now)], jobs.next + 1)
  }

  /** The rows touched by the two updates are the silent rows, each touched once. */
  lemma RecoveredOnce(rows: map<nat, Job>, mid: map<nat, Job>, now: real, staleAfter: real)
    requires mid.Keys == rows.Keys
    requires forall id :: id in rows ==>
      mid[id] ==
        if Silent(rows[id], now, staleAfter) && Exhausted(rows[id]) then GivenUpRow(rows[id], now) else rows[id]
    ensures |set id | id in rows && Silent(rows[id], now, staleAfter)| ==
      |set id | id in rows && Silent(rows[id], now, staleAfter) && Touches(rows[id], true)| +
      |set id | id in mid && Silent(mid[id], now, staleAfter) && Touches(mid[id], false)|
  {
    var all := set id | id in rows && Silent(rows[id], now, staleAfter);
    var a := set id | id in rows && Silent(rows[id], now, staleAfter) && Touches(rows[id], true);
    var b := set id | id in mid && Silent(mid[id], now, staleAfter) && Touches(mid[id], false);
    assert a !! b && all == a + b;
  }

  class JobTable {
    var jobs: Table<Job>

    constructor ()
      ensures jobs == Empty()
    {
      jobs := Empty();
    }

    method Create(sourceId: nat, now: real) returns (id: nat)
      modifies this
      ensures jobs == AfterCreate(old(jobs), sourceId, now) && id == old(jobs.next)
    {
      id := jobs.next;
      jobs := Table(jobs.rows[id := NewJob(sourceId, now)], id + 1);
    }

    method Claim(worker: string, now: real, locked: set<nat>) returns (claimed: Option<ClaimedJob>)
      modifies this
      ensures jobs == AfterClaim(old(jobs), worker, now, locked)
      ensures claimed == ClaimResult(old(jobs), now, locked)
      ensures claimed.Some? ==>
        forall j | j in old(jobs).rows && j < old(jobs).next && old(jobs).rows[j].status == Pending && j !in locked &&
          (old(jobs).rows[j].runAfter == None || old(jobs).rows[j].runAfter.value <= now) ::
          var first := old(jobs).rows[claimed.value.id].createdAt;
          first < old(jobs).rows[j].createdAt || (first == old(jobs).rows[j].createdAt && claimed.value.id <= j)
    {
      var candidate := Oldest(jobs.rows, now, locked, jobs.next);
      if candidate.None? {
        return None;
      }
      var id := candidate.value;
      jobs := jobs.(rows := jobs.rows[id := ClaimedRow(jobs.rows[id], worker, now)]);
      var row := jobs.rows[id];
      claimed := Some(ClaimedJob(id, row.sourceId, row.attempts, row.maxAttempts));
    }

    method Heartbeat(id: nat, now: real)
      modifies this
      ensures jobs == AfterBeat(old(jobs), id, now)
    {
      if id in jobs.rows && jobs.rows[id].status == Running {
        jobs := jobs.(rows := jobs.rows[id := jobs.rows[id].(heartbeatAt := Some(now))]);
      } else {
        assert jobs.rows == (if id in jobs.rows then jobs.rows[id := jobs.rows[id]] else jobs.rows);
      }
    }

    method Fail(claimed: ClaimedJob, error: string, now: real, jitter: real) returns (status: JobStatus)
      modifies this
      ensures jobs == AfterFail(old(jobs), claimed, error, now, jitter)
      ensures status == if claimed.attempts < claimed.maxAttempts then Pending else Failed
    {
      status := if claimed.attempts < claimed.maxAttempts then Pending else Failed;
      if claimed.id in jobs.rows {
        jobs := jobs.(rows := jobs.rows[claimed.id := FailedRow(jobs.rows[claimed.id], claimed, error, now, jitter)]);
      }
    }

    method MarkRunning(id: nat, now: real)
      requires id in jobs.rows
      modifies this
      ensures var row := old(jobs).rows[id].(status := Running, startedAt := Some(now));
        jobs == old(jobs).(rows := old(jobs).rows[id := row])
    {
      jobs := jobs.(rows := jobs.rows[id := jobs.rows[id].(status := Running, startedAt := Some(now))]);
    }

    method MarkFinished(id: nat, status: JobStatus, error: Option<string>, now: real)
      requires id in jobs.rows
      modifies this
      ensures jobs == old(jobs).(rows :=
        old(jobs).rows[id := old(jobs).rows[id].(status := status, error := error, finishedAt := Some(now))])
    {
      jobs := jobs.(rows := jobs.rows[id := jobs.rows[id].(status := status, error := error, finishedAt := Some(now))]);
    }

    /** UPDATE ... WHERE the row is silent, and also exhausted when `exhausted` is asked for. */
    method UpdateSilent(now: real, staleAfter: real, exhausted: bool) returns (count: nat)
      modifies this
      ensures jobs.next == old(jobs).next && jobs.rows.Keys == old(jobs).rows.Keys
      ensures forall id :: id in jobs.rows ==>
        jobs.rows[id] == if Silent(old(jobs).rows[id], now, staleAfter) && Touches(old(jobs).rows[id], exhausted)
                         then (if exhausted then GivenUpRow(old(jobs).rows[id], now)
                               else RequeuedRow(old(jobs).rows[id]))
                         else old(jobs).rows[id]
      ensures count == |set id | id in old(jobs).rows && Silent(old(jobs).rows[id], now, staleAfter) &&
        Touches(old(jobs).rows[id], exhausted)|
    {
      var touched := set id | id in jobs.rows && Silent(jobs.rows[id], now, staleAfter) &&
        Touches(jobs.rows[id], exhausted);
      count := |touched|;
      jobs := jobs.(rows := map id | id in jobs.rows ::
        if id in touched then (if exhausted then GivenUpRow(jobs.rows[id], now) else RequeuedRow(jobs.rows[id]))
        else jobs.rows[id]);
    }

    /** Two updates in a row, the first for exhausted jobs, amount to recovering each silent row once. */
    method RecoverStale(now: real, staleAfter: real) returns (count: nat)
      modifies this
      ensures jobs == AfterRecover(old(jobs), now, staleAfter)
      ensures count == |set id | id in old(jobs).rows && Silent(old(jobs).rows[id], now, staleAfter)|
    {
      var first := UpdateSilent(now, staleAfter, true);
      ghost var mid := jobs.rows;
      var second := UpdateSilent(now, staleAfter, false);
      count := first + second;
      assert jobs.rows == AfterRecover(old(jobs), now, staleAfter).rows;
      RecoveredOnce(old(jobs).rows, mid, now, staleAfter);
    }

    /** Lock, look, insert: the source row's lock is held throughout, so nothing comes in between. */
    method EnqueueIfIdle(sourceId: nat, now: real) returns (id: Option<nat>)
      modifies this
      ensures id.None? <==> HasActive(old(jobs).rows, sourceId)
      ensures jobs == if HasActive(old(jobs).rows, sourceId) then old(jobs) else AfterCreate(old(jobs), sourceId, now)
    {
      if HasActive(jobs.rows, sourceId) {
        return None;
      }
      var created := Create(sourceId, now);
      id := Some(created);
    }
  }
}
