/**
 * The job queue as a protocol: workers, schedulers and a clock over one table of job rows. Each step is one
 * committed transaction (app/jobs/worker.py, app/jobs/queue.py, app/jobs/service.py).
 */
module Protocol {
  import opened Text
  import opened Tables
  import opened Queue

  /** A live worker's claim, and when it last committed a heartbeat (the claim being the first). */
  datatype Hold = Hold(job: ClaimedJob, lastBeat: real)

  /** A scheduler that holds a source row's lock; `idle` is what it saw when it looked for active jobs. */
  datatype Check = Check(sourceId: nat, idle: Option<bool>)

  datatype Sys = Sys(
    jobs: Table<Job>, now: real, holds: map<string, Hold>, checks: map<nat, Check>, claims: seq<ClaimedJob>)

  datatype Step =
    | Tick(elapsed: real)
    | Claim(worker: string, locked: set<nat>)
    | Beat(worker: string)
    | Fail(worker: string, error: string, jitter: real)
    | Finish(worker: string, started: real)
    | Recover
    | Die(worker: string)
    | Lock(scheduler: nat, sourceId: nat)
    | Look(scheduler: nat)
    | Insert(scheduler: nat)

  /** What the code itself enforces. */
  ghost predicate Enabled(s: Sys, step: Step) {
    match step
    case Tick(elapsed) => elapsed >= 0.0
    case Claim(w, _) => w !in s.holds
    case Beat(w) => w in s.holds
    case Fail(w, _, jitter) => w in s.holds && 0.0 <= jitter <= 1.0
    case Finish(w, _) => w in s.holds
    case Recover => true
    case Die(w) => w in s.holds
    case Lock(k, sourceId) => k !in s.checks && forall j :: j in s.checks ==> s.checks[j].sourceId != sourceId
    case Look(k) => k in s.checks && s.checks[k].idle.None?
    case Insert(k) => k in s.checks && s.checks[k].idle.Some?
  }

  /** No live worker lets more than `gap` pass between committed heartbeats. */
  ghost predicate Paced(s: Sys, step: Step, gap: real) {
    step.Tick? ==> forall w :: w in s.holds ==> s.now + step.elapsed - s.holds[w].lastBeat <= gap
  }

  /** The timing assumption: the gap is within what the sweep tolerates. */
  ghost predicate Timely(s: Sys, step: Step, staleAfter: real) {
    Paced(s, step, staleAfter)
  }

  function Next(s: Sys, step: Step, staleAfter: real): Sys {
    match step
    case Tick(elapsed) => s.(now := s.now + elapsed)
    case Claim(w, locked) =>
      var claimed := ClaimResult(s.jobs, s.now, locked);
      if claimed.None? then s
      else s.(jobs := AfterClaim(s.jobs, w, s.now, locked),
              holds := s.holds[w := Hold(claimed.value, s.now)],
              claims := s.claims + [claimed.value])
    case Beat(w) =>
      if w !in s.holds then s
      else s.(jobs := AfterBeat(s.jobs, s.holds[w].job.id, s.now),
              holds := s.holds[w := s.holds[w].(lastBeat := s.now)])
    case Fail(w, error, jitter) =>
      if w !in s.holds then s
      else s.(jobs := AfterFail(s.jobs, s.holds[w].job, error, s.now, jitter), holds := s.holds - {w})
    case Finish(w, started) =>
      if w !in s.holds then s
      else s.(jobs := AfterFinish(s.jobs, s.holds[w].job.id, started, s.now), holds := s.holds - {w})
    case Recover => s.(jobs := AfterRecover(s.jobs, s.now, staleAfter))
    case Die(w) => s.(holds := s.holds - {w})
    case Lock(k, sourceId) => s.(checks := s.checks[k := Check(sourceId, None)])
    case Look(k) =>
      if k !in s.checks then s
      else s.(checks := s.checks[k := s.checks[k].(idle := Some(!HasActive(s.jobs.rows, s.checks[k].sourceId)))])
    case Insert(k) =>
      if k !in s.checks then s
      else
        s.(jobs := if s.checks[k].idle == Some(true) then AfterCreate(s.jobs, s.checks[k].sourceId, s.now) else s.jobs,
           checks := s.checks - {k})
  }

  // ---- invariants of the timely system ----

  /** A row that the lifecycle can produce. */
  ghost predicate RowOk(job: Job) {
    job.maxAttempts >= 1 &&
    (job.status == Pending ==> job.attempts < job.maxAttempts) &&
    (job.status == Running ==> 1 <= job.attempts <= job.maxAttempts && job.heartbeatAt.Some?) &&
    (job.finishedAt.Some? <==> Terminal(job))
  }

  /** The row is still this worker's: running, at the attempt it was given, beaten when it last beat. */
  ghost predicate Fenced(s: Sys, w: string)
    requires w in s.holds
  {
    var h := s.holds[w];
    h.job.id in s.jobs.rows &&
    var row := s.jobs.rows[h.job.id];
    row.status == Running && row.claimedBy == Some(w) && row.heartbeatAt == Some(h.lastBeat) &&
    row.attempts == h.job.attempts && row.maxAttempts == h.job.maxAttempts
  }

  ghost predicate HoldsFenced(s: Sys, staleAfter: real) {
    forall w :: w in s.holds ==> Fenced(s, w) && s.now - s.holds[w].lastBeat <= staleAfter
  }

  ghost predicate OneActivePerSource(jobs: map<nat, Job>) {
    forall i, j | i in jobs && j in jobs && Active(jobs[i]) && Active(jobs[j]) &&
      jobs[i].sourceId == jobs[j].sourceId :: i == j
  }

  ghost predicate LocksExclusive(s: Sys) {
    (forall j, k | j in s.checks && k in s.checks && s.checks[j].sourceId == s.checks[k].sourceId :: j == k) &&
    (forall k :: k in s.checks && s.checks[k].idle == Some(true) ==> !HasActive(s.jobs.rows, s.checks[k].sourceId))
  }

  ghost predicate RowsOk(jobs: Table<Job>) {
    Numbered(jobs) && forall id :: id in jobs.rows ==> RowOk(jobs.rows[id])
  }

  ghost predicate Inv(s: Sys, staleAfter: real) {
    staleAfter >= 0.0 && RowsOk(s.jobs) && HoldsFenced(s, staleAfter) &&
    OneActivePerSource(s.jobs.rows) && LocksExclusive(s)
  }

  /** No two live workers hold the same job. */
  lemma OneHolderPerJob(s: Sys, staleAfter: real, v: string, w: string)
    requires HoldsFenced(s, staleAfter) && v in s.holds && w in s.holds && s.holds[v].job.id == s.holds[w].job.id
    ensures v == w
  {
    assert Fenced(s, v) && Fenced(s, w);
  }

  /** The lifecycle of one row: it stays, or its remaining life gets strictly shorter; a finished row is frozen. */
  function Life(job: Job): nat
    requires RowOk(job)
  {
    if Terminal(job) then 0
    else if job.status == Running then 2 * (job.maxAttempts - job.attempts) + 1
    else 2 * (job.maxAttempts - job.attempts)
  }

  ghost predicate Moves(before: Job, after: Job) {
    RowOk(before) && RowOk(after) && after.sourceId == before.sourceId && after.maxAttempts == before.maxAttempts &&
    (Terminal(before) ==> after == before) &&
    ((after.status == before.status && after.attempts == before.attempts) || Life(after) < Life(before))
  }

  lemma RowsMove(job: Job, worker: string, now: real, staleAfter: real)
    requires RowOk(job)
    ensures Moves(job, job) && Moves(job, BeatRow(job, now)) && Moves(job, RecoveredRow(job, now, staleAfter))
    ensures job.status == Pending ==> Moves(job, ClaimedRow(job, worker, now))
  {
  }

  /** A report against the attempt the row is at. */
  lemma ReportsMove(job: Job, claimed: ClaimedJob, error: string, started: real, now: real, jitter: real)
    requires RowOk(job) && job.status == Running
    requires claimed.attempts == job.attempts && claimed.maxAttempts == job.maxAttempts
    ensures Moves(job, FinishedRow(job, started, now)) && Moves(job, FailedRow(job, claimed, error, now, jitter))
  {
    hide BackoffSeconds, Clip;
  }

  lemma MovesKeepsRows(jobs: Table<Job>, jobs': Table<Job>)
    requires RowsOk(jobs) && jobs'.next == jobs.next && jobs'.rows.Keys == jobs.rows.Keys
    requires forall id :: id in jobs.rows ==> Moves(jobs.rows[id], jobs'.rows[id])
    ensures RowsOk(jobs')
  {
    hide RowOk;
    assert forall id :: id in jobs.rows ==> RowOk(jobs'.rows[id]) by {
      forall id | id in jobs.rows ensures RowOk(jobs'.rows[id]) {
        MovedRowOk(jobs.rows[id], jobs'.rows[id]);
      }
    }
  }

  lemma MovedRowOk(before: Job, after: Job)
    requires Moves(before, after)
    ensures RowOk(after)
  {
  }

  /** A statement that rewrites one existing row without making a finished one active. */
  lemma RewriteKeepsSources(rows: map<nat, Job>, id: nat, row: Job)
    requires id in rows && row.sourceId == rows[id].sourceId && (Active(row) ==> Active(rows[id]))
    requires OneActivePerSource(rows)
    ensures OneActivePerSource(rows[id := row])
    ensures forall src :: HasActive(rows[id := row], src) ==> HasActive(rows, src)
  {
    forall src | HasActive(rows[id := row], src) ensures HasActive(rows, src) {
      var i :| i in rows[id := row] && rows[id := row][i].sourceId == src && Active(rows[id := row][i]);
      assert rows[i].sourceId == src && Active(rows[i]);
    }
  }

  /** What one worker's statement on one row does to the other workers' holds: nothing. */
  lemma OthersStayFenced(s: Sys, s': Sys, staleAfter: real, id: nat, row: Job)
    requires HoldsFenced(s, staleAfter) && s'.now == s.now && id in s.jobs.rows
    requires s'.jobs.rows == s.jobs.rows[id := row]
    requires forall w :: w in s'.holds && (w !in s.holds || s'.holds[w] != s.holds[w] || s.holds[w].job.id == id) ==>
      Fenced(s', w) && s'.now - s'.holds[w].lastBeat <= staleAfter
    ensures HoldsFenced(s', staleAfter)
  {
    forall w | w in s'.holds ensures Fenced(s', w) && s'.now - s'.holds[w].lastBeat <= staleAfter {
      if w in s.holds && s'.holds[w] == s.holds[w] && s.holds[w].job.id != id {
        assert Fenced(s, w);
      }
    }
  }

  lemma SchedulersUnaffected(s: Sys, s': Sys)
    requires LocksExclusive(s) && s'.checks == s.checks
    requires forall src :: HasActive(s'.jobs.rows, src) ==> HasActive(s.jobs.rows, src)
    ensures LocksExclusive(s')
  {
  }

  lemma ClaimKeepsInv(s: Sys, w: string, locked: set<nat>, staleAfter: real)
    requires Inv(s, staleAfter) && w !in s.holds
    ensures Inv(Next(s, Claim(w, locked), staleAfter), staleAfter)
    ensures forall id :: id in s.jobs.rows ==>
      Moves(s.jobs.rows[id], Next(s, Claim(w, locked), staleAfter).jobs.rows[id])
  {
    hide HasActive, RowOk, Moves;
    var s' := Next(s, Claim(w, locked), staleAfter);
    forall id | id in s.jobs.rows ensures Moves(s.jobs.rows[id], s'.jobs.rows[id]) {
      RowsMove(s.jobs.rows[id], w, s.now, staleAfter);
    }
    MovesKeepsRows(s.jobs, s'.jobs);
    var found := Oldest(s.jobs.rows, s.now, locked, s.jobs.next);
    if found.Some? {
      var id := found.value;
      var row := ClaimedRow(s.jobs.rows[id], w, s.now);
      RewriteKeepsSources(s.jobs.rows, id, row);
      forall v | v in s.holds ensures s.holds[v].job.id != id {
        assert Fenced(s, v);
      }
      OthersStayFenced(s, s', staleAfter, id, row);
      SchedulersUnaffected(s, s');
    }
  }

  lemma BeatKeepsInv(s: Sys, w: string, staleAfter: real)
    requires Inv(s, staleAfter) && w in s.holds
    ensures Inv(Next(s, Beat(w), staleAfter), staleAfter)
    ensures forall id :: id in s.jobs.rows ==> Moves(s.jobs.rows[id], Next(s, Beat(w), staleAfter).jobs.rows[id])
  {
    hide HasActive, RowOk, Moves;
    var s', id := Next(s, Beat(w), staleAfter), s.holds[w].job.id;
    assert Fenced(s, w);
    forall i | i in s.jobs.rows ensures Moves(s.jobs.rows[i], s'.jobs.rows[i]) {
      RowsMove(s.jobs.rows[i], w, s.now, staleAfter);
    }
    MovesKeepsRows(s.jobs, s'.jobs);
    var row := BeatRow(s.jobs.rows[id], s.now);
    RewriteKeepsSources(s.jobs.rows, id, row);
    OnlyHolder(s, w, staleAfter);
    OthersStayFenced(s, s', staleAfter, id, row);
    SchedulersUnaffected(s, s');
  }

  lemma OnlyHolder(s: Sys, w: string, staleAfter: real)
    requires HoldsFenced(s, staleAfter) && w in s.holds
    ensures forall v :: v in s.holds && s.holds[v].job.id == s.holds[w].job.id ==> v == w
  {
    forall v | v in s.holds && s.holds[v].job.id == s.holds[w].job.id ensures v == w {
      OneHolderPerJob(s, staleAfter, v, w);
    }
  }

  /** A failure or completion reported by a live worker always meets the row it claimed. */
  lemma ReportKeepsInv(s: Sys, step: Step, staleAfter: real)
    requires Inv(s, staleAfter) && (step.Fail? || step.Finish?) && Enabled(s, step)
    ensures Inv(Next(s, step, staleAfter), staleAfter)
    ensures forall id :: id in s.jobs.rows ==> Moves(s.jobs.rows[id], Next(s, step, staleAfter).jobs.rows[id])
  {
    hide HasActive, BackoffSeconds, Clip, RowOk, Moves;
    var s', id := Next(s, step, staleAfter), s.holds[step.worker].job.id;
    assert Fenced(s, step.worker);
    forall i | i in s.jobs.rows ensures Moves(s.jobs.rows[i], s'.jobs.rows[i]) {
      RowsMove(s.jobs.rows[i], step.worker, s.now, staleAfter);
      if i == id {
        ReportsMove(s.jobs.rows[i], s.holds[step.worker].job, if step.Fail? then step.error else "",
                    if step.Finish? then step.started else 0.0, s.now, if step.Fail? then step.jitter else 0.0);
      }
    }
    MovesKeepsRows(s.jobs, s'.jobs);
    var row := s'.jobs.rows[id];
    RewriteKeepsSources(s.jobs.rows, id, row);
    OnlyHolder(s, step.worker, staleAfter);
    OthersStayFenced(s, s', staleAfter, id, row);
    SchedulersUnaffected(s, s');
  }

  /** While workers are timely the sweep only takes jobs that no live worker holds. */
  lemma RecoverTakesOnlyOrphans(s: Sys, staleAfter: real, id: nat)
    requires HoldsFenced(s, staleAfter) && id in s.jobs.rows
    requires AfterRecover(s.jobs, s.now, staleAfter).rows[id] != s.jobs.rows[id]
    ensures s.jobs.rows[id].status == Running && forall w :: w in s.holds ==> s.holds[w].job.id != id
  {
    forall w | w in s.holds ensures s.holds[w].job.id != id {
      assert Fenced(s, w);
    }
  }

  /** Timeliness is exactly what protects a live worker: its job is swept just when it has been silent too long. */
  lemma LiveJobIsSweptExactlyWhenSilent(s: Sys, staleAfter: real, w: string)
    requires w in s.holds && Fenced(s, w)
    ensures var id := s.holds[w].job.id;
      AfterRecover(s.jobs, s.now, staleAfter).rows[id].status != Running <==> s.now - s.holds[w].lastBeat > staleAfter
  {
  }

  lemma RecoverNeverRevives(job: Job, now: real, staleAfter: real)
    ensures RecoveredRow(job, now, staleAfter).sourceId == job.sourceId
    ensures Active(RecoveredRow(job, now, staleAfter)) ==> Active(job)
  {
  }

  lemma RecoverKeepsInv(s: Sys, staleAfter: real)
    requires Inv(s, staleAfter)
    ensures Inv(Next(s, Recover, staleAfter), staleAfter)
    ensures forall id :: id in s.jobs.rows ==> Moves(s.jobs.rows[id], Next(s, Recover, staleAfter).jobs.rows[id])
  {
    hide RowOk, Moves, RecoveredRow;
    var s' := Next(s, Recover, staleAfter);
    forall i | i in s.jobs.rows ensures Moves(s.jobs.rows[i], s'.jobs.rows[i]) {
      RowsMove(s.jobs.rows[i], "", s.now, staleAfter);
    }
    MovesKeepsRows(s.jobs, s'.jobs);
    forall id | id in s.jobs.rows
      ensures s'.jobs.rows[id].sourceId == s.jobs.rows[id].sourceId &&
        (Active(s'.jobs.rows[id]) ==> Active(s.jobs.rows[id]))
    {
      RecoverNeverRevives(s.jobs.rows[id], s.now, staleAfter);
    }
    forall w | w in s'.holds ensures Fenced(s', w) {
      assert Fenced(s, w);
      var id := s.holds[w].job.id;
      if s'.jobs.rows[id] != s.jobs.rows[id] {
        RecoverTakesOnlyOrphans(s, staleAfter, id);
      }
    }
    forall src | HasActive(s'.jobs.rows, src) ensures HasActive(s.jobs.rows, src) {
      var i :| i in s'.jobs.rows && s'.jobs.rows[i].sourceId == src && Active(s'.jobs.rows[i]);
      assert Active(s.jobs.rows[i]) && s.jobs.rows[i].sourceId == src;
    }
    SchedulersUnaffected(s, s');
  }

  /** Only the holder of a source's lock can give that source a job, and only after seeing none. */
  lemma InsertKeepsInv(s: Sys, k: nat, staleAfter: real)
    requires Inv(s, staleAfter) && k in s.checks && s.checks[k].idle.Some?
    ensures Inv(Next(s, Insert(k), staleAfter), staleAfter)
    ensures forall id :: id in s.jobs.rows ==> Moves(s.jobs.rows[id], Next(s, Insert(k), staleAfter).jobs.rows[id])
  {
    var s' := Next(s, Insert(k), staleAfter);
    forall w | w in s'.holds ensures Fenced(s', w) {
      assert Fenced(s, w);
    }
    if s.checks[k].idle == Some(true) {
      var src := s.checks[k].sourceId;
      forall i, j | i in s'.jobs.rows && j in s'.jobs.rows && Active(s'.jobs.rows[i]) && Active(s'.jobs.rows[j]) &&
        s'.jobs.rows[i].sourceId == s'.jobs.rows[j].sourceId
        ensures i == j
      {
        assert forall x :: x in s.jobs.rows && s.jobs.rows[x].sourceId == src ==> !Active(s.jobs.rows[x]);
      }
      forall j | j in s'.checks && s'.checks[j].idle == Some(true)
        ensures !HasActive(s'.jobs.rows, s'.checks[j].sourceId)
      {
        if HasActive(s'.jobs.rows, s'.checks[j].sourceId) {
          var i :| i in s'.jobs.rows && s'.jobs.rows[i].sourceId == s'.checks[j].sourceId && Active(s'.jobs.rows[i]);
          assert i in s.jobs.rows;
          assert HasActive(s.jobs.rows, s'.checks[j].sourceId);
        }
      }
    }
  }

  lemma LookKeepsInv(s: Sys, step: Step, staleAfter: real)
    requires Inv(s, staleAfter) && Enabled(s, step) && Timely(s, step, staleAfter)
    requires step.Tick? || step.Die? || step.Lock? || step.Look?
    ensures Inv(Next(s, step, staleAfter), staleAfter) && Next(s, step, staleAfter).jobs == s.jobs
    ensures forall id :: id in s.jobs.rows ==> Moves(s.jobs.rows[id], s.jobs.rows[id])
  {
    hide HasActive;
    var s' := Next(s, step, staleAfter);
    forall w | w in s'.holds ensures Fenced(s', w) {
      assert Fenced(s, w);
    }
  }

  /** Every timely step keeps the invariant and moves every row forward or not at all. */
  lemma StepKeepsInv(s: Sys, step: Step, staleAfter: real)
    requires Inv(s, staleAfter) && Enabled(s, step) && Timely(s, step, staleAfter)
    ensures var s' := Next(s, step, staleAfter);
      Inv(s', staleAfter) &&
      (forall id :: id in s.jobs.rows ==> id in s'.jobs.rows && Moves(s.jobs.rows[id], s'.jobs.rows[id]))
  {
    hide Inv, HasActive, Moves;
    match step
    case Claim(w, locked) => ClaimKeepsInv(s, w, locked, staleAfter);
    case Beat(w) => BeatKeepsInv(s, w, staleAfter);
    case Fail(_, _, _) => ReportKeepsInv(s, step, staleAfter);
    case Finish(_, _) => ReportKeepsInv(s, step, staleAfter);
    case Recover => RecoverKeepsInv(s, staleAfter);
    case Insert(k) => InsertKeepsInv(s, k, staleAfter);
    case _ => LookKeepsInv(s, step, staleAfter);
  }

  // ---- whole runs ----

  function Exec(s: Sys, steps: seq<Step>, staleAfter: real): Sys {
    if steps == [] then s
    else Next(Exec(s, steps[..|steps| - 1], staleAfter), steps[|steps| - 1], staleAfter)
  }

  /** A run the code allows. */
  ghost predicate Possible(s: Sys, steps: seq<Step>, staleAfter: real) {
    steps == [] ||
    (Possible(s, steps[..|steps| - 1], staleAfter) &&
     Enabled(Exec(s, steps[..|steps| - 1], staleAfter), steps[|steps| - 1]))
  }

  /** A run in which live workers also beat in time. */
  ghost predicate TimelyRun(s: Sys, steps: seq<Step>, staleAfter: real) {
    steps == [] ||
    (TimelyRun(s, steps[..|steps| - 1], staleAfter) &&
     Enabled(Exec(s, steps[..|steps| - 1], staleAfter), steps[|steps| - 1]) &&
     Timely(Exec(s, steps[..|steps| - 1], staleAfter), steps[|steps| - 1], staleAfter))
  }

  /** A run in which live workers beat at least every `gap`, whatever the sweep tolerates. */
  ghost predicate PacedRun(s: Sys, steps: seq<Step>, staleAfter: real, gap: real) {
    steps == [] ||
    (PacedRun(s, steps[..|steps| - 1], staleAfter, gap) &&
     Enabled(Exec(s, steps[..|steps| - 1], staleAfter), steps[|steps| - 1]) &&
     Paced(Exec(s, steps[..|steps| - 1], staleAfter), steps[|steps| - 1], gap))
  }

  const START := Sys(Empty(), 0.0, map[], map[], [])

  lemma {:induction false} RunKeepsInv(s: Sys, steps: seq<Step>, staleAfter: real)
    requires Inv(s, staleAfter) && TimelyRun(s, steps, staleAfter)
    ensures Inv(Exec(s, steps, staleAfter), staleAfter)
  {
    hide Inv, Enabled, Timely, Next;
    if steps != [] {
      RunKeepsInv(s, steps[..|steps| - 1], staleAfter);
      StepKeepsInv(Exec(s, steps[..|steps| - 1], staleAfter), steps[|steps| - 1], staleAfter);
    }
  }

  /**
   * Lease safety. In every timely run each running job has at most one live holder, what a live worker
   * reports meets the row at its own attempt, and the sweep takes no live worker's job.
   */
  lemma LeasesAreSafe(steps: seq<Step>, staleAfter: real, w: string)
    requires staleAfter >= 0.0 && TimelyRun(START, steps, staleAfter)
    requires w in Exec(START, steps, staleAfter).holds
    ensures var s := Exec(START, steps, staleAfter);
      var job := s.holds[w].job;
      job.id in s.jobs.rows && s.jobs.rows[job.id].status == Running &&
      s.jobs.rows[job.id].attempts == job.attempts <= s.jobs.rows[job.id].maxAttempts &&
      (forall v :: v in s.holds && s.holds[v].job.id == job.id ==> v == w) &&
      AfterRecover(s.jobs, s.now, staleAfter).rows[job.id] == s.jobs.rows[job.id]
  {
    hide Next, Exec;
    assert Inv(START, staleAfter);
    RunKeepsInv(START, steps, staleAfter);
    var s := Exec(START, steps, staleAfter);
    assert Fenced(s, w);
    OnlyHolder(s, w, staleAfter);
    if AfterRecover(s.jobs, s.now, staleAfter).rows[s.holds[w].job.id] != s.jobs.rows[s.holds[w].job.id] {
      RecoverTakesOnlyOrphans(s, staleAfter, s.holds[w].job.id);
    }
  }

  /** In every timely run attempts stay in bounds, only finished jobs have an end, and sources do not double up. */
  lemma {:induction false} ReachableRows(steps: seq<Step>, staleAfter: real, id: nat)
    requires staleAfter >= 0.0 && TimelyRun(START, steps, staleAfter)
    requires id in Exec(START, steps, staleAfter).jobs.rows
    ensures var rows := Exec(START, steps, staleAfter).jobs.rows;
      var job := rows[id];
      (job.status == Pending ==> job.attempts < job.maxAttempts) &&
      (job.status == Running ==> 1 <= job.attempts <= job.maxAttempts) &&
      (job.finishedAt.Some? <==> job.status == Completed || job.status == Failed) &&
      (Active(job) ==> forall j :: j in rows && j != id && Active(rows[j]) ==> rows[j].sourceId != job.sourceId)
  {
    hide Next, Exec, HasActive;
    assert Inv(START, staleAfter);
    RunKeepsInv(START, steps, staleAfter);
  }

  /** Times the status or attempt number of a job changes along a run. */
  function Changes(s: Sys, steps: seq<Step>, staleAfter: real, id: nat): nat {
    if steps == [] then 0
    else
      var init := steps[..|steps| - 1];
      var a, b := Exec(s, init, staleAfter).jobs.rows, Exec(s, steps, staleAfter).jobs.rows;
      Changes(s, init, staleAfter, id) +
      if id in a && id in b && (a[id].status != b[id].status || a[id].attempts != b[id].attempts) then 1 else 0
  }

  /** Every job dies out: at most twice its attempts in changes, and once finished it never changes again. */
  lemma {:induction false} LifeIsBounded(s: Sys, steps: seq<Step>, staleAfter: real, id: nat)
    requires Inv(s, staleAfter) && TimelyRun(s, steps, staleAfter) && id in s.jobs.rows
    ensures var rows := Exec(s, steps, staleAfter).jobs.rows;
      id in rows && RowOk(s.jobs.rows[id]) && RowOk(rows[id]) &&
      Changes(s, steps, staleAfter, id) + Life(rows[id]) <= Life(s.jobs.rows[id]) <= 2 * s.jobs.rows[id].maxAttempts &&
      rows[id].maxAttempts == s.jobs.rows[id].maxAttempts &&
      (Terminal(s.jobs.rows[id]) ==> rows[id] == s.jobs.rows[id])
  {
    hide Inv, Enabled, Timely, Next, RowOk, Terminal;
    assert RowOk(s.jobs.rows[id]) by { InvRowOk(s, staleAfter, id); }
    LifeAtMostTwice(s.jobs.rows[id]);
    if steps != [] {
      var init, last := steps[..|steps| - 1], steps[|steps| - 1];
      LifeIsBounded(s, init, staleAfter, id);
      RunKeepsInv(s, init, staleAfter);
      StepKeepsInv(Exec(s, init, staleAfter), last, staleAfter);
    }
  }

  lemma InvRowOk(s: Sys, staleAfter: real, id: nat)
    requires Inv(s, staleAfter) && id in s.jobs.rows
    ensures RowOk(s.jobs.rows[id])
  {
  }

  lemma LifeAtMostTwice(job: Job)
    requires RowOk(job)
    ensures Life(job) <= 2 * job.maxAttempts
  {
  }

  // ---- retry delays over a job's life ----

  /** RawDelay(from) + ... + RawDelay(max - 1). */
  function DelayBudget(from: nat, max: nat): real
    decreases max - from
  {
    if from >= max then 0.0 else RawDelay(from) + DelayBudget(from + 1, max)
  }

  /** The backoff a step imposes on a job. */
  function Imposed(s: Sys, step: Step, id: nat): real {
    if step.Fail? && step.worker in s.holds && s.holds[step.worker].job.id == id &&
       s.holds[step.worker].job.attempts < s.holds[step.worker].job.maxAttempts
    then BackoffSeconds(s.holds[step.worker].job.attempts, step.jitter) else 0.0
  }

  function TotalImposed(s: Sys, steps: seq<Step>, staleAfter: real, id: nat): real {
    if steps == [] then 0.0
    else
      var init := steps[..|steps| - 1];
      TotalImposed(s, init, staleAfter, id) + Imposed(Exec(s, init, staleAfter), steps[|steps| - 1], id)
  }

  /** The attempts of a job that have been reported as failed with retries left. */
  function Spent(s: Sys, steps: seq<Step>, staleAfter: real, id: nat): set<nat> {
    if steps == [] then {}
    else
      var init, last := steps[..|steps| - 1], steps[|steps| - 1];
      var mid := Exec(s, init, staleAfter);
      Spent(s, init, staleAfter, id) +
      if last.Fail? && last.worker in mid.holds && mid.holds[last.worker].job.id == id
      then {mid.holds[last.worker].job.attempts} else {}
  }

  /** DelayBudget without the delays already spent. */
  function Unspent(from: nat, max: nat, spent: set<nat>): real
    decreases max - from
  {
    if from >= max then 0.0
    else (if from in spent then 0.0 else RawDelay(from)) + Unspent(from + 1, max, spent)
  }

  lemma {:induction false} UnspentBounds(from: nat, max: nat, spent: set<nat>)
    ensures 0.0 <= Unspent(from, max, spent) <= DelayBudget(from, max)
    ensures spent == {} ==> Unspent(from, max, spent) == DelayBudget(from, max)
    decreases max - from
  {
    if from < max {
      CapFromSeventhAttempt(from);
      UnspentBounds(from + 1, max, spent);
    }
  }

  /** Spending one more attempt takes exactly its delay off the budget, or nothing if it is the last. */
  lemma {:induction false} SpendOne(from: nat, max: nat, spent: set<nat>, attempt: nat)
    requires attempt !in spent
    ensures Unspent(from, max, spent + {attempt}) ==
      Unspent(from, max, spent) - if from <= attempt < max then RawDelay(attempt) else 0.0
    decreases max - from
  {
    if from < max {
      SpendOne(from + 1, max, spent, attempt);
    }
  }

  /**
   * What every run keeps, timely or not: live workers may share a job, but never an attempt, and no live
   * worker's attempt has been reported as failed before.
   */
  ghost predicate AttemptsApart(s: Sys, spent: set<nat>, id: nat) {
    Numbered(s.jobs) &&
    (forall w :: w in s.holds && s.holds[w].job.id == id ==>
      id in s.jobs.rows && 1 <= s.holds[w].job.attempts <= s.jobs.rows[id].attempts &&
      s.holds[w].job.attempts !in spent && s.holds[w].job.maxAttempts == s.jobs.rows[id].maxAttempts) &&
    (forall v, w | v in s.holds && w in s.holds && s.holds[v].job.id == id && s.holds[w].job.id == id &&
      s.holds[v].job.attempts == s.holds[w].job.attempts :: v == w) &&
    (forall a :: a in spent ==> id in s.jobs.rows && a <= s.jobs.rows[id].attempts)
  }

  /** No statement takes a row away, lowers its attempts or changes how many it may have. */
  lemma StepKeepsAttempts(s: Sys, step: Step, staleAfter: real, id: nat)
    requires Numbered(s.jobs)
    ensures var jobs := Next(s, step, staleAfter).jobs;
      Numbered(jobs) &&
      (id in s.jobs.rows ==>
        id in jobs.rows && jobs.rows[id].attempts >= s.jobs.rows[id].attempts &&
        jobs.rows[id].maxAttempts == s.jobs.rows[id].maxAttempts)
  {
    hide BackoffSeconds, Clip, HasActive;
  }

  /** Giving up holds, and never taking attempts off a row, keeps attempts apart. */
  lemma FewerHoldsStayApart(s: Sys, s': Sys, spent: set<nat>, id: nat)
    requires AttemptsApart(s, spent, id) && Numbered(s'.jobs)
    requires forall w :: w in s'.holds ==> w in s.holds && s'.holds[w].job == s.holds[w].job
    requires id in s.jobs.rows ==>
      id in s'.jobs.rows && s'.jobs.rows[id].attempts >= s.jobs.rows[id].attempts &&
      s'.jobs.rows[id].maxAttempts == s.jobs.rows[id].maxAttempts
    ensures AttemptsApart(s', spent, id)
  {
  }

  lemma ClaimKeepsApart(s: Sys, w: string, locked: set<nat>, staleAfter: real, spent: set<nat>, id: nat)
    requires AttemptsApart(s, spent, id) && w !in s.holds
    ensures AttemptsApart(Next(s, Claim(w, locked), staleAfter), spent, id)
  {
    StepKeepsAttempts(s, Claim(w, locked), staleAfter, id);
  }

  lemma StepKeepsApart(s: Sys, step: Step, staleAfter: real, spent: set<nat>, id: nat)
    requires AttemptsApart(s, spent, id) && Enabled(s, step)
    ensures var spent' := spent +
        if step.Fail? && s.holds[step.worker].job.id == id then {s.holds[step.worker].job.attempts} else {};
      AttemptsApart(Next(s, step, staleAfter), spent', id)
  {
    hide AfterClaim, AfterBeat, AfterFail, AfterFinish, AfterRecover, AfterCreate, HasActive;
    StepKeepsAttempts(s, step, staleAfter, id);
    match step
    case Claim(w, locked) => ClaimKeepsApart(s, w, locked, staleAfter, spent, id);
    case _ => FewerHoldsStayApart(s, Next(s, step, staleAfter), spent, id);
  }

  lemma {:induction false} RunKeepsApart(s: Sys, steps: seq<Step>, staleAfter: real, id: nat)
    requires AttemptsApart(s, {}, id) && Possible(s, steps, staleAfter)
    ensures AttemptsApart(Exec(s, steps, staleAfter), Spent(s, steps, staleAfter, id), id)
  {
    hide AttemptsApart, Next;
    if steps != [] {
      RunKeepsApart(s, steps[..|steps| - 1], staleAfter, id);
      StepKeepsApart(Exec(s, steps[..|steps| - 1], staleAfter), steps[|steps| - 1], staleAfter,
                     Spent(s, steps[..|steps| - 1], staleAfter, id), id);
    }
  }

  /** A delay imposed on a job is at most that of an attempt not yet spent. */
  lemma ImposedIsUnspent(s: Sys, step: Step, spent: set<nat>, id: nat, max: nat)
    requires AttemptsApart(s, spent, id) && Enabled(s, step)
    requires id in s.jobs.rows ==> s.jobs.rows[id].maxAttempts == max
    ensures var spent' := spent +
        if step.Fail? && s.holds[step.worker].job.id == id then {s.holds[step.worker].job.attempts} else {};
      Imposed(s, step, id) + Unspent(1, max, spent') <= Unspent(1, max, spent)
  {
    hide BackoffSeconds, RawDelay;
    if step.Fail? && s.holds[step.worker].job.id == id {
      var attempt := s.holds[step.worker].job.attempts;
      SpendOne(1, max, spent, attempt);
      BackoffIsBounded(attempt, step.jitter);
    } else {
      assert spent + {} == spent;
    }
  }

  lemma {:induction false} MaxStays(s: Sys, steps: seq<Step>, staleAfter: real, id: nat, k: nat)
    requires Numbered(s.jobs) && k <= |steps|
    ensures Numbered(Exec(s, steps[..k], staleAfter).jobs) && Numbered(Exec(s, steps, staleAfter).jobs)
    ensures var a, b := Exec(s, steps[..k], staleAfter).jobs.rows, Exec(s, steps, staleAfter).jobs.rows;
      id in a ==> id in b && b[id].maxAttempts == a[id].maxAttempts
  {
    hide Next;
    if k == |steps| {
      assert steps[..k] == steps;
      if steps != [] {
        MaxStays(s, steps[..|steps| - 1], staleAfter, id, 0);
        StepKeepsAttempts(Exec(s, steps[..|steps| - 1], staleAfter), steps[|steps| - 1], staleAfter, id);
      }
    } else {
      MaxStays(s, steps[..|steps| - 1], staleAfter, id, k);
      assert steps[..|steps| - 1][..k] == steps[..k];
      StepKeepsAttempts(Exec(s, steps[..|steps| - 1], staleAfter), steps[|steps| - 1], staleAfter, id);
    }
  }

  lemma {:induction false} SpendingAddsUp(s: Sys, steps: seq<Step>, staleAfter: real, id: nat, max: nat)
    requires AttemptsApart(s, {}, id) && Possible(s, steps, staleAfter)
    requires id in Exec(s, steps, staleAfter).jobs.rows ==> Exec(s, steps, staleAfter).jobs.rows[id].maxAttempts == max
    ensures TotalImposed(s, steps, staleAfter, id) + Unspent(1, max, Spent(s, steps, staleAfter, id)) <=
      DelayBudget(1, max)
  {
    hide Next, Enabled, AttemptsApart, Imposed, Unspent;
    UnspentBounds(1, max, {});
    assert Numbered(s.jobs) by { ApartIsNumbered(s, {}, id); }
    if steps != [] {
      var init, last := steps[..|steps| - 1], steps[|steps| - 1];
      MaxStays(s, steps, staleAfter, id, |steps| - 1);
      SpendingAddsUp(s, init, staleAfter, id, max);
      RunKeepsApart(s, init, staleAfter, id);
      var mid := Exec(s, init, staleAfter);
      ImposedIsUnspent(mid, last, Spent(s, init, staleAfter, id), id, max);
      assert last.Fail? ==> last.worker in mid.holds by { FailIsHeld(mid, last); }
    }
  }

  lemma ApartIsNumbered(s: Sys, spent: set<nat>, id: nat)
    requires AttemptsApart(s, spent, id)
    ensures Numbered(s.jobs)
  {
  }

  lemma FailIsHeld(s: Sys, step: Step)
    requires Enabled(s, step)
    ensures step.Fail? ==> step.worker in s.holds
  {
  }

  /**
   * In every run the code allows, however late its workers, a job's backoffs add up to no more than one capped
   * delay per attempt but the last, even when a stalled worker and its successor both report a failure.
   */
  lemma TotalBackoffIsBounded(steps: seq<Step>, staleAfter: real, id: nat)
    requires Possible(START, steps, staleAfter) && id in Exec(START, steps, staleAfter).jobs.rows
    ensures TotalImposed(START, steps, staleAfter, id) <=
      DelayBudget(1, Exec(START, steps, staleAfter).jobs.rows[id].maxAttempts)
  {
    hide Exec, Possible;
    assert AttemptsApart(START, {}, id);
    var max := Exec(START, steps, staleAfter).jobs.rows[id].maxAttempts;
    SpendingAddsUp(START, steps, staleAfter, id, max);
    UnspentBounds(1, max, Spent(START, steps, staleAfter, id));
  }

  // ---- without any timing assumption ----

  /** Claims of one job come with ever larger attempt numbers, none above the row's. */
  ghost predicate ClaimsCounted(s: Sys) {
    Numbered(s.jobs) &&
    (forall i :: 0 <= i < |s.claims| ==>
      s.claims[i].id in s.jobs.rows && s.claims[i].attempts <= s.jobs.rows[s.claims[i].id].attempts) &&
    (forall i, j :: 0 <= i < j < |s.claims| && s.claims[i].id == s.claims[j].id ==>
      s.claims[i].attempts < s.claims[j].attempts)
  }

  lemma StepCountsClaims(s: Sys, step: Step, staleAfter: real)
    requires ClaimsCounted(s)
    ensures ClaimsCounted(Next(s, step, staleAfter))
  {
    hide BackoffSeconds, Clip, HasActive;
  }

  /** Even if workers stall arbitrarily, no two claims ever return the same job at the same attempt. */
  lemma {:induction false} ClaimsNeverRepeat(steps: seq<Step>, staleAfter: real)
    ensures ClaimsCounted(Exec(START, steps, staleAfter))
    ensures var claims := Exec(START, steps, staleAfter).claims;
      forall i, j :: 0 <= i < |claims| && 0 <= j < |claims| && i != j ==>
        !(claims[i].id == claims[j].id && claims[i].attempts == claims[j].attempts)
  {
    hide Next;
    if steps != [] {
      ClaimsNeverRepeat(steps[..|steps| - 1], staleAfter);
      StepCountsClaims(Exec(START, steps[..|steps| - 1], staleAfter), steps[|steps| - 1], staleAfter);
    }
    var claims := Exec(START, steps, staleAfter).claims;
    forall i, j | 0 <= i < |claims| && 0 <= j < |claims| && i != j
      ensures !(claims[i].id == claims[j].id && claims[i].attempts == claims[j].attempts)
    {
      assert i < j || j < i;
    }
  }

  // ---- jobs are taken in the order in which they were queued ----

  /** Later jobs have larger ids, and none was created in the future. */
  ghost predicate QueuedInOrder(s: Sys) {
    Numbered(s.jobs) &&
    (forall i :: i in s.jobs.rows ==> s.jobs.rows[i].createdAt <= s.now) &&
    (forall i, j :: i in s.jobs.rows && j in s.jobs.rows && i < j ==>
      s.jobs.rows[i].createdAt <= s.jobs.rows[j].createdAt)
  }

  /** No statement changes when a job was created, and a new job is created now, under the next id. */
  lemma StepKeepsCreation(s: Sys, step: Step, staleAfter: real)
    requires Numbered(s.jobs)
    ensures var s' := Next(s, step, staleAfter);
      Numbered(s'.jobs) &&
      (forall id :: id in s'.jobs.rows && id in s.jobs.rows ==>
        s'.jobs.rows[id].createdAt == s.jobs.rows[id].createdAt) &&
      (forall id :: id in s'.jobs.rows && id !in s.jobs.rows ==>
        id == s.jobs.next && s'.jobs.rows[id].createdAt == s.now)
  {
    hide BackoffSeconds, Clip, HasActive, Oldest;
  }

  lemma StepKeepsQueueOrder(s: Sys, step: Step, staleAfter: real)
    requires QueuedInOrder(s) && Enabled(s, step)
    ensures QueuedInOrder(Next(s, step, staleAfter))
  {
    hide AfterClaim, AfterBeat, AfterFail, AfterFinish, AfterRecover, AfterCreate, HasActive;
    StepKeepsCreation(s, step, staleAfter);
  }

  lemma {:induction false} RunKeepsQueueOrder(steps: seq<Step>, staleAfter: real)
    requires Possible(START, steps, staleAfter)
    ensures QueuedInOrder(Exec(START, steps, staleAfter))
  {
    hide Next, Enabled;
    if steps != [] {
      RunKeepsQueueOrder(steps[..|steps| - 1], staleAfter);
      StepKeepsQueueOrder(Exec(START, steps[..|steps| - 1], staleAfter), steps[|steps| - 1], staleAfter);
    }
  }

  /**
   * In every run, timely or not, a claim takes the job queued first of those that wait, are due and are not
   * locked: no such job is ever passed over for one queued after it, and if there is one, one is taken.
   */
  lemma ClaimsGoInQueueOrder(steps: seq<Step>, staleAfter: real, worker: string, locked: set<nat>, j: nat)
    requires Possible(START, steps, staleAfter)
    requires var s := Exec(START, steps, staleAfter);
      j in s.jobs.rows && j !in locked && s.jobs.rows[j].status == Pending &&
      (s.jobs.rows[j].runAfter == None || s.jobs.rows[j].runAfter.value <= s.now)
    ensures var s := Exec(START, steps, staleAfter);
      var after := Next(s, Claim(worker, locked), staleAfter);
      worker in after.holds && after.holds[worker].job.id <= j &&
      after.claims == s.claims + [after.holds[worker].job]
  {
    hide Exec, Before;
    RunKeepsQueueOrder(steps, staleAfter);
    var s := Exec(START, steps, staleAfter);
    OldestIsClaimed(s.jobs, s.now, locked);
  }

  // ---- the timing assumption is exact ----

  lemma Extend(steps: seq<Step>, step: Step, staleAfter: real, gap: real, s: Sys)
    requires PacedRun(START, steps, staleAfter, gap) && Exec(START, steps, staleAfter) == s && Enabled(s, step) &&
      Paced(s, step, gap)
    ensures PacedRun(START, steps + [step], staleAfter, gap)
    ensures Exec(START, steps + [step], staleAfter) == Next(s, step, staleAfter)
  {
    hide Enabled, Next, Paced;
    assert (steps + [step])[..|steps + [step]| - 1] == steps;
  }

  /** One scheduler queues a job for source 7, where none is active. */
  lemma QueueOne(steps: seq<Step>, staleAfter: real, gap: real, s: Sys) returns (steps': seq<Step>)
    requires PacedRun(START, steps, staleAfter, gap) && Exec(START, steps, staleAfter) == s
    requires s.checks == map[] && !HasActive(s.jobs.rows, 7)
    ensures PacedRun(START, steps', staleAfter, gap)
    ensures Exec(START, steps', staleAfter) == s.(jobs := AfterCreate(s.jobs, 7, s.now))
  {
    hide Exec, PacedRun, HasActive;
    var s1 := s.(checks := map[1 := Check(7, None)]);
    var s2 := s.(checks := map[1 := Check(7, Some(true))]);
    Extend(steps, Lock(1, 7), staleAfter, gap, s);
    Extend(steps + [Lock(1, 7)], Look(1), staleAfter, gap, s1);
    assert Next(s1, Look(1), staleAfter).checks == s2.checks;
    Extend(steps + [Lock(1, 7)] + [Look(1)], Insert(1), staleAfter, gap, s2);
    assert Next(s2, Insert(1), staleAfter).checks == map[];
    steps' := steps + [Lock(1, 7)] + [Look(1)] + [Insert(1)];
  }

  /** The row of a job that `worker` claimed at time `now`. */
  function Held(worker: string, now: real): Job {
    ClaimedRow(NewJob(7, 0.0), worker, now)
  }

  /** Worker a claims the job, stalls past the limit, and the sweep requeues it. */
  lemma {:induction false} StallPastTheLimit(steps: seq<Step>, staleAfter: real, gap: real) returns (steps': seq<Step>)
    requires 0.0 <= staleAfter < gap && PacedRun(START, steps, staleAfter, gap)
    requires Exec(START, steps, staleAfter) == START.(jobs := AfterCreate(Empty(), 7, 0.0))
    ensures PacedRun(START, steps', staleAfter, gap)
    ensures Exec(START, steps', staleAfter) ==
      Sys(Table(map[1 := RequeuedRow(Held("a", 0.0))], 2), gap,
          map["a" := Hold(ClaimedJob(1, 7, 1, 3), 0.0)], map[], [ClaimedJob(1, 7, 1, 3)])
  {
    hide Exec, PacedRun;
    var s := START.(jobs := AfterCreate(Empty(), 7, 0.0));
    var s1 := Next(s, Claim("a", {}), staleAfter);
    assert s1.jobs.rows == map[1 := Held("a", 0.0)] && s1.holds == map["a" := Hold(ClaimedJob(1, 7, 1, 3), 0.0)];
    var s2 := Next(s1, Tick(gap), staleAfter);
    Extend(steps, Claim("a", {}), staleAfter, gap, s);
    Extend(steps + [Claim("a", {})], Tick(gap), staleAfter, gap, s1);
    Extend(steps + [Claim("a", {})] + [Tick(gap)], Recover, staleAfter, gap, s2);
    assert Next(s2, Recover, staleAfter).jobs.rows == map[1 := RequeuedRow(Held("a", 0.0))];
    steps' := steps + [Claim("a", {})] + [Tick(gap)] + [Recover];
  }

  /** The state after worker a stalled on job 1 and worker b was given it as well. */
  lemma SecondHolder(staleAfter: real, gap: real) returns (steps: seq<Step>)
    requires 0.0 <= staleAfter < gap
    ensures PacedRun(START, steps, staleAfter, gap)
    ensures Exec(START, steps, staleAfter) ==
      Sys(Table(map[1 := ClaimedRow(RequeuedRow(Held("a", 0.0)), "b", gap)], 2), gap,
          map["a" := Hold(ClaimedJob(1, 7, 1, 3), gap), "b" := Hold(ClaimedJob(1, 7, 2, 3), gap)], map[],
          [ClaimedJob(1, 7, 1, 3), ClaimedJob(1, 7, 2, 3)])
  {
    hide Exec, PacedRun;
    assert PacedRun(START, [], staleAfter, gap) && Exec(START, [], staleAfter) == START by { NoSteps(staleAfter, gap); }
    var p1 := QueueOne([], staleAfter, gap, START);
    var p2 := StallPastTheLimit(p1, staleAfter, gap);
    var s2 := Exec(START, p2, staleAfter);
    var s3 := Next(s2, Beat("a"), staleAfter);
    Extend(p2, Beat("a"), staleAfter, gap, s2);
    assert s3.jobs.rows == s2.jobs.rows && s3.holds == map["a" := Hold(ClaimedJob(1, 7, 1, 3), gap)];
    Extend(p2 + [Beat("a")], Claim("b", {}), staleAfter, gap, s3);
    var s4 := Next(s3, Claim("b", {}), staleAfter);
    assert s4.jobs.rows == map[1 := ClaimedRow(RequeuedRow(Held("a", 0.0)), "b", gap)];
    steps := p2 + [Beat("a")] + [Claim("b", {})];
  }

  /**
   * With one heartbeat later than the limit, by however little, a stalled worker's report can reopen a job
   * that another worker finished, after the scheduler has queued the next one: two active jobs for one source.
   */
  lemma LateReportBreaksOneActive(staleAfter: real, gap: real) returns (steps: seq<Step>)
    requires 0.0 <= staleAfter < gap
    ensures PacedRun(START, steps, staleAfter, gap)
    ensures !OneActivePerSource(Exec(START, steps, staleAfter).jobs.rows)
  {
    hide Exec, PacedRun;
    var p3 := SecondHolder(staleAfter, gap);
    var s3 := Exec(START, p3, staleAfter);
    var s4 := Next(s3, Finish("b", gap), staleAfter);
    Extend(p3, Finish("b", gap), staleAfter, gap, s3);
    assert s4.jobs.rows.Keys == {1} && s4.jobs.rows[1].status == Completed && s4.jobs.rows[1].sourceId == 7;
    var p4 := QueueOne(p3 + [Finish("b", gap)], staleAfter, gap, s4);
    var s5 := s4.(jobs := AfterCreate(s4.jobs, 7, s4.now));
    Extend(p4, Fail("a", "late", 0.0), staleAfter, gap, s5);
    var s6 := Next(s5, Fail("a", "late", 0.0), staleAfter);
    assert s6.jobs.rows[1].status == Pending && s6.jobs.rows[2].status == Pending;
    assert s6.jobs.rows[1].sourceId == 7 && s6.jobs.rows[2].sourceId == 7;
    steps := p4 + [Fail("a", "late", 0.0)];
  }

  lemma NoSteps(staleAfter: real, gap: real)
    ensures PacedRun(START, [], staleAfter, gap) && Exec(START, [], staleAfter) == START
  {
  }

  /** Workers that beat often enough for some tighter gap beat often enough for the sweep. */
  lemma {:induction false} PacedIsTimely(s: Sys, steps: seq<Step>, staleAfter: real, gap: real)
    requires gap <= staleAfter && PacedRun(s, steps, staleAfter, gap)
    ensures TimelyRun(s, steps, staleAfter)
  {
    hide Enabled, Exec;
    if steps != [] {
      PacedIsTimely(s, steps[..|steps| - 1], staleAfter, gap);
    }
  }

  lemma StartInv(staleAfter: real)
    requires staleAfter >= 0.0
    ensures Inv(START, staleAfter)
  {
  }

  lemma ToleratedGapKeepsInv(steps: seq<Step>, staleAfter: real, gap: real)
    requires 0.0 <= staleAfter && gap <= staleAfter && PacedRun(START, steps, staleAfter, gap)
    ensures TimelyRun(START, steps, staleAfter) && Inv(Exec(START, steps, staleAfter), staleAfter)
  {
    hide Inv;
    PacedIsTimely(START, steps, staleAfter, gap);
    StartInv(staleAfter);
    RunKeepsInv(START, steps, staleAfter);
  }

  /**
   * The limit is exact: one active job per source holds in every run of workers that beat at least every `gap`
   * if and only if the sweep tolerates that gap.
   */
  lemma OneActiveExactlyWhenGapIsTolerated(staleAfter: real, gap: real)
    requires staleAfter >= 0.0
    ensures (forall steps :: PacedRun(START, steps, staleAfter, gap) ==>
      OneActivePerSource(Exec(START, steps, staleAfter).jobs.rows)) <==> gap <= staleAfter
  {
    hide Next, Exec, PacedRun, TimelyRun, OneActivePerSource;
    if gap <= staleAfter {
      forall steps | PacedRun(START, steps, staleAfter, gap)
        ensures OneActivePerSource(Exec(START, steps, staleAfter).jobs.rows)
      {
        ToleratedGapKeepsInv(steps, staleAfter, gap);
      }
    } else {
      var steps := LateReportBreaksOneActive(staleAfter, gap);
    }
  }

  /** A job has at most one live holder. */
  ghost predicate OneHolder(s: Sys) {
    forall v, w | v in s.holds && w in s.holds && s.holds[v].job.id == s.holds[w].job.id :: v == w
  }

  /** One worker per job holds in every such run if and only if the sweep tolerates the gap. */
  lemma OneHolderExactlyWhenGapIsTolerated(staleAfter: real, gap: real)
    requires staleAfter >= 0.0
    ensures (forall steps :: PacedRun(START, steps, staleAfter, gap) ==> OneHolder(Exec(START, steps, staleAfter)))
      <==> gap <= staleAfter
  {
    hide Next, Exec, PacedRun, TimelyRun, Fenced;
    if gap <= staleAfter {
      forall steps | PacedRun(START, steps, staleAfter, gap) ensures OneHolder(Exec(START, steps, staleAfter)) {
        ToleratedGapKeepsInv(steps, staleAfter, gap);
        var s := Exec(START, steps, staleAfter);
        forall v, w | v in s.holds && w in s.holds && s.holds[v].job.id == s.holds[w].job.id ensures v == w {
          OneHolderPerJob(s, staleAfter, v, w);
        }
      }
    } else {
      var steps := SecondHolder(staleAfter, gap);
      assert "a" in Exec(START, steps, staleAfter).holds && "b" in Exec(START, steps, staleAfter).holds;
    }
  }

  /** A waiting job has an attempt left, a running one is at an attempt it may have. */
  ghost predicate AttemptsInBounds(jobs: map<nat, Job>) {
    forall id :: id in jobs ==>
      (jobs[id].status == Pending ==> jobs[id].attempts < jobs[id].maxAttempts) &&
      (jobs[id].status == Running ==> 1 <= jobs[id].attempts <= jobs[id].maxAttempts)
  }

  /** When b stalls too and c is given the last attempt, a's late failure puts a job with none left back in line. */
  lemma LateReportExceedsAttempts(staleAfter: real, gap: real) returns (steps: seq<Step>)
    requires 0.0 <= staleAfter < gap
    ensures PacedRun(START, steps, staleAfter, gap)
    ensures !AttemptsInBounds(Exec(START, steps, staleAfter).jobs.rows)
  {
    hide Exec, PacedRun;
    var p4 := SecondHolder(staleAfter, gap);
    var s4 := Exec(START, p4, staleAfter);
    var s5 := Next(s4, Tick(gap), staleAfter);
    Extend(p4, Tick(gap), staleAfter, gap, s4);
    var s6 := Next(s5, Recover, staleAfter);
    Extend(p4 + [Tick(gap)], Recover, staleAfter, gap, s5);
    assert s6.jobs.rows.Keys == {1} && s6.jobs.rows[1].status == Pending && s6.jobs.rows[1].attempts == 2;
    var s7 := Next(s6, Claim("c", {}), staleAfter);
    Extend(p4 + [Tick(gap)] + [Recover], Claim("c", {}), staleAfter, gap, s6);
    assert s7.jobs.rows[1].attempts == 3 && s7.holds["a"] == s4.holds["a"];
    Extend(p4 + [Tick(gap)] + [Recover] + [Claim("c", {})], Fail("a", "late", 0.0), staleAfter, gap, s7);
    var s8 := Next(s7, Fail("a", "late", 0.0), staleAfter);
    assert s8.jobs.rows[1].status == Pending && s8.jobs.rows[1].attempts == 3 == s8.jobs.rows[1].maxAttempts;
    steps := p4 + [Tick(gap)] + [Recover] + [Claim("c", {})] + [Fail("a", "late", 0.0)];
  }

  /** Attempts stay in bounds in every such run if and only if the sweep tolerates the gap. */
  lemma AttemptsInBoundsExactlyWhenGapIsTolerated(staleAfter: real, gap: real)
    requires staleAfter >= 0.0
    ensures (forall steps :: PacedRun(START, steps, staleAfter, gap) ==>
      AttemptsInBounds(Exec(START, steps, staleAfter).jobs.rows)) <==> gap <= staleAfter
  {
    hide Next, Exec, PacedRun, TimelyRun;
    if gap <= staleAfter {
      forall steps | PacedRun(START, steps, staleAfter, gap)
        ensures AttemptsInBounds(Exec(START, steps, staleAfter).jobs.rows)
      {
        ToleratedGapKeepsInv(steps, staleAfter, gap);
      }
    } else {
      var steps := LateReportExceedsAttempts(staleAfter, gap);
    }
  }

  /** The last step of the run changed no finished job. */
  ghost predicate FinishedStay(steps: seq<Step>, staleAfter: real) {
    steps != [] ==>
      var before := Exec(START, steps[..|steps| - 1], staleAfter).jobs.rows;
      var after := Exec(START, steps, staleAfter).jobs.rows;
      forall id :: id in before && Terminal(before[id]) ==> id in after && after[id] == before[id]
  }

  lemma LateReportReopens(staleAfter: real, gap: real) returns (steps: seq<Step>)
    requires 0.0 <= staleAfter < gap
    ensures PacedRun(START, steps, staleAfter, gap) && !FinishedStay(steps, staleAfter)
  {
    hide Exec, PacedRun;
    var p4 := SecondHolder(staleAfter, gap);
    var s4 := Exec(START, p4, staleAfter);
    var s5 := Next(s4, Finish("b", gap), staleAfter);
    Extend(p4, Finish("b", gap), staleAfter, gap, s4);
    assert s5.jobs.rows[1].status == Completed && s5.holds["a"] == s4.holds["a"];
    var p5 := p4 + [Finish("b", gap)];
    Extend(p5, Fail("a", "late", 0.0), staleAfter, gap, s5);
    var s6 := Next(s5, Fail("a", "late", 0.0), staleAfter);
    assert s6.jobs.rows[1].status == Pending;
    steps := p5 + [Fail("a", "late", 0.0)];
    assert steps[..|steps| - 1] == p5;
  }

  /** Finished jobs stay as they are throughout every such run if and only if the sweep tolerates the gap. */
  lemma FinishedStayExactlyWhenGapIsTolerated(staleAfter: real, gap: real)
    requires staleAfter >= 0.0
    ensures (forall steps :: PacedRun(START, steps, staleAfter, gap) ==> FinishedStay(steps, staleAfter))
      <==> gap <= staleAfter
  {
    hide Next, Inv, Enabled, Paced;
    if gap <= staleAfter {
      forall steps | PacedRun(START, steps, staleAfter, gap) ensures FinishedStay(steps, staleAfter) {
        ToleratedGapKeepsInv(steps, staleAfter, gap);
        if steps != [] {
          var init, last := steps[..|steps| - 1], steps[|steps| - 1];
          ToleratedGapKeepsInv(init, staleAfter, gap);
          StepKeepsInv(Exec(START, init, staleAfter), last, staleAfter);
        }
      }
    } else {
      var steps := LateReportReopens(staleAfter, gap);
    }
  }
}
