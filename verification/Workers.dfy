/** One collection as a worker runs it: job row, saved results, commit and rollback (app/jobs/worker.py). */
module Workers {
  import opened Text
  import opened Tables
  import opened Store
  import opened Suppressions
  import opened Pipeline
  import opened Ownership
  import opened Queue
  import Erasure

  /** The counters that are saved with a job. */
  datatype Results = Results(
    collected: nat, valid: nat, invalid: nat, duplicates: nat, newLeads: nat, errors: nat, suppressed: nat)

  function Persisted(c: Counters): Results {
    Results(c.collected, c.valid, c.invalid, c.duplicates, c.newLeads, c.errors, c.suppressed)
  }

  /** How the source stopped yielding items. */
  datatype Ending = Exhausted | SourceFailed(reason: string) | Crashed(reason: string)

  /** The exception that ends the run, as the worker records it. */
  function Raised(ending: Ending): Option<string> {
    match ending
    case Exhausted => None
    case SourceFailed(reason) => Some("SourceError: " + reason)
    case Crashed(reason) => Some(reason)
  }

  /** What a run of one source is given: the source's configuration, and what it yields. */
  datatype Task = Task(source: Source, items: seq<Item>, ending: Ending)

  function RunOf(sourceId: nat, task: Task, entries: Table<Entry>): Run {
    Run(sourceId, task.source.priority, Load(entries))
  }

  /** Tables and counters after the items: the source is configured first, the suppressions are loaded once. */
  function Gathered(db: Db, env: Env, entries: Table<Entry>, sourceId: nat, task: Task): Progress {
    var configured := Exec1(db, env, Configure(sourceId, task.source));
    Collected(Progress(configured, NO_COUNTS), env, RunOf(sourceId, task, entries), task.items)
  }

  /** The job row as the run leaves it; a crash leaves it running. */
  function MarkedRow(job: Job, ending: Ending, started: real, end: real): Job {
    match ending
    case Exhausted => FinishedRow(job, started, end)
    case SourceFailed(reason) =>
      job.(status := Failed, startedAt := Some(started), error := Some(reason), finishedAt := Some(end))
    case Crashed(_) => job.(status := Running, startedAt := Some(started))
  }

  class ResultTable {
    var rows: map<nat, Results>

    constructor ()
      ensures rows == map[]
    {
      rows := map[];
    }

    method SaveResults(jobId: nat, results: Results)
      modifies this
      ensures rows == old(rows)[jobId := results]
    {
      rows := rows[jobId := results];
    }
  }

  /** A finished run marks its row and saves its counters, a crash does neither; all of it awaits the commit. */
  method RunCollection(db: Database, jobs: JobTable, results: ResultTable, suppressions: SuppressionRepository,
                       env: Env, sourceId: nat, task: Task, jobId: nat, started: real, end: real)
    returns (stats: RunStats, raised: Option<string>)
    requires jobId in jobs.jobs.rows
    modifies db, jobs, results
    ensures raised == Raised(task.ending) && fresh(stats)
    ensures raised == match task.ending
      case Exhausted => None
      case SourceFailed(reason) => Some("SourceError: " + reason)
      case Crashed(reason) => Some(reason)
    ensures Progress(db.State(), stats.Value()) == Gathered(old(db.State()), env, suppressions.entries, sourceId, task)
    ensures task.ending.Crashed? ==> results.rows == old(results.rows)
    ensures !task.ending.Crashed? ==> results.rows == old(results.rows)[jobId := Persisted(stats.Value())]
    ensures var row := MarkedRow(old(jobs.jobs).rows[jobId], task.ending, started, end);
      jobs.jobs == old(jobs.jobs).(rows := old(jobs.jobs).rows[jobId := row])
  {
    hide Collected, Load;
    db.sources := db.sources[sourceId := task.source];
    jobs.MarkRunning(jobId, started);
    stats := CollectItems(db, env, RunOf(sourceId, task, suppressions.entries), task.items);
    raised := Raised(task.ending);
    if !task.ending.Crashed? {
      results.SaveResults(jobId, Persisted(stats.Value()));
      var error := if task.ending.Exhausted? then None else Some(task.ending.reason);
      jobs.MarkFinished(jobId, if error.None? then Completed else Failed, error, end);
    }
  }

  /** The process that drains the queue. */
  class Worker {
    const name: string
    const staleAfter: real
    const recoverEvery: real
    var lastRecovery: real

    constructor (name: string, staleAfter: real, recoverEvery: real)
      ensures this.name == name && this.staleAfter == staleAfter && this.recoverEvery == recoverEvery &&
        lastRecovery == 0.0
    {
      this.name, this.staleAfter, this.recoverEvery, lastRecovery := name, staleAfter, recoverEvery, 0.0;
    }

    /**
     * One job from claim to outcome: the run is that of the claimed job's source. Either everything the run did is
     * committed together with its completed row and its counters, or nothing of it is and only the failure is
     * recorded.
     */
    method RunOnce(db: Database, jobs: JobTable, results: ResultTable, suppressions: SuppressionRepository, env: Env,
                   tasks: nat -> Task, locked: set<nat>, claimedAt: real, started: real, end: real, jitter: real)
      returns (worked: bool)
      modifies db, jobs, results
      ensures worked <==> ClaimResult(old(jobs.jobs), claimedAt, locked).Some?
      ensures !worked ==>
        jobs.jobs == old(jobs.jobs) && db.State() == old(db.State()) && results.rows == old(results.rows)
      ensures worked ==>
        var claimed := ClaimResult(old(jobs.jobs), claimedAt, locked).value;
        var running := AfterClaim(old(jobs.jobs), name, claimedAt, locked);
        var task := tasks(claimed.sourceId);
        var gathered := Gathered(old(db.State()), env, suppressions.entries, claimed.sourceId, task);
        if Raised(task.ending).None? then
          db.State() == gathered.db && results.rows == old(results.rows)[claimed.id := Persisted(gathered.stats)] &&
          jobs.jobs == AfterFinish(running, claimed.id, started, end)
        else
          db.State() == old(db.State()) && results.rows == old(results.rows) &&
          jobs.jobs == AfterFail(running, claimed, Raised(task.ending).value, end, jitter)
    {
      hide Gathered;
      var job := jobs.Claim(name, claimedAt, locked);
      if job.None? {
        return false;
      }
      var savedJobs, savedResults, saved := jobs.jobs, results.rows, db.State();
      var _, raised := RunCollection(db, jobs, results, suppressions, env, job.value.sourceId,
                                     tasks(job.value.sourceId), job.value.id, started, end);
      if raised.Some? {
        // the session is closed without a commit
        jobs.jobs, results.rows := savedJobs, savedResults;
        db.sources, db.records, db.leads, db.links := saved.sources, saved.records, saved.leads, saved.links;
        var _ := jobs.Fail(job.value, raised.value, end, jitter);
      }
      return true;
    }

    /** At most one sweep per interval. */
    method MaybeRecover(table: JobTable, monotonic: real, now: real)
      modifies this, table
      ensures if monotonic - old(lastRecovery) < recoverEvery
              then lastRecovery == old(lastRecovery) && table.jobs == old(table.jobs)
              else lastRecovery == monotonic && table.jobs == AfterRecover(old(table.jobs), now, staleAfter)
    {
      if monotonic - lastRecovery < recoverEvery {
        return;
      }
      lastRecovery := monotonic;
      var _ := table.RecoverStale(now, staleAfter);
    }
  }

  /**
   * What a worker's run does to the tables is what collecting does: items checked against all suppressions listed
   * when it starts, under the priority it has just configured.
   */
  lemma WorkerRunCollects(db: Db, env: Env, entries: Table<Entry>, sourceId: nat, task: Task,
                          domainOf: string -> Option<string>)
    ensures var configured := db.(sources := db.sources[sourceId := task.source]);
      Gathered(db, env, entries, sourceId, task).db ==
      Erasure.Act(Erasure.Site(configured, entries), env, domainOf,
                  Erasure.Collect(sourceId, task.source.priority, task.items)).db
  {
    hide Collected, Load;
  }

  /** The saved counters account for the records of the run, and for exactly the leads it added. */
  lemma SavedResultsAddUp(db: Db, env: Env, entries: Table<Entry>, sourceId: nat, task: Task)
    requires Numbered(db.leads)
    ensures var gathered := Gathered(db, env, entries, sourceId, task);
      var r := Persisted(gathered.stats);
      r.suppressed + r.valid + r.invalid <= r.collected <= r.suppressed + r.duplicates + r.newLeads + r.errors &&
      (r.errors == 0 ==> r.collected == r.suppressed + r.duplicates + r.newLeads) &&
      |gathered.db.leads.rows| == |db.leads.rows| + r.newLeads
  {
    hide Collected, Load;
    var configured := Exec1(db, env, Configure(sourceId, task.source));
    RunConservesRecords(configured, env, RunOf(sourceId, task, entries), task.items);
  }
}
